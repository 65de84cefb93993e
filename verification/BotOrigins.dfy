/** Where what the bot writes comes from and where it lands: each report from a pipeline of the same
    project that ended, on its own merge request, each reply under its command. */
module BotOrigins {
  import opened Text
  import opened Command
  import opened Marker
  import opened Report
  import opened Figures
  import opened Threads
  import opened Handler
  import opened Bot
  import opened BotReports

  // ---- what is let in ------------------------------------------------------------------

  /** Exactly ended pipelines and commands on merge requests are let in, as what they are. */
  lemma AdmitIff(h: Hook, c: Setup, ev: Event)
    ensures Admit(h, c) == Some(ev) <==>
            || (exists p :: h == PipelineHook(p) && ev == PipelineWork(p) &&
                            (p.status == "success" || p.status == "failed"))
            || (exists n :: h == NoteHook(true, n) && ev == NoteWork(n) && c.commands && Parse(n.body).Some?)
  {
    hide Parse;
  }

  // ---- one report ------------------------------------------------------------------------

  /** The event's own merge request, or without one that of its branch. */
  predicate MrIs(p: PipelineEvent, lookup: Answer<Option<int>>, mr: int) {
    if p.mr != 0 then mr == p.mr else lookup == Ok(Some(mr))
  }

  /** A report is written exactly when its data could be built and a merge request is known: on that
      merge request of the event's project, about the event's pipeline and status. */
  lemma PrepareIff(p: PipelineEvent, lookup: Answer<Option<int>>, built: Answer<(Data, Decimals)>, c: Setup,
                   at: Mr, pipeline: int, body: string)
    ensures Prepare(p, lookup, built, c) == Upserting(at, pipeline, body) <==>
            && built.Ok? && MrIs(p, lookup, at.1) && at.0 == p.project && pipeline == p.pipeline
            && var h := c.handler;
               var marker := if h.key == "" then "" else SignedMarker(p.pipeline, at.1, h.key, h.mac);
               var (d, f) := built.value;
               body == Body(Data(p.pipeline, p.status, d.jobs, d.warnRatio, d.ranJobs, marker), f)
    ensures Prepare(p, lookup, built, c).Idle? <==> built.Err? || forall mr :: !MrIs(p, lookup, mr)
  {
    hide Body, SignedMarker;
    assert p.mr == 0 && lookup.Ok? && lookup.value.Some? ==> MrIs(p, lookup, lookup.value.value);
    assert p.mr != 0 ==> MrIs(p, lookup, p.mr);
  }

  // ---- every report ------------------------------------------------------------------------

  /** A pipeline of m's project with that number ended, for m itself or for a branch whose merge
      request was answered to be m. */
  ghost predicate FromEvent(w: World, m: Mr, pipeline: int) {
    exists p | p in w.finished :: IsFor(w, p, m) && p.pipeline == pipeline
  }

  predicate IsFor(w: World, p: PipelineEvent, m: Mr) {
    && p.project == m.0 && (p.status == "success" || p.status == "failed")
    && if p.mr != 0 then p.mr == m.1 else (p, m.1) in w.lookups
  }

  predicate TracedHook(h: Hook, w: World) { h.PipelineHook? ==> h.p in w.finished }

  predicate TracedEvent(e: Event, w: World) {
    e.PipelineWork? ==> e.p in w.finished && (e.p.status == "success" || e.p.status == "failed")
  }

  ghost predicate TracedWork(w: World) {
    w.work.Upserting? ==> FromEvent(w, w.work.at, w.work.pipeline)
  }

  ghost predicate TracedReports(w: World) {
    forall at | at in w.writers :: FromEvent(w, at.0, w.writers[at])
  }

  ghost predicate Traced(w: World) {
    && (forall i | 0 <= i < |w.pending| :: TracedHook(w.pending[i], w))
    && (forall i | 0 <= i < |w.buffer| :: TracedEvent(w.buffer[i], w))
    && TracedWork(w) && TracedReports(w)
  }

  lemma TracedStays(w: World, v: World)
    requires w.finished <= v.finished && w.lookups <= v.lookups
    ensures forall h | TracedHook(h, w) :: TracedHook(h, v)
    ensures forall e | TracedEvent(e, w) :: TracedEvent(e, v)
    ensures forall m, pipeline | FromEvent(w, m, pipeline) :: FromEvent(v, m, pipeline)
  {
    forall m, pipeline | FromEvent(w, m, pipeline)
      ensures FromEvent(v, m, pipeline)
    {
      var p :| p in w.finished && IsFor(w, p, m) && p.pipeline == pipeline;
      assert IsFor(v, p, m);
    }
  }

  lemma DeliverKeepsTraced(w: World, i: nat, c: Setup)
    requires i < |w.pending| && Traced(w)
    ensures Traced(Deliver(w, i, c))
  {
    hide Parse, FromEvent;
    var v := Deliver(w, i, c);
    TracedStays(w, v);
    assert TracedHook(w.pending[i], w);
    assert forall k | 0 <= k < |v.pending| :: v.pending[k] == if k < i then w.pending[k] else w.pending[k + 1];
  }

  lemma TakeKeepsTraced(w: World, lookup: Answer<Option<int>>, built: Answer<(Data, Decimals)>, c: Setup)
    requires w.buffer != [] && w.work.Idle? && Traced(w)
    ensures Traced(Take(w, lookup, built, c))
  {
    hide Prepare, FromEvent;
    var v := Take(w, lookup, built, c);
    TracedStays(w, v);
    assert TracedEvent(w.buffer[0], w);
    assert forall i | 0 <= i < |v.buffer| :: v.buffer[i] == w.buffer[i + 1];
    if w.buffer[0].PipelineWork? {
      PreparedIsFor(w, lookup, built, c);
    }
  }

  lemma PreparedIsFor(w: World, lookup: Answer<Option<int>>, built: Answer<(Data, Decimals)>, c: Setup)
    requires w.buffer != [] && w.buffer[0].PipelineWork? && TracedEvent(w.buffer[0], w)
    ensures var v := Take(w, lookup, built, c); v.work.Upserting? ==> FromEvent(v, v.work.at, v.work.pipeline)
  {
    hide Prepare;
    var p, v := w.buffer[0].p, Take(w, lookup, built, c);
    if v.work.Upserting? {
      PrepareIff(p, lookup, built, c, v.work.at, v.work.pipeline, v.work.body);
      assert IsFor(v, p, v.work.at);
    }
  }

  lemma UpsertKeepsTraced(w: World, listed: bool, fate: Fate, id: int, echoes: nat, c: Setup)
    requires w.work.Upserting? && Traced(w)
    ensures Traced(SendUpsert(w, listed, fate, id, echoes, c))
  {
    hide Contains, FromEvent, Upserted;
    TracedStays(w, SendUpsert(w, listed, fate, id, echoes, c));
  }

  /** A step that leaves the buffer and the writers alone and adds no pipeline hook but of a pipeline
      that ended. */
  ghost predicate Adds(w: World, v: World) {
    && v.buffer == w.buffer && v.writers == w.writers && (v.work.Upserting? ==> v.work == w.work)
    && w.finished <= v.finished && w.lookups <= v.lookups
    && |w.pending| <= |v.pending| && v.pending[..|w.pending|] == w.pending
    && forall i | |w.pending| <= i < |v.pending| :: TracedHook(v.pending[i], v)
  }

  lemma AuthorizeAdds(w: World, fetched: bool, b: Backend, c: Setup)
    requires w.work.Handling?
    ensures Adds(w, Authorize(w, fetched, b, c))
  {
    hide Handle;
  }

  lemma SendReplyAdds(w: World, fate: Fate, id: int, echoes: nat, c: Setup)
    requires w.work.Replying?
    ensures Adds(w, SendReply(w, fate, id, echoes, c))
  {
    hide Append;
  }

  lemma PostAdds(w: World, m: Mr, t: nat, note: Note, copies: nat)
    requires t <= |Of(w, m)|
    ensures Adds(w, Post(w, m, t, note, copies))
  {
    hide Append, Contains;
  }

  lemma AddsKeepsTraced(w: World, v: World)
    requires Traced(w) && Adds(w, v)
    ensures Traced(v)
  {
    hide FromEvent, TracedHook, TracedEvent;
    TracedStays(w, v);
    assert forall i | 0 <= i < |w.pending| :: v.pending[i] == v.pending[..|w.pending|][i];
  }

  lemma EnvironmentAdds(s: Step, w: World, c: Setup)
    requires Enabled(s, w) && (s.Redelivering? || s.Finishing?)
    ensures Adds(w, Next(s, w, c))
  {
    hide Deliver, Take, Authorize, SendReply, SendUpsert, Post, Contains;
  }

  lemma StepKeepsTraced(s: Step, w: World, c: Setup)
    requires Enabled(s, w) && Traced(w)
    ensures Traced(Next(s, w, c))
  {
    hide Traced, Adds, Deliver, Take, Authorize, SendReply, SendUpsert, Post, HookFor, Contains;
    match s
    case Delivering(i) => DeliverKeepsTraced(w, i, c);
    case Taking(lookup, built) => TakeKeepsTraced(w, lookup, built, c);
    case SendingUpsert(listed, fate, id, echoes) => UpsertKeepsTraced(w, listed, fate, id, echoes, c);
    case _ =>
      match s {
        case Authorizing(fetched, b) => AuthorizeAdds(w, fetched, b, c);
        case SendingReply(fate, id, echoes) => SendReplyAdds(w, fate, id, echoes, c);
        case Posting(m, t, note, copies) => PostAdds(w, m, t, note, copies);
        case _ => EnvironmentAdds(s, w, c);
      }
      AddsKeepsTraced(w, Next(s, w, c));
  }

  lemma {:induction false} RunKeepsTraced(steps: seq<Step>, w: World, c: Setup)
    requires CanRun(steps, w, c) && Traced(w)
    ensures Traced(Run(steps, w, c))
  {
    hide Traced, Enabled, Next;
    if steps != [] {
      StepKeepsTraced(steps[0], w, c);
      RunKeepsTraced(steps[1..], Next(steps[0], w, c), c);
    }
  }

  /** Every report on m that the bot ever wrote stems from a pipeline of m's own project that ended,
      with the number that the report tells, for m or for a branch whose merge request is m. */
  lemma ReportFromItsEvent(w: World, c: Setup, m: Mr, t: nat)
    requires Reachable(w, c) && (m, t) in w.writers
    ensures FromEvent(w, m, w.writers[(m, t)])
  {
    hide CanRun, Run, FromEvent;
    var steps :| CanRun(steps, INIT, c) && Run(steps, INIT, c) == w;
    RunKeepsTraced(steps, INIT, c);
    assert TracedReports(w);
  }

  // ---- where notes land ----------------------------------------------------------------------

  /** A report that is written is the root of one thread of its merge request; everything else on
      any merge request stays. */
  lemma UpsertLands(w: World, fate: Fate, id: int, echoes: nat, c: Setup) returns (t: nat)
    requires w.work.Upserting? && !fate.Refused? && OneEach(w) && Contains(w.work.body, PREFIX)
    ensures var v := SendUpsert(w, true, fate, id, echoes, c);
            var (m, before, after) := (w.work.at, Of(w, w.work.at), Of(v, w.work.at));
            && t < |after| && |after[t].notes| == 1 && after[t].notes[0].body == w.work.body
            && (t < |before| ==> after[t].notes[0] == before[t].notes[0].(body := w.work.body))
            && (t == |before| ==> after[t].notes[0] == Note(id, c.handler.bot, false, w.work.body))
            && (forall i | 0 <= i < |before| && i != t :: after[i] == before[i])
            && |before| <= |after| && t <= |before|
            && (forall other | other != m :: Of(v, other) == Of(w, other))
  {
    hide Contains, HookFor, Copies;
    var created := Thread([Note(id, c.handler.bot, false, w.work.body)]);
    OneOf(w, w.work.at);
    t := UpsertShowsBody(Of(w, w.work.at), PREFIX, w.work.body, created, fate);
  }

  /** A reply that is written follows the notes of the thread in which its command was posted, and
      everything else stays. */
  lemma ReplyLands(w: World, fate: Fate, id: int, echoes: nat, c: Setup)
    requires w.work.Replying? && !fate.Refused? && Sound(w)
    ensures w.work.n.noteId in w.home
    ensures var v := SendReply(w, fate, id, echoes, c);
            var (m, t) := w.home[w.work.n.noteId];
            t < |Of(w, m)| ==>
              && Of(v, m) == Of(w, m)[t := Thread(Of(w, m)[t].notes + [Note(id, c.handler.bot, false, w.work.body)])]
              && forall other | other != m :: Of(v, other) == Of(w, other)
  {
    hide BotBody, Copies, SoundNotes;
  }
}
