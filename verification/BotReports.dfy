/** Report notes over every run: one that may be edited, frozen once discussed, and always
    telling the pipeline that a command in its thread is about. */
module BotReports {
  import opened Text
  import opened Marker
  import opened Report
  import opened Figures
  import opened Threads
  import opened Handler
  import opened Bot

  predicate SignedFor(body: string, pipeline: int, mr: int, c: Setup) {
    c.handler.key != "" ==> ParseSigned(body, c.handler.key, c.handler.mac) == Some((pipeline, mr))
  }

  /** A thread that begins with a marked note tells who wrote it. */
  predicate RootTold(w: World, m: Mr, t: nat, thread: Thread, c: Setup) {
    && thread.notes != []
    && (Marked(thread) ==> (m, t) in w.writers && SignedFor(thread.notes[0].body, w.writers[(m, t)], m.1, c))
  }

  ghost predicate RootsTold(w: World, c: Setup) {
    forall m, t | m in w.mrs && 0 <= t < |w.mrs[m]| :: RootTold(w, m, t, w.mrs[m][t], c)
  }

  ghost predicate OneEach(w: World) { forall m | m in w.mrs :: AtMostOneEditable(w.mrs[m], PREFIX) }

  /** A note that somebody posted under a report has company and knows the report's pipeline. */
  predicate TopicTold(w: World, id: int)
    requires id in w.home
  {
    var (m, t) := w.home[id];
    && id in w.topics && m in w.mrs && t < |w.mrs[m]|
    && (Marked(w.mrs[m][t]) ==> |w.mrs[m][t].notes| >= 2 && w.topics[id] == Writer(w, m, t))
  }

  ghost predicate TopicsTold(w: World) { forall id | id in w.home :: TopicTold(w, id) }

  predicate WorkTold(w: World, c: Setup) {
    match w.work
    case Idle => true
    case Handling(_) => c.commands
    case Replying(n, pipeline, _) => c.commands && n.noteId in w.topics && w.topics[n.noteId] == pipeline
    case Upserting(m, pipeline, body) => Contains(body, PREFIX) && SignedFor(body, pipeline, m.1, c)
  }

  predicate CallTold(w: World, call: Call) { call.note in w.topics && w.topics[call.note] == call.pipeline }

  ghost predicate Reports(w: World, c: Setup) {
    && OneEach(w) && RootsTold(w, c) && TopicsTold(w) && WorkTold(w, c)
    && (forall i | 0 <= i < |w.buffer| :: w.buffer[i].NoteWork? ==> c.commands)
    && (forall i | 0 <= i < |w.calls| :: CallTold(w, w.calls[i]))
    && w.topics.Keys == w.home.Keys
  }

  /** Steps that leave the notes and their history alone. */
  lemma SameNotes(w: World, v: World, c: Setup)
    requires Reports(w, c)
    requires v.mrs == w.mrs && v.writers == w.writers && v.home == w.home && v.topics == w.topics
    ensures OneEach(v) && RootsTold(v, c) && TopicsTold(v) && v.topics.Keys == v.home.Keys
    ensures forall call | CallTold(w, call) :: CallTold(v, call)
  {
    hide Contains, AtMostOneEditable, SignedFor;
    forall m, t | m in v.mrs && 0 <= t < |v.mrs[m]|
      ensures RootTold(v, m, t, v.mrs[m][t], c)
    {
      assert RootTold(w, m, t, w.mrs[m][t], c);
    }
    forall id | id in v.home
      ensures TopicTold(v, id)
    {
      assert TopicTold(w, id);
    }
  }

  lemma DeliverKeepsReports(w: World, i: nat, c: Setup)
    requires i < |w.pending| && Reports(w, c)
    ensures Reports(Deliver(w, i, c), c)
  {
    hide OneEach, RootsTold, TopicsTold;
    SameNotes(w, Deliver(w, i, c), c);
  }

  lemma PreparedIsSigned(p: PipelineEvent, lookup: Answer<Option<int>>, built: Answer<(Data, Decimals)>, c: Setup)
    requires Started(c) && GoodEvent(p) && (lookup.Ok? && lookup.value.Some? ==> InRange(lookup.value.value))
    ensures var r := Prepare(p, lookup, built, c);
            r.Upserting? ==> Contains(r.body, PREFIX) && SignedFor(r.body, r.pipeline, r.at.1, c)
  {
    hide Contains, ParseSigned, SignedMarker, Body;
    var r := Prepare(p, lookup, built, c);
    if r.Upserting? {
      PreparedIsBotBody(p, lookup, built, c);
      var h := c.handler;
      if h.key != "" {
        var marker := SignedMarker(p.pipeline, r.at.1, h.key, h.mac);
        var data := built.value.0.(pipeline := p.pipeline, status := p.status, noteMarker := marker);
        ReportRoundTrip(data, built.value.1, p.pipeline, r.at.1, h.key, h.mac);
      }
    }
  }

  lemma TakeKeepsReports(w: World, lookup: Answer<Option<int>>, built: Answer<(Data, Decimals)>, c: Setup)
    requires Started(c) && Enabled(Taking(lookup, built), w) && Sound(w) && Reports(w, c)
    ensures Reports(Take(w, lookup, built, c), c)
  {
    hide OneEach, RootsTold, TopicsTold, Prepare, Contains, SignedFor, SoundNotes, BotBody;
    SameNotes(w, Take(w, lookup, built, c), c);
    assert SoundEvent(w.buffer[0], w);
    if w.buffer[0].PipelineWork? {
      PreparedIsSigned(w.buffer[0].p, lookup, built, c);
    }
  }

  lemma AuthorizeKeepsReports(w: World, fetched: bool, b: Backend, c: Setup)
    requires Started(c) && w.work.Handling? && Sound(w) && Reports(w, c)
    ensures Reports(Authorize(w, fetched, b, c), c)
  {
    hide OneEach, RootsTold, TopicsTold, Handle, Contains, ParseSigned, SoundNotes, BotBody;
    var v := Authorize(w, fetched, b, c);
    SameNotes(w, v, c);
    var n := w.work.n;
    var m := (n.project, n.mr);
    var root := RootFor(Of(w, m), n, fetched);
    if Handle(n, root, c.handler, b).Reply? {
      ReplyIsAboutRoot(n, root, c.handler, b);
      TopicOf(w, n.noteId);
      RootOf(w, m, n.discussion, c);
    }
  }

  lemma TopicOf(w: World, id: int)
    requires TopicsTold(w) && id in w.home
    ensures TopicTold(w, id)
  {
  }

  lemma RootOf(w: World, m: Mr, t: nat, c: Setup)
    requires RootsTold(w, c) && t < |Of(w, m)|
    ensures RootTold(w, m, t, Of(w, m)[t], c)
  {
  }

  // ---- steps that write notes -----------------------------------------------------------

  lemma AppendKeepsOne(ts: seq<Thread>, t: nat, note: Note)
    requires t <= |ts| && AtMostOneEditable(ts, PREFIX)
    requires t == |ts| ==> !Contains(note.body, PREFIX)
    requires t < |ts| ==> ts[t].notes != []
    ensures AtMostOneEditable(Append(ts, t, note), PREFIX)
  {
    hide Contains;
    var us := Append(ts, t, note);
    assert forall i | 0 <= i < |us| :: Editable(us[i], PREFIX) ==> i < |ts| && i != t && us[i] == ts[i];
  }

  /** A reply, or a root without the marker, is added to the threads of m. */
  lemma AppendKeepsRoots(w: World, v: World, m: Mr, t: nat, note: Note, c: Setup)
    requires RootsTold(w, c) && OneEach(w) && t <= |Of(w, m)|
    requires t == |Of(w, m)| ==> !Contains(note.body, PREFIX)
    requires v.mrs == w.mrs[m := Append(Of(w, m), t, note)] && v.writers == w.writers
    ensures RootsTold(v, c) && OneEach(v)
  {
    hide Contains, AtMostOneEditable, ParseSigned;
    if t < |Of(w, m)| {
      RootOf(w, m, t, c);
    }
    forall k | k in v.mrs
      ensures AtMostOneEditable(v.mrs[k], PREFIX)
    {
      if k == m {
        OneOf(w, m);
        AppendKeepsOne(Of(w, m), t, note);
      }
    }
    forall k, i | k in v.mrs && 0 <= i < |v.mrs[k]|
      ensures RootTold(v, k, i, v.mrs[k][i], c)
    {
      if i < |Of(w, k)| {
        RootOf(w, k, i, c);
      }
    }
  }

  lemma OneOf(w: World, m: Mr)
    requires OneEach(w)
    ensures AtMostOneEditable(Of(w, m), PREFIX)
  {
  }

  /** Adding to a thread leaves what people's notes are about. */
  lemma AppendKeepsTopic(w: World, v: World, m: Mr, t: nat, note: Note, id: int)
    requires id in w.home && TopicTold(w, id) && t <= |Of(w, m)|
    requires t < |Of(w, m)| ==> Of(w, m)[t].notes != []
    requires v.mrs == w.mrs[m := Append(Of(w, m), t, note)] && v.writers == w.writers
    requires id in v.home && v.home[id] == w.home[id] && id in v.topics && v.topics[id] == w.topics[id]
    ensures TopicTold(v, id)
  {
    hide Contains;
  }

  lemma SendReplyKeepsReports(w: World, fate: Fate, id: int, echoes: nat, c: Setup)
    requires w.work.Replying? && Reports(w, c)
    ensures Reports(SendReply(w, fate, id, echoes, c), c)
  {
    hide OneEach, RootsTold, TopicsTold, Contains, SignedFor, Copies, HookFor, Append;
    var v := SendReply(w, fate, id, echoes, c);
    var n := w.work.n;
    var m := (n.project, n.mr);
    if fate.Refused? || n.discussion >= |Of(w, m)| {
      SameNotes(w, v, c);
    } else {
      var note := Note(id, c.handler.bot, false, w.work.body);
      RootOf(w, m, n.discussion, c);
      AppendKeepsRoots(w, v, m, n.discussion, note, c);
      AppendKeepsTopics(w, v, m, n.discussion, note);
    }
  }

  lemma AppendKeepsTopics(w: World, v: World, m: Mr, t: nat, note: Note)
    requires TopicsTold(w) && t <= |Of(w, m)| && (t < |Of(w, m)| ==> Of(w, m)[t].notes != [])
    requires v.mrs == w.mrs[m := Append(Of(w, m), t, note)] && v.writers == w.writers
    requires v.home == w.home && v.topics == w.topics
    ensures TopicsTold(v)
  {
    hide TopicTold, Append;
    forall k | k in v.home
      ensures TopicTold(v, k)
    {
      TopicOf(w, k);
      AppendKeepsTopic(w, v, m, t, note, k);
    }
  }

  lemma PostKeepsReports(w: World, m: Mr, t: nat, note: Note, copies: nat, c: Setup)
    requires Enabled(Posting(m, t, note, copies), w) && Sound(w) && Reports(w, c)
    ensures Reports(Post(w, m, t, note, copies), c)
  {
    hide OneEach, RootsTold, TopicsTold, Contains, SignedFor, Copies, HookFor;
    hide SoundNotes, BotBody, SoundHook, SoundEvent, SoundWork;
    var v := Post(w, m, t, note, copies);
    assert note.id !in w.home;
    if t < |Of(w, m)| {
      RootOf(w, m, t, c);
    }
    AppendKeepsRoots(w, v, m, t, note, c);
    PostKeepsTopics(w, m, t, note, copies);
    assert forall call | CallTold(w, call) :: CallTold(v, call);
  }

  lemma PostKeepsTopics(w: World, m: Mr, t: nat, note: Note, copies: nat)
    requires Enabled(Posting(m, t, note, copies), w) && note.id !in w.home && TopicsTold(w)
    requires t < |Of(w, m)| ==> Of(w, m)[t].notes != []
    ensures TopicsTold(Post(w, m, t, note, copies))
  {
    hide Contains, Copies, HookFor;
    var v := Post(w, m, t, note, copies);
    forall k | k in v.home
      ensures TopicTold(v, k)
    {
      if k != note.id {
        TopicOf(w, k);
        AppendKeepsTopic(w, v, m, t, note, k);
      }
    }
  }

  /** The thread at place k of m gets a marked root; it had no reply, so nobody's note is in it. */
  lemma RewriteKeepsTopic(w: World, v: World, m: Mr, k: nat, us: seq<Thread>, pipeline: int, id: int)
    requires id in w.home && TopicTold(w, id) && |Of(w, m)| <= |us|
    requires forall i | 0 <= i < |Of(w, m)| && i != k :: us[i] == Of(w, m)[i]
    requires k < |Of(w, m)| ==> |Of(w, m)[k].notes| == 1 && Marked(Of(w, m)[k])
    requires v.mrs == w.mrs[m := us] && v.writers == w.writers[(m, k) := pipeline]
    requires v.home == w.home && v.topics == w.topics
    ensures TopicTold(v, id)
  {
    hide Contains;
    var (m', t) := w.home[id];
    assert (m', t) != (m, k);
    assert v.mrs[m'][t] == w.mrs[m'][t];
  }

  lemma SendUpsertKeepsReports(w: World, listed: bool, fate: Fate, id: int, echoes: nat, c: Setup)
    requires w.work.Upserting? && Reports(w, c)
    ensures Reports(SendUpsert(w, listed, fate, id, echoes, c), c)
  {
    hide Contains, SignedFor, Copies, HookFor, AtMostOneEditable, Upserted, TopicTold;
    var v := SendUpsert(w, listed, fate, id, echoes, c);
    if !listed || fate.Refused? {
      SameNotes(w, v, c);
    } else {
      var Upserting(m, pipeline, body) := w.work;
      var ts := Of(w, m);
      var created := Thread([Note(id, c.handler.bot, false, body)]);
      OneOf(w, m);
      UpsertedThreads(ts, body, created, fate);
      forall k, i | k in v.mrs && 0 <= i < |v.mrs[k]|
        ensures RootTold(v, k, i, v.mrs[k][i], c)
      {
        if i < |Of(w, k)| {
          RootOf(w, k, i, c);
        }
      }
      forall k | k in v.home
        ensures TopicTold(v, k)
      {
        TopicOf(w, k);
        RewriteKeepsTopic(w, v, m, FirstEditable(ts, PREFIX), v.mrs[m], pipeline, k);
      }
    }
  }

  /** The upsert in terms of its place. */
  lemma UpsertedThreads(ts: seq<Thread>, body: string, created: Thread, fate: Fate)
    requires AtMostOneEditable(ts, PREFIX) && !fate.Refused? && Contains(body, PREFIX)
    requires |created.notes| == 1 && !created.notes[0].system && created.notes[0].body == body
    ensures var k := FirstEditable(ts, PREFIX);
            var us := Upserted(ts, PREFIX, body, created, fate);
            && AtMostOneEditable(us, PREFIX)
            && |ts| <= |us| && k < |us| && (k == |ts| ==> |us| == |ts| + 1) && (k < |ts| ==> |us| == |ts|)
            && |us[k].notes| == 1 && us[k].notes[0].body == body
            && (forall i | 0 <= i < |ts| && i != k :: us[i] == ts[i])
            && (k < |ts| ==> |ts[k].notes| == 1 && Marked(ts[k]))
  {
    hide Contains;
    var k := UpsertShowsBody(ts, PREFIX, body, created, fate);
  }

  lemma StepKeepsReports(s: Step, w: World, c: Setup)
    requires Started(c) && Enabled(s, w) && Sound(w) && Reports(w, c)
    ensures Reports(Next(s, w, c), c)
  {
    hide Sound, Deliver, Take, Authorize, SendReply, SendUpsert, Post, HookFor;
    hide OneEach, RootsTold, TopicsTold, Contains;
    match s
    case Delivering(i) => DeliverKeepsReports(w, i, c);
    case Taking(lookup, built) => TakeKeepsReports(w, lookup, built, c);
    case Authorizing(fetched, b) => AuthorizeKeepsReports(w, fetched, b, c);
    case SendingReply(fate, id, echoes) => SendReplyKeepsReports(w, fate, id, echoes, c);
    case SendingUpsert(listed, fate, id, echoes) => SendUpsertKeepsReports(w, listed, fate, id, echoes, c);
    case Posting(m, t, note, copies) => PostKeepsReports(w, m, t, note, copies, c);
    case Redelivering(m, t, j) => SameNotes(w, Next(s, w, c), c);
    case Finishing(p) => SameNotes(w, Next(s, w, c), c);
  }

  // ---- a discussed root stays -------------------------------------------------------------

  predicate Discussed(w: World, m: Mr, t: nat) { t < |Of(w, m)| && |Of(w, m)[t].notes| >= 2 }

  lemma StepKeepsDiscussedRoot(s: Step, w: World, c: Setup, m: Mr, t: nat)
    requires Enabled(s, w) && Discussed(w, m, t)
    ensures Discussed(Next(s, w, c), m, t)
    ensures Of(Next(s, w, c), m)[t].notes[0] == Of(w, m)[t].notes[0]
  {
    hide Contains, HookFor, Copies, Handle, Prepare, Admit;
  }

  // ---- every run ------------------------------------------------------------------------

  /** What holds in every reachable world. */
  ghost predicate Inv(w: World, c: Setup) { OnceOnly(w) && Sound(w) && Reports(w, c) }

  lemma {:induction false} RunKeepsInv(steps: seq<Step>, w: World, c: Setup)
    requires Started(c) && CanRun(steps, w, c) && Inv(w, c)
    ensures Inv(Run(steps, w, c), c)
  {
    hide OnceOnly, Sound, Reports, Enabled, Next;
    if steps != [] {
      StepKeepsOnceOnly(steps[0], w, c);
      StepKeepsSound(steps[0], w, c);
      StepKeepsReports(steps[0], w, c);
      RunKeepsInv(steps[1..], Next(steps[0], w, c), c);
    }
  }

  ghost predicate Reachable(w: World, c: Setup) {
    exists steps :: CanRun(steps, INIT, c) && Run(steps, INIT, c) == w
  }

  lemma ReachableInv(w: World, c: Setup)
    requires Started(c) && Reachable(w, c)
    ensures Inv(w, c)
  {
    hide CanRun, Run;
    var steps :| CanRun(steps, INIT, c) && Run(steps, INIT, c) == w;
    RunKeepsInv(steps, INIT, c);
  }

  lemma {:induction false} DistinctFit(s: seq<int>, t: set<int>)
    requires forall i, j | 0 <= i < j < |s| :: s[i] != s[j]
    requires forall i | 0 <= i < |s| :: s[i] in t
    ensures |s| <= |t|
  {
    if s != [] {
      var last := s[|s| - 1];
      DistinctFit(s[..|s| - 1], t - {last});
    }
  }

  /** Whatever is delivered twice, reordered, dropped or fails: a note is handled at most once and
      answered by at most one call, only notes that people posted are, and so there are never more
      calls than such notes. */
  lemma AtMostOneReply(w: World, c: Setup)
    requires Started(c) && Reachable(w, c)
    ensures forall i, j | 0 <= i < j < |w.handled| :: w.handled[i] != w.handled[j]
    ensures forall i, j | 0 <= i < j < |w.calls| :: w.calls[i].note != w.calls[j].note
    ensures forall i | 0 <= i < |w.calls| :: w.calls[i].note in w.home
    ensures |w.calls| <= |w.home.Keys|
  {
    ReachableInv(w, c);
    var notes := seq(|w.calls|, i requires 0 <= i < |w.calls| => w.calls[i].note);
    DistinctFit(notes, w.home.Keys);
  }

  /** No merge request ever has two report notes that the next report could edit. */
  lemma OneEditableReport(w: World, c: Setup, m: Mr)
    requires Started(c) && Reachable(w, c)
    ensures AtMostOneEditable(Of(w, m), PREFIX)
  {
    hide Reachable;
    ReachableInv(w, c);
    OneOf(w, m);
  }

  /** A marked root reads as the pipeline whose report was written there last, and as its own
      merge request. */
  lemma RootTellsItsPipeline(w: World, c: Setup, m: Mr, t: nat)
    requires Started(c) && c.handler.key != "" && Reachable(w, c)
    requires t < |Of(w, m)| && Marked(Of(w, m)[t])
    ensures (m, t) in w.writers
    ensures ParseSigned(Of(w, m)[t].notes[0].body, c.handler.key, c.handler.mac) == Some((w.writers[(m, t)], m.1))
  {
    hide Reachable, ParseSigned, Contains;
    ReachableInv(w, c);
    RootOf(w, m, t, c);
  }

  /** Every reply concerns the pipeline whose report headed the thread when its command was posted. */
  lemma ReplyConcernsReport(w: World, c: Setup, i: nat)
    requires Started(c) && Reachable(w, c) && i < |w.calls|
    ensures w.calls[i].note in w.topics && w.calls[i].pipeline == w.topics[w.calls[i].note]
  {
    hide Reachable;
    ReachableInv(w, c);
    assert CallTold(w, w.calls[i]);
  }

  /** Once a thread has a reply, its root is the same for ever. */
  lemma {:induction false} DiscussedRootStays(steps: seq<Step>, w: World, c: Setup, m: Mr, t: nat)
    requires CanRun(steps, w, c) && Discussed(w, m, t)
    ensures Discussed(Run(steps, w, c), m, t)
    ensures Of(Run(steps, w, c), m)[t].notes[0] == Of(w, m)[t].notes[0]
  {
    hide Enabled, Next;
    if steps != [] {
      StepKeepsDiscussedRoot(steps[0], w, c, m, t);
      DiscussedRootStays(steps[1..], Next(steps[0], w, c), c, m, t);
    }
  }
}
