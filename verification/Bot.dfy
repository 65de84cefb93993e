/** The bot and GitLab as one closed loop: webhook filter, bounded queue, one worker, the notes
    it writes, and the hooks that GitLab sends for those notes too.
    (internal/webhook/handler.go, cmd/bot/serve.go, internal/reporter/reporter.go) */
module Bot {
  import opened Text
  import opened Command
  import opened Marker
  import opened Report
  import opened Figures
  import opened Threads
  import opened Handler

  /** A merge request: project and number in the project. */
  type Mr = (int, int)

  /** mr is 0 when the hook carries no merge request. */
  datatype PipelineEvent = PipelineEvent(project: int, pipeline: int, mr: int, ref: string, status: string)

  datatype Event = PipelineWork(p: PipelineEvent) | NoteWork(n: NoteEvent)

  /** An authenticated delivery. onMr: the note hangs on a merge request. */
  datatype Hook = PipelineHook(p: PipelineEvent) | NoteHook(onMr: bool, n: NoteEvent)

  datatype Setup = Setup(handler: Config, capacity: nat, commands: bool)

  /** What the server checks when it starts. */
  ghost predicate Started(c: Setup) { HexMac(c.handler.mac) && (c.commands ==> c.handler.key != "") }

  /** The one thing the worker is doing. */
  datatype Work =
    | Idle
    | Handling(n: NoteEvent)
    | Replying(n: NoteEvent, pipeline: int, body: string)
    | Upserting(at: Mr, pipeline: int, body: string)

  /** A CreateDiscussionReply call, however it ended. */
  datatype Call = Call(note: int, pipeline: int)

  /** pending: the deliveries GitLab will still make. The fields after mrs are history: who last
      wrote a report root, which notes people posted, where, and which report headed the thread
      then, which notes were handled, the reply calls, which pipelines ended, and which merge requests
      their branches were answered to have. */
  datatype World = World(
    pending: seq<Hook>, buffer: seq<Event>, seen: set<int>, work: Work, mrs: map<Mr, seq<Thread>>,
    ids: set<int>, writers: map<(Mr, nat), int>, home: map<int, (Mr, nat)>, topics: map<int, int>,
    handled: seq<int>, calls: seq<Call>, finished: set<PipelineEvent>, lookups: set<(PipelineEvent, int)>)

  const NOBODY := -1

  const INIT := World([], [], {}, Idle, map[], {}, map[], map[], map[], [], [], {}, {})

  function Of(w: World, m: Mr): seq<Thread> { if m in w.mrs then w.mrs[m] else [] }

  predicate Marked(t: Thread) { t.notes != [] && Contains(t.notes[0].body, PREFIX) }

  function Writer(w: World, m: Mr, t: nat): int { if (m, t) in w.writers then w.writers[(m, t)] else NOBODY }

  function HookFor(m: Mr, t: nat, n: Note): Hook { NoteHook(true, NoteEvent(m.0, m.1, n.id, t, n.body)) }

  function Copies(h: Hook, k: nat): seq<Hook> { seq(k, _ => h) }

  // ---- the steps ------------------------------------------------------------------------

  /** The webhook filter: what is enqueued, if anything. */
  function Admit(h: Hook, c: Setup): Option<Event> {
    match h
    case PipelineHook(p) => if p.status in {"success", "failed"} then Some(PipelineWork(p)) else None
    case NoteHook(onMr, n) => if c.commands && onMr && Parse(n.body).Some? then Some(NoteWork(n)) else None
  }

  /** GitLab delivers one of the pending hooks; a full queue drops the event. */
  function Deliver(w: World, i: nat, c: Setup): World
    requires i < |w.pending|
  {
    var admitted := Admit(w.pending[i], c);
    w.(pending := w.pending[..i] + w.pending[i + 1..],
       buffer := if admitted.Some? && |w.buffer| < c.capacity then w.buffer + [admitted.value] else w.buffer)
  }

  /** ProcessPipeline up to the upsert: which note is to be written where, if any. */
  function Prepare(p: PipelineEvent, lookup: Answer<Option<int>>, built: Answer<(Data, Decimals)>, c: Setup): (r: Work)
    ensures r.Idle? || r.Upserting?
  {
    if p.mr == 0 && (lookup.Err? || lookup.value.None?) then Idle
    else if built.Err? then Idle
    else
      var mr := if p.mr == 0 then lookup.value.value else p.mr;
      var key := c.handler.key;
      var marker := if key != "" then SignedMarker(p.pipeline, mr, key, c.handler.mac) else "";
      var data := built.value.0.(pipeline := p.pipeline, status := p.status, noteMarker := marker);
      Upserting((p.project, mr), p.pipeline, Body(data, built.value.1))
  }

  /** The worker receives an event; a note that was seen before is dropped. */
  function Take(w: World, lookup: Answer<Option<int>>, built: Answer<(Data, Decimals)>, c: Setup): World
    requires w.buffer != []
  {
    var rest := w.(buffer := w.buffer[1..]);
    match w.buffer[0]
    case PipelineWork(p) =>
      var found := if p.mr == 0 && lookup.Ok? && lookup.value.Some? then {(p, lookup.value.value)} else {};
      rest.(work := Prepare(p, lookup, built, c), lookups := w.lookups + found)
    case NoteWork(n) =>
      if n.noteId in w.seen then rest
      else rest.(seen := w.seen + {n.noteId}, handled := w.handled + [n.noteId], work := Handling(n))
  }

  /** The root of the discussion that a note event names, when it can be fetched. */
  function RootFor(ts: seq<Thread>, n: NoteEvent, fetched: bool): Answer<Note> {
    if fetched && n.discussion < |ts| && ts[n.discussion].notes != [] then Ok(ts[n.discussion].notes[0]) else Err
  }

  /** Handle up to the reply; fetched tells whether the discussion could be read. */
  function Authorize(w: World, fetched: bool, b: Backend, c: Setup): World
    requires w.work.Handling?
  {
    var n := w.work.n;
    var root := RootFor(Of(w, (n.project, n.mr)), n, fetched);
    match Handle(n, root, c.handler, b)
    case Reply(pipeline, body) => w.(work := Replying(n, pipeline, body))
    case _ => w.(work := Idle)
  }

  /** The reply call; GitLab echoes a note that is created as often as it likes. */
  function SendReply(w: World, fate: Fate, id: int, echoes: nat, c: Setup): World
    requires w.work.Replying?
  {
    var n := w.work.n;
    var m := (n.project, n.mr);
    var called := w.(calls := w.calls + [Call(n.noteId, w.work.pipeline)], work := Idle);
    if fate.Refused? || n.discussion >= |Of(w, m)| then called else
    var note := Note(id, c.handler.bot, false, w.work.body);
    called.(mrs := w.mrs[m := Append(Of(w, m), n.discussion, note)],
            ids := w.ids + {id},
            pending := w.pending + Copies(HookFor(m, n.discussion, note), echoes))
  }

  function Append(ts: seq<Thread>, t: nat, note: Note): seq<Thread>
    requires t <= |ts|
  {
    if t == |ts| then ts + [Thread([note])] else ts[t := Thread(ts[t].notes + [note])]
  }

  /** The upsert; listed tells whether the discussions could be listed. */
  function SendUpsert(w: World, listed: bool, fate: Fate, id: int, echoes: nat, c: Setup): World
    requires w.work.Upserting?
  {
    if !listed || fate.Refused? then w.(work := Idle) else
    var Upserting(m, pipeline, body) := w.work;
    var ts := Of(w, m);
    var k := FirstEditable(ts, PREFIX);
    var created := Note(id, c.handler.bot, false, body);
    var note := if k < |ts| then ts[k].notes[0].(body := body) else created;
    w.(work := Idle,
       mrs := w.mrs[m := Upserted(ts, PREFIX, body, Thread([created]), fate)],
       ids := w.ids + {id},
       writers := w.writers[(m, k) := pipeline],
       pending := w.pending + Copies(HookFor(m, k, note), echoes))
  }

  /** Somebody opens a thread (t is the number of threads) or replies in one; GitLab sends hooks. */
  function Post(w: World, m: Mr, t: nat, note: Note, copies: nat): World
    requires t <= |Of(w, m)|
  {
    var ts := Of(w, m);
    var topic := if t < |ts| && Marked(ts[t]) then Writer(w, m, t) else NOBODY;
    w.(mrs := w.mrs[m := Append(ts, t, note)],
       ids := w.ids + {note.id},
       home := w.home[note.id := (m, t)],
       topics := w.topics[note.id := topic],
       pending := w.pending + Copies(HookFor(m, t, note), copies))
  }

  datatype Step =
    | Delivering(i: nat)
    | Taking(lookup: Answer<Option<int>>, built: Answer<(Data, Decimals)>)
    | Authorizing(fetched: bool, b: Backend)
    | SendingReply(fate: Fate, id: int, echoes: nat)
    | SendingUpsert(listed: bool, fate: Fate, id: int, echoes: nat)
    // GitLab and its users
    | Posting(m: Mr, t: nat, note: Note, copies: nat)
    | Redelivering(m: Mr, t: nat, j: nat)
    | Finishing(p: PipelineEvent)

  predicate InRange(id: int) { 0 <= id <= MAX_INT64 }

  predicate GoodEvent(p: PipelineEvent) { InRange(p.pipeline) && InRange(p.mr) }

  /** People post no root that bears the marker; note numbers are new; numbers are int64s. */
  predicate Enabled(s: Step, w: World) {
    match s
    case Delivering(i) => i < |w.pending|
    case Taking(lookup, _) =>
      w.work.Idle? && w.buffer != [] && (lookup.Ok? && lookup.value.Some? ==> InRange(lookup.value.value))
    case Authorizing(_, _) => w.work.Handling?
    case SendingReply(_, id, _) => w.work.Replying? && id !in w.ids
    case SendingUpsert(_, _, id, _) => w.work.Upserting? && id !in w.ids
    case Posting(m, t, note, _) =>
      t <= |Of(w, m)| && note.id !in w.ids && (t == |Of(w, m)| ==> !Contains(note.body, PREFIX))
    case Redelivering(m, t, j) => t < |Of(w, m)| && j < |Of(w, m)[t].notes|
    case Finishing(p) => GoodEvent(p)
  }

  function Next(s: Step, w: World, c: Setup): World
    requires Enabled(s, w)
  {
    match s
    case Delivering(i) => Deliver(w, i, c)
    case Taking(lookup, built) => Take(w, lookup, built, c)
    case Authorizing(fetched, b) => Authorize(w, fetched, b, c)
    case SendingReply(fate, id, echoes) => SendReply(w, fate, id, echoes, c)
    case SendingUpsert(listed, fate, id, echoes) => SendUpsert(w, listed, fate, id, echoes, c)
    case Posting(m, t, note, copies) => Post(w, m, t, note, copies)
    case Redelivering(m, t, j) => w.(pending := w.pending + [HookFor(m, t, Of(w, m)[t].notes[j])])
    case Finishing(p) => w.(pending := w.pending + [PipelineHook(p)], finished := w.finished + {p})
  }

  predicate CanRun(steps: seq<Step>, w: World, c: Setup) {
    steps == [] || (Enabled(steps[0], w) && CanRun(steps[1..], Next(steps[0], w, c), c))
  }

  function Run(steps: seq<Step>, w: World, c: Setup): World
    requires CanRun(steps, w, c)
  {
    if steps == [] then w else Run(steps[1..], Next(steps[0], w, c), c)
  }

  // ---- notes are handled and answered at most once ------------------------------------------

  ghost predicate OnceOnly(w: World) {
    && (forall i, j | 0 <= i < j < |w.handled| :: w.handled[i] != w.handled[j])
    && (forall k :: k in w.handled <==> k in w.seen)
    && (forall i, j | 0 <= i < j < |w.calls| :: w.calls[i].note != w.calls[j].note)
    && (forall i | 0 <= i < |w.calls| :: w.calls[i].note in w.seen)
    && (w.work.Handling? || w.work.Replying? ==>
          w.work.n.noteId in w.seen && forall i | 0 <= i < |w.calls| :: w.calls[i].note != w.work.n.noteId)
  }

  lemma TakeKeepsOnceOnly(w: World, lookup: Answer<Option<int>>, built: Answer<(Data, Decimals)>, c: Setup)
    requires w.buffer != [] && w.work.Idle? && OnceOnly(w)
    ensures OnceOnly(Take(w, lookup, built, c))
  {
    hide Take;
    TakeIs(w, lookup, built, c);
  }

  /** Taking an event handles a note that was not seen before, or none. */
  lemma TakeIs(w: World, lookup: Answer<Option<int>>, built: Answer<(Data, Decimals)>, c: Setup)
    requires w.buffer != [] && w.work.Idle?
    ensures var v := Take(w, lookup, built, c);
            && v.calls == w.calls
            && if v.work.Handling? then
                 var id := v.work.n.noteId;
                 id !in w.seen && v.seen == w.seen + {id} && v.handled == w.handled + [id]
               else !v.work.Replying? && v.seen == w.seen && v.handled == w.handled
  {
    hide Prepare;
  }

  lemma SendReplyKeepsOnceOnly(w: World, fate: Fate, id: int, echoes: nat, c: Setup)
    requires w.work.Replying? && OnceOnly(w)
    ensures OnceOnly(SendReply(w, fate, id, echoes, c))
  {
    hide Append, Copies, HookFor, Of;
  }

  /** The other steps leave that history alone and take up no note. */
  lemma OtherStepsAre(s: Step, w: World, c: Setup)
    requires Enabled(s, w) && !s.Taking? && !s.SendingReply?
    ensures var v := Next(s, w, c);
            && v.handled == w.handled && v.seen == w.seen && v.calls == w.calls
            && (v.work.Handling? || v.work.Replying? ==>
                  (w.work.Handling? || w.work.Replying?) && v.work.n == w.work.n)
  {
    hide Admit, Handle, Prepare, Upserted, FirstEditable, Append, Copies, HookFor, Contains;
  }

  lemma StepKeepsOnceOnly(s: Step, w: World, c: Setup)
    requires Enabled(s, w) && OnceOnly(w)
    ensures OnceOnly(Next(s, w, c))
  {
    hide Take, SendReply, Deliver, Authorize, SendUpsert, Post, Contains, HookFor;
    match s
    case Taking(lookup, built) => TakeKeepsOnceOnly(w, lookup, built, c);
    case SendingReply(fate, id, echoes) => SendReplyKeepsOnceOnly(w, fate, id, echoes, c);
    case _ => OtherStepsAre(s, w, c);
  }

  // ---- only people's notes are commands -------------------------------------------------------

  /** The event is about a note that somebody posted there. */
  predicate Live(n: NoteEvent, w: World) {
    n.noteId in w.home && w.home[n.noteId] == ((n.project, n.mr), n.discussion)
  }

  predicate SoundNote(m: Mr, t: nat, n: Note, w: World) {
    BotBody(n.body) || (n.id in w.home && w.home[n.id] == (m, t))
  }

  predicate SoundHook(h: Hook, w: World) {
    match h
    case PipelineHook(p) => GoodEvent(p)
    case NoteHook(_, n) => BotBody(n.body) || Live(n, w)
  }

  predicate SoundEvent(e: Event, w: World) {
    match e
    case PipelineWork(p) => GoodEvent(p)
    case NoteWork(n) => Live(n, w)
  }

  predicate SoundWork(w: World) {
    match w.work
    case Idle => true
    case Handling(n) => Live(n, w)
    case Replying(n, _, body) => Live(n, w) && BotBody(body)
    case Upserting(_, _, body) => BotBody(body)
  }

  ghost predicate SoundNotes(w: World) {
    forall m, t, j | m in w.mrs && 0 <= t < |w.mrs[m]| && 0 <= j < |w.mrs[m][t].notes| ::
      SoundNote(m, t, w.mrs[m][t].notes[j], w)
  }

  ghost predicate Sound(w: World) {
    && (forall i | 0 <= i < |w.pending| :: SoundHook(w.pending[i], w))
    && (forall i | 0 <= i < |w.buffer| :: SoundEvent(w.buffer[i], w))
    && SoundWork(w)
    && SoundNotes(w)
    && w.home.Keys <= w.ids
    && (forall i | 0 <= i < |w.calls| :: w.calls[i].note in w.home)
  }

  lemma SoundStays(w: World, v: World)
    requires forall id | id in w.home :: id in v.home && v.home[id] == w.home[id]
    ensures forall h | SoundHook(h, w) :: SoundHook(h, v)
    ensures forall e | SoundEvent(e, w) :: SoundEvent(e, v)
    ensures forall m, t, n | SoundNote(m, t, n, w) :: SoundNote(m, t, n, v)
    ensures forall n | Live(n, w) :: Live(n, v)
  {
  }

  lemma DeliverKeepsSound(w: World, i: nat, c: Setup)
    requires i < |w.pending| && Sound(w)
    ensures Sound(Deliver(w, i, c))
  {
    hide BotBody, Parse;
    var v := Deliver(w, i, c);
    SoundStays(w, v);
    assert SoundHook(w.pending[i], w);
    AdmittedIsSound(w.pending[i], w, c);
    assert forall k | 0 <= k < |v.pending| :: v.pending[k] == if k < i then w.pending[k] else w.pending[k + 1];
  }

  /** What passes the webhook filter is somebody's note. */
  lemma AdmittedIsSound(h: Hook, w: World, c: Setup)
    requires SoundHook(h, w)
    ensures Admit(h, c).Some? ==> SoundEvent(Admit(h, c).value, w)
  {
  }

  lemma TakeKeepsSound(w: World, lookup: Answer<Option<int>>, built: Answer<(Data, Decimals)>, c: Setup)
    requires w.buffer != [] && Sound(w) && Enabled(Taking(lookup, built), w)
    ensures Sound(Take(w, lookup, built, c))
  {
    hide BotBody, Prepare;
    var v := Take(w, lookup, built, c);
    SoundStays(w, v);
    assert SoundEvent(w.buffer[0], w);
    if w.buffer[0].PipelineWork? {
      PreparedIsBotBody(w.buffer[0].p, lookup, built, c);
    }
  }

  lemma PreparedIsBotBody(p: PipelineEvent, lookup: Answer<Option<int>>, built: Answer<(Data, Decimals)>, c: Setup)
    ensures var r := Prepare(p, lookup, built, c); r.Upserting? ==> BotBody(r.body)
  {
    hide BotBody, Body, SignedMarker;
    var r := Prepare(p, lookup, built, c);
    if r.Upserting? {
      var marker := if c.handler.key != "" then SignedMarker(p.pipeline, r.at.1, c.handler.key, c.handler.mac) else "";
      MarkerNotEmpty(p.pipeline, r.at.1, c.handler.key, c.handler.mac);
      var data := built.value.0.(pipeline := p.pipeline, status := p.status, noteMarker := marker);
      ReportIsBotBody(data, built.value.1);
    }
  }

  lemma AuthorizeKeepsSound(w: World, fetched: bool, b: Backend, c: Setup)
    requires w.work.Handling? && Sound(w)
    ensures Sound(Authorize(w, fetched, b, c))
  {
    hide BotBody, Handle;
    var v := Authorize(w, fetched, b, c);
    SoundStays(w, v);
    var n := w.work.n;
    var root := RootFor(Of(w, (n.project, n.mr)), n, fetched);
    if Handle(n, root, c.handler, b).Reply? {
      ReplyIsBotBody(n, root, c.handler, b);
    }
  }

  lemma SendReplyKeepsSound(w: World, fate: Fate, id: int, echoes: nat, c: Setup)
    requires w.work.Replying? && id !in w.ids && Sound(w)
    ensures Sound(SendReply(w, fate, id, echoes, c))
  {
    hide BotBody;
    var v := SendReply(w, fate, id, echoes, c);
    SoundStays(w, v);
  }

  lemma SendUpsertKeepsSound(w: World, listed: bool, fate: Fate, id: int, echoes: nat, c: Setup)
    requires w.work.Upserting? && id !in w.ids && Sound(w)
    ensures Sound(SendUpsert(w, listed, fate, id, echoes, c))
  {
    hide BotBody, Contains;
    var v := SendUpsert(w, listed, fate, id, echoes, c);
    SoundStays(w, v);
  }

  lemma PostKeepsSound(w: World, m: Mr, t: nat, note: Note, copies: nat)
    requires t <= |Of(w, m)| && note.id !in w.ids && Sound(w)
    ensures Sound(Post(w, m, t, note, copies))
  {
    hide BotBody, Contains;
    var v := Post(w, m, t, note, copies);
    assert note.id !in w.home;
    SoundStays(w, v);
  }

  lemma RedeliverKeepsSound(w: World, m: Mr, t: nat, j: nat, c: Setup)
    requires Enabled(Redelivering(m, t, j), w) && Sound(w)
    ensures Sound(Next(Redelivering(m, t, j), w, c))
  {
    hide BotBody;
    SoundStays(w, Next(Redelivering(m, t, j), w, c));
    assert SoundNote(m, t, Of(w, m)[t].notes[j], w);
  }

  lemma FinishKeepsSound(w: World, p: PipelineEvent, c: Setup)
    requires GoodEvent(p) && Sound(w)
    ensures Sound(Next(Finishing(p), w, c))
  {
    hide BotBody;
    SoundStays(w, Next(Finishing(p), w, c));
  }

  lemma StepKeepsSound(s: Step, w: World, c: Setup)
    requires Enabled(s, w) && Sound(w)
    ensures Sound(Next(s, w, c))
  {
    hide Sound, Deliver, Take, Authorize, SendReply, SendUpsert, Post, HookFor;
    match s
    case Delivering(i) => DeliverKeepsSound(w, i, c);
    case Taking(lookup, built) => TakeKeepsSound(w, lookup, built, c);
    case Authorizing(fetched, b) => AuthorizeKeepsSound(w, fetched, b, c);
    case SendingReply(fate, id, echoes) => SendReplyKeepsSound(w, fate, id, echoes, c);
    case SendingUpsert(listed, fate, id, echoes) => SendUpsertKeepsSound(w, listed, fate, id, echoes, c);
    case Posting(m, t, note, copies) => PostKeepsSound(w, m, t, note, copies);
    case Redelivering(m, t, j) => RedeliverKeepsSound(w, m, t, j, c);
    case Finishing(p) => FinishKeepsSound(w, p, c);
  }
}
