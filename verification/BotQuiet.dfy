/** The loop falls quiet: the bot's notes come back as hooks, but never as work. */
module BotQuiet {
  import opened Text
  import opened Command
  import opened Marker
  import opened Report
  import opened Figures
  import opened Threads
  import opened Handler
  import opened Bot
  import Advice

  predicate IsBotStep(s: Step) {
    s.Delivering? || s.Taking? || s.Authorizing? || s.SendingReply? || s.SendingUpsert?
  }

  /** Pending deliveries that pass the webhook filter. */
  function LiveHooks(hs: seq<Hook>, c: Setup): nat {
    if hs == [] then 0 else LiveHooks(hs[..|hs| - 1], c) + if Admit(hs[|hs| - 1], c).Some? then 1 else 0
  }

  function Busy(work: Work): nat {
    match work
    case Idle => 0
    case Handling(_) => 2
    case Replying(_, _, _) => 1
    case Upserting(_, _, _) => 1
  }

  /** Work that is left, in the bot's steps: an admitted delivery takes one, and then its event three. */
  function Load(w: World, c: Setup): nat { 4 * LiveHooks(w.pending, c) + 3 * |w.buffer| + Busy(w.work) }

  lemma {:induction false} LiveHooksCat(a: seq<Hook>, b: seq<Hook>, c: Setup)
    ensures LiveHooks(a + b, c) == LiveHooks(a, c) + LiveHooks(b, c)
  {
    hide Admit;
    if b == [] {
      assert a + b == a;
    } else {
      assert (a + b)[..|a + b| - 1] == a + b[..|b| - 1];
      LiveHooksCat(a, b[..|b| - 1], c);
    }
  }

  lemma {:induction false} DeadCopies(h: Hook, k: nat, c: Setup)
    requires Admit(h, c).None?
    ensures LiveHooks(Copies(h, k), c) == 0
  {
    if k > 0 {
      assert Copies(h, k)[..k - 1] == Copies(h, k - 1);
      DeadCopies(h, k - 1, c);
    }
  }

  /** The hook for a note of the bot's does not pass the filter. */
  lemma EchoIsDead(m: Mr, t: nat, note: Note, k: nat, pending: seq<Hook>, c: Setup)
    requires BotBody(note.body)
    ensures LiveHooks(pending + Copies(HookFor(m, t, note), k), c) == LiveHooks(pending, c)
  {
    hide Parse, Contains;
    DeadCopies(HookFor(m, t, note), k, c);
    LiveHooksCat(pending, Copies(HookFor(m, t, note), k), c);
  }

  predicate Less(v: World, w: World, c: Setup) {
    Load(v, c) < Load(w, c) || (Load(v, c) == Load(w, c) && |v.pending| < |w.pending|)
  }

  lemma DeliverDescends(w: World, i: nat, c: Setup)
    requires i < |w.pending|
    ensures Less(Deliver(w, i, c), w, c)
  {
    hide Admit;
    var before, h, after := w.pending[..i], w.pending[i], w.pending[i + 1..];
    assert w.pending == before + ([h] + after);
    LiveHooksCat(before, [h] + after, c);
    LiveHooksCat([h], after, c);
    LiveHooksCat(before, after, c);
    assert [h][..0] == [];
    assert LiveHooks([h], c) == if Admit(h, c).Some? then 1 else 0;
  }

  lemma StepDescends(s: Step, w: World, c: Setup)
    requires Enabled(s, w) && IsBotStep(s) && Sound(w)
    ensures Less(Next(s, w, c), w, c)
  {
    hide Admit, Handle, Prepare, Contains, BotBody, HookFor, Copies, LiveHooks, Upserted, Append, SoundNotes, Deliver;
    match s
    case Delivering(i) => DeliverDescends(w, i, c);
    case Taking(_, _) =>
    case Authorizing(_, _) =>
    case SendingReply(fate, id, echoes) =>
      var n := w.work.n;
      EchoIsDead((n.project, n.mr), n.discussion, Note(id, c.handler.bot, false, w.work.body), echoes, w.pending, c);
    case SendingUpsert(_, _, id, echoes) =>
      var Upserting(m, _, body) := w.work;
      var ts := Of(w, m);
      var k := FirstEditable(ts, PREFIX);
      var note := if k < |ts| then ts[k].notes[0].(body := body) else Note(id, c.handler.bot, false, body);
      EchoIsDead(m, k, note, echoes, w.pending, c);
  }

  predicate Moves(s: Step, w: World) { IsBotStep(s) && Enabled(s, w) }

  /** Without new notes, new pipelines or redeliveries, every schedule comes to a step that cannot
      be taken, however often GitLab echoes each note of the bot's. */
  lemma {:induction false} EveryScheduleStops(run: nat -> World, step: nat -> Step, i: nat, c: Setup)
    requires Sound(run(i))
    requires forall k: nat | Moves(step(k), run(k)) :: run(k + 1) == Next(step(k), run(k), c)
    ensures exists k: nat :: StopsAt(run, step, i, k)
    decreases Load(run(i), c), |run(i).pending|
  {
    hide Sound, Enabled, Next, Load;
    if Moves(step(i), run(i)) {
      StepDescends(step(i), run(i), c);
      StepKeepsSound(step(i), run(i), c);
      EveryScheduleStops(run, step, i + 1, c);
      var k: nat :| StopsAt(run, step, i + 1, k);
      assert StopsAt(run, step, i, k);
    } else {
      assert StopsAt(run, step, i, i);
    }
  }

  /** From i on k is the first place where no step of the bot's is taken. */
  predicate StopsAt(run: nat -> World, step: nat -> Step, i: nat, k: nat) {
    i <= k && !Moves(step(k), run(k)) && forall l: nat | i <= l < k :: Moves(step(l), run(l))
  }

  lemma {:induction false} FreshId(ids: set<int>) returns (id: int)
    ensures forall k | k in ids :: k < id
  {
    if some :| some in ids {
      var rest := ids - {some};
      id := FreshId(rest);
      assert forall k | k in ids :: k == some || k in rest;
      id := if id <= some then some + 1 else id;
    } else {
      id := 0;
    }
  }

  predicate Quiet(w: World) { w.pending == [] && w.buffer == [] && w.work.Idle? }

  /** No step of the bot is left exactly when nothing is pending, queued or being done. */
  lemma StuckIsQuiet(w: World)
    ensures Quiet(w) <==> forall s: Step :: !(IsBotStep(s) && Enabled(s, w))
  {
    var id := FreshId(w.ids);
    var b := Backend((_, _) => Err, (_, _) => Err, _ => Err, (_, _, _) => Err, false, (_, _, _) => Advice.ListFailed);
    var s :=
      match w.work
      case Handling(_) => Authorizing(false, b)
      case Replying(_, _, _) => SendingReply(Refused, id, 0)
      case Upserting(_, _, _) => SendingUpsert(false, Refused, id, 0)
      case Idle => if w.buffer != [] then Taking(Err, Err) else Delivering(0);
    if !Quiet(w) {
      assert IsBotStep(s) && Enabled(s, w);
    }
  }

  /** With nobody posting, ending pipelines or redelivering, a schedule that takes a step of the
      bot's whenever there is one falls quiet, from any world that any run has led to. */
  lemma FallsQuiet(run: nat -> World, step: nat -> Step, i: nat, c: Setup)
    requires Sound(run(i))
    requires forall k: nat | Moves(step(k), run(k)) :: run(k + 1) == Next(step(k), run(k), c)
    requires forall k: nat | (exists s :: Moves(s, run(k))) :: Moves(step(k), run(k))
    ensures exists k: nat :: StopsAt(run, step, i, k) && Quiet(run(k))
  {
    hide Sound, Enabled, Next;
    EveryScheduleStops(run, step, i, c);
    var k: nat :| StopsAt(run, step, i, k);
    assert forall s :: Moves(s, run(k)) <==> IsBotStep(s) && Enabled(s, run(k));
    StuckIsQuiet(run(k));
  }

  // ---- no command that was accepted is lost ----------------------------------------------------

  predicate IsNote(e: Event, id: int) { e.NoteWork? && e.n.noteId == id }

  /** The note is queued, or was taken up already. */
  predicate Accepted(w: World, id: int) {
    id in w.seen || exists i | 0 <= i < |w.buffer| :: IsNote(w.buffer[i], id)
  }

  lemma StepKeepsAccepted(s: Step, w: World, c: Setup, id: int)
    requires Enabled(s, w) && Accepted(w, id)
    ensures Accepted(Next(s, w, c), id)
  {
    hide Admit, Handle, Prepare, Upserted, FirstEditable, Append, Copies, HookFor, Contains, IsNote;
    var v := Next(s, w, c);
    if i :| 0 <= i < |w.buffer| && IsNote(w.buffer[i], id) {
      if s.Taking? {
        FirstIsSeen(w, s.lookup, s.built, c, id);
        assert i > 0 ==> v.buffer[i - 1] == w.buffer[i];
      } else {
        assert v.buffer[i] == w.buffer[i];
      }
    }
  }

  lemma FirstIsSeen(w: World, lookup: Answer<Option<int>>, built: Answer<(Data, Decimals)>, c: Setup, id: int)
    requires w.buffer != []
    ensures var v := Take(w, lookup, built, c);
            && v.buffer == w.buffer[1..] && w.seen <= v.seen
            && (IsNote(w.buffer[0], id) ==> id in v.seen)
  {
    hide Prepare;
  }

  lemma {:induction false} RunKeepsAccepted(steps: seq<Step>, w: World, c: Setup, id: int)
    requires CanRun(steps, w, c) && Accepted(w, id) && OnceOnly(w)
    ensures Accepted(Run(steps, w, c), id) && OnceOnly(Run(steps, w, c))
  {
    hide Enabled, Next, Accepted, OnceOnly;
    if steps != [] {
      StepKeepsAccepted(steps[0], w, c, id);
      StepKeepsOnceOnly(steps[0], w, c);
      RunKeepsAccepted(steps[1..], Next(steps[0], w, c), c, id);
    }
  }

  predicate HandledOnce(w: World, id: int) {
    exists i | 0 <= i < |w.handled| ::
      w.handled[i] == id && forall k | 0 <= k < |w.handled| && k != i :: w.handled[k] != id
  }

  lemma AcceptedWhenQuiet(w: World, id: int)
    requires Accepted(w, id) && OnceOnly(w) && Quiet(w)
    ensures HandledOnce(w, id)
  {
    assert id in w.handled;
    var i :| 0 <= i < |w.handled| && w.handled[i] == id;
  }

  /** Along any run, whatever people, GitLab and failing calls do meanwhile, a note that was
      accepted has been handled exactly once when the bot is quiet. */
  lemma NoCommandIsLost(steps: seq<Step>, w: World, c: Setup, id: int)
    requires CanRun(steps, w, c) && Accepted(w, id) && OnceOnly(w)
    ensures Quiet(Run(steps, w, c)) ==> HandledOnce(Run(steps, w, c), id)
  {
    hide Quiet, Accepted, OnceOnly, HandledOnce;
    RunKeepsAccepted(steps, w, c, id);
    if Quiet(Run(steps, w, c)) {
      AcceptedWhenQuiet(Run(steps, w, c), id);
    }
  }

  /** And it comes to that: left alone, the bot handles every accepted note and falls quiet. */
  lemma EveryCommandIsHandled(run: nat -> World, step: nat -> Step, i: nat, c: Setup, id: int)
    requires Sound(run(i)) && OnceOnly(run(i)) && Accepted(run(i), id)
    requires forall k: nat | Moves(step(k), run(k)) :: run(k + 1) == Next(step(k), run(k), c)
    requires forall k: nat | (exists s :: Moves(s, run(k))) :: Moves(step(k), run(k))
    ensures exists k: nat :: i <= k && Quiet(run(k)) && HandledOnce(run(k), id)
  {
    hide Sound, OnceOnly, Accepted, Quiet, HandledOnce, Enabled, Next;
    FallsQuiet(run, step, i, c);
    var k: nat :| StopsAt(run, step, i, k) && Quiet(run(k));
    for l := i to k
      invariant Accepted(run(l), id) && OnceOnly(run(l))
    {
      assert Moves(step(l), run(l));
      StepKeepsAccepted(step(l), run(l), c, id);
      StepKeepsOnceOnly(step(l), run(l), c);
    }
    AcceptedWhenQuiet(run(k), id);
  }
}
