/** cmd/bot/serve.go: the bounded queue and its warning, under every interleaving of callers. */
module Queue {
  const WARN_PERCENT := 80

  function WarnAt(size: nat): nat { (size * WARN_PERCENT + 99) / 100 }

  /** warnAt is the first depth at or above the percentage. */
  lemma WarnAtIsLeast(size: nat, depth: nat)
    ensures depth >= WarnAt(size) <==> 100 * depth >= 80 * size
  {
  }

  /** How far a call of Enqueue has come: it has sent its event, or has also read a depth at or
      above warnAt, or below it. */
  datatype Stage = Sent | Crossed | Below

  /** calls: the calls under way. accepted and consumed are the events that calls accepted and
      that the worker received; warnings counts log lines, resets the stores that found the flag set. */
  datatype State<E> = State(buf: seq<E>, warned: bool, calls: map<int, Stage>,
                            accepted: seq<E>, consumed: seq<E>, warnings: nat, resets: nat)

  datatype Step<E> =
    | Send(call: int, e: E)      // the select statement: a full channel turns the event away
    | HandOver(call: int, e: E)  // the same, to a worker that is waiting at an empty channel
    | ReadDepth(call: int)
    | SwapFlag(call: int)        // CompareAndSwap(false, true), and the log line if it swapped
    | ClearFlag(call: int)       // Store(false)
    | Receive

  function Start<E>(): State<E> { State([], false, map[], [], [], 0, 0) }

  predicate Enabled<E>(s: Step<E>, q: State<E>) {
    match s
    case Send(call, _) => call !in q.calls
    case HandOver(call, _) => call !in q.calls && q.buf == []
    case ReadDepth(call) => call in q.calls && q.calls[call] == Sent
    case SwapFlag(call) => call in q.calls && q.calls[call] == Crossed
    case ClearFlag(call) => call in q.calls && q.calls[call] == Below
    case Receive => q.buf != []
  }

  function Next<E>(s: Step<E>, q: State<E>, size: nat): State<E>
    requires Enabled(s, q)
  {
    match s
    case Send(call, e) =>
      if |q.buf| < size then
        q.(buf := q.buf + [e], accepted := q.accepted + [e], calls := q.calls[call := Sent])
      else q
    case HandOver(call, e) =>
      q.(accepted := q.accepted + [e], consumed := q.consumed + [e], calls := q.calls[call := Sent])
    case ReadDepth(call) =>
      q.(calls := q.calls[call := if |q.buf| >= WarnAt(size) then Crossed else Below])
    case SwapFlag(call) =>
      q.(calls := q.calls - {call}, warned := true, warnings := q.warnings + if q.warned then 0 else 1)
    case ClearFlag(call) =>
      q.(calls := q.calls - {call}, warned := false, resets := q.resets + if q.warned then 1 else 0)
    case Receive => q.(buf := q.buf[1..], consumed := q.consumed + [q.buf[0]])
  }

  predicate CanRun<E>(steps: seq<Step<E>>, q: State<E>, size: nat) {
    steps == [] || (Enabled(steps[0], q) && CanRun(steps[1..], Next(steps[0], q, size), size))
  }

  function Run<E>(steps: seq<Step<E>>, q: State<E>, size: nat): State<E>
    requires CanRun(steps, q, size)
  {
    if steps == [] then q else Run(steps[1..], Next(steps[0], q, size), size)
  }

  predicate Inv<E(==)>(q: State<E>, size: nat) {
    && q.accepted == q.consumed + q.buf
    && |q.buf| <= size
    && q.warnings == q.resets + if q.warned then 1 else 0
  }

  lemma StepKeepsInv<E>(s: Step<E>, q: State<E>, size: nat)
    requires Enabled(s, q) && Inv(q, size)
    ensures Inv(Next(s, q, size), size)
  {
    if s.Receive? {
      assert q.consumed + q.buf == (q.consumed + [q.buf[0]]) + q.buf[1..];
    }
  }

  /** Under every interleaving: first in, first out, nothing lost or doubled, never more than the
      capacity, and a warning between any two resets. */
  lemma {:induction false} EveryInterleaving<E>(steps: seq<Step<E>>, q: State<E>, size: nat)
    requires CanRun(steps, q, size) && Inv(q, size)
    ensures Inv(Run(steps, q, size), size)
  {
    if steps != [] {
      StepKeepsInv(steps[0], q, size);
      EveryInterleaving(steps[1..], Next(steps[0], q, size), size);
    }
  }

  // ---- one warning per crossing? ------------------------------------------------------

  predicate Swaps<E>(steps: seq<Step<E>>) { exists j | 0 <= j < |steps| :: steps[j].SwapFlag? }

  predicate SwapsAfterClear<E>(steps: seq<Step<E>>) {
    exists i, j | 0 <= i < j < |steps| :: steps[i].ClearFlag? && steps[j].SwapFlag?
  }

  lemma SwapsCons<E>(steps: seq<Step<E>>)
    requires steps != []
    ensures Swaps(steps) <==> steps[0].SwapFlag? || Swaps(steps[1..])
    ensures SwapsAfterClear(steps) <==> (steps[0].ClearFlag? && Swaps(steps[1..])) || SwapsAfterClear(steps[1..])
  {
    var rest := steps[1..];
    assert forall i | 0 <= i < |rest| :: rest[i] == steps[i + 1];
    if j :| 0 <= j < |steps| && steps[j].SwapFlag? {
      assert j > 0 ==> rest[j - 1].SwapFlag?;
    }
    if i, j :| 0 <= i < j < |steps| && steps[i].ClearFlag? && steps[j].SwapFlag? {
      assert rest[j - 1].SwapFlag? && (i > 0 ==> rest[i - 1].ClearFlag?);
    }
  }

  /** A warning follows a set flag if and only if some store clears the flag before a later swap,
      and a cleared flag if and only if there is a swap. */
  lemma {:induction false} WarnsIff<E>(steps: seq<Step<E>>, q: State<E>, size: nat)
    requires CanRun(steps, q, size)
    ensures q.warnings <= Run(steps, q, size).warnings
    ensures q.warned ==> (Run(steps, q, size).warnings > q.warnings <==> SwapsAfterClear(steps))
    ensures !q.warned ==> (Run(steps, q, size).warnings > q.warnings <==> Swaps(steps))
  {
    hide Swaps, SwapsAfterClear;
    if steps == [] {
      NothingSwaps<E>();
    } else {
      SwapsCons(steps);
      WarnsIff(steps[1..], Next(steps[0], q, size), size);
      ClearsThenSwaps(steps[1..]);
    }
  }

  lemma NothingSwaps<E>()
    ensures !Swaps<E>([]) && !SwapsAfterClear<E>([])
  {
  }

  lemma ClearsThenSwaps<E>(steps: seq<Step<E>>)
    ensures SwapsAfterClear(steps) ==> Swaps(steps)
  {
  }

  /** Some state of the run, the first and the last included, holds fewer events than warnAt. */
  predicate Falls<E>(steps: seq<Step<E>>, q: State<E>, size: nat)
    requires CanRun(steps, q, size)
  {
    |q.buf| < WarnAt(size) || (steps != [] && Falls(steps[1..], Next(steps[0], q, size), size))
  }

  /** Some call clears the flag at a depth that is not below warnAt: the depth it read is stale. */
  predicate ClearsStale<E>(steps: seq<Step<E>>, q: State<E>, size: nat)
    requires CanRun(steps, q, size)
  {
    steps != [] &&
    ((steps[0].ClearFlag? && |q.buf| >= WarnAt(size)) || ClearsStale(steps[1..], Next(steps[0], q, size), size))
  }

  lemma {:induction false} ClearsAtLowOrStale<E>(steps: seq<Step<E>>, q: State<E>, size: nat)
    requires CanRun(steps, q, size) && SwapsAfterClear(steps)
    ensures Falls(steps, q, size) || ClearsStale(steps, q, size)
  {
    hide SwapsAfterClear;
    if steps == [] {
      NothingSwaps<E>();
    } else {
      SwapsCons(steps);
      if !steps[0].ClearFlag? {
        ClearsAtLowOrStale(steps[1..], Next(steps[0], q, size), size);
      }
    }
  }

  /** Where no store is stale, a line that follows a set flag has a state below warnAt on its way,
      which may be the first. It takes more to bound the lines by the crossings. */
  lemma LineNeedsLow<E>(steps: seq<Step<E>>, q: State<E>, size: nat)
    requires CanRun(steps, q, size) && q.warned && !ClearsStale(steps, q, size)
    ensures Run(steps, q, size).warnings > q.warnings ==> Falls(steps, q, size)
  {
    WarnsIff(steps, q, size);
    if SwapsAfterClear(steps) {
      ClearsAtLowOrStale(steps, q, size);
    }
  }

  /** While the buffer stays at warnAt or above, the flag once set, a further warning comes if and
      only if a store is made, stale as it must be, and a call that crossed swaps after it. */
  lemma AgainIffStale<E>(steps: seq<Step<E>>, q: State<E>, size: nat)
    requires CanRun(steps, q, size) && q.warned && !Falls(steps, q, size)
    ensures Run(steps, q, size).warnings > q.warnings <==> ClearsStale(steps, q, size) && SwapsAfterClear(steps)
  {
    WarnsIff(steps, q, size);
    if SwapsAfterClear(steps) {
      ClearsAtLowOrStale(steps, q, size);
    }
  }

  /** The step takes the buffer from below warnAt to it or above. */
  predicate Climb<E>(s: Step<E>, q: State<E>, size: nat)
    requires Enabled(s, q)
  {
    |q.buf| < WarnAt(size) <= |Next(s, q, size).buf|
  }

  /** How often the buffer crosses the threshold upward. */
  function Climbs<E>(steps: seq<Step<E>>, q: State<E>, size: nat): nat
    requires CanRun(steps, q, size)
  {
    if steps == [] then 0
    else Climbs(steps[1..], Next(steps[0], q, size), size) + if Climb(steps[0], q, size) then 1 else 0
  }

  /** A store at warnAt or above, or a swap below it: the depth that was read holds no more. */
  predicate Stale<E>(s: Step<E>, q: State<E>, size: nat) {
    (s.ClearFlag? && |q.buf| >= WarnAt(size)) || (s.SwapFlag? && |q.buf| < WarnAt(size))
  }

  predicate ActsStale<E>(steps: seq<Step<E>>, q: State<E>, size: nat)
    requires CanRun(steps, q, size)
  {
    steps != [] && (Stale(steps[0], q, size) || ActsStale(steps[1..], Next(steps[0], q, size), size))
  }

  /** A crossing that was made before the run and not yet warned of. */
  function Owed<E>(q: State<E>, size: nat): nat { if !q.warned && |q.buf| >= WarnAt(size) then 1 else 0 }

  /** At most one line per crossing, however calls interleave, as long as none acts on a depth that
      holds no more. */
  lemma {:induction false} AtMostOncePerCrossing<E>(steps: seq<Step<E>>, q: State<E>, size: nat)
    requires CanRun(steps, q, size) && !ActsStale(steps, q, size)
    ensures Run(steps, q, size).warnings <= q.warnings + Climbs(steps, q, size) + Owed(q, size)
  {
    hide WarnAt;
    if steps != [] {
      AtMostOncePerCrossing(steps[1..], Next(steps[0], q, size), size);
    }
  }

  /** Calls that wait for each other, as under a lock; the worker receives whenever it likes. */
  predicate OneByOne<E>(steps: seq<Step<E>>, q: State<E>, size: nat)
    requires CanRun(steps, q, size)
  {
    steps == [] ||
    ((steps[0].Send? || steps[0].HandOver? ==> q.calls == map[]) && OneByOne(steps[1..], Next(steps[0], q, size), size))
  }

  /** At most one call is under way, and what it read last is still so. */
  ghost predicate Fresh<E>(q: State<E>, size: nat) {
    && (forall c, d | c in q.calls && d in q.calls :: c == d)
    && (forall c | c in q.calls :: q.calls[c] == Below ==> |q.buf| < WarnAt(size))
  }

  /** A lock would do away with the extra lines: no store is stale then. */
  lemma {:induction false} LockedIsNeverStale<E>(steps: seq<Step<E>>, q: State<E>, size: nat)
    requires CanRun(steps, q, size) && OneByOne(steps, q, size) && Fresh(q, size)
    ensures !ClearsStale(steps, q, size)
  {
    hide WarnAt;
    if steps != [] {
      LockedIsNeverStale(steps[1..], Next(steps[0], q, size), size);
    }
  }

  ghost predicate OneIsCrossed<E>(q: State<E>) { exists c | c in q.calls :: q.calls[c] == Crossed }

  ghost function OwedUnderLock<E>(q: State<E>, size: nat): nat {
    if !q.warned && (|q.buf| >= WarnAt(size) || OneIsCrossed(q)) then 1 else 0
  }

  /** And it would bound the lines by the crossings, even where a receive makes a swap stale. */
  lemma {:induction false} LockedIsAtMostOnce<E>(steps: seq<Step<E>>, q: State<E>, size: nat)
    requires CanRun(steps, q, size) && OneByOne(steps, q, size) && Fresh(q, size)
    ensures Run(steps, q, size).warnings <= q.warnings + Climbs(steps, q, size) + OwedUnderLock(q, size)
  {
    hide WarnAt;
    if steps != [] {
      LockedStepOwes(steps[0], q, size);
      LockedIsAtMostOnce(steps[1..], Next(steps[0], q, size), size);
    }
  }

  lemma LockedStepOwes<E>(s: Step<E>, q: State<E>, size: nat)
    requires Enabled(s, q) && Fresh(q, size) && (s.Send? || s.HandOver? ==> q.calls == map[])
    ensures Fresh(Next(s, q, size), size)
    ensures var v := Next(s, q, size);
            v.warnings + OwedUnderLock(v, size) <=
            q.warnings + OwedUnderLock(q, size) + if Climb(s, q, size) then 1 else 0
  {
    hide WarnAt;
  }

  // ---- one call at a time -------------------------------------------------------------

  /** What a call does when nothing comes between its steps. */
  function EnqueueAlone<E>(q: State<E>, e: E, size: nat): State<E> {
    if |q.buf| >= size then q else
    var buf := q.buf + [e];
    var crossed := |buf| >= WarnAt(size);
    q.(buf := buf, accepted := q.accepted + [e], warned := crossed,
       warnings := q.warnings + if crossed && !q.warned then 1 else 0,
       resets := q.resets + if !crossed && q.warned then 1 else 0)
  }

  lemma EnqueueAloneIsSteps<E>(q: State<E>, e: E, size: nat, call: int)
    requires call !in q.calls && |q.buf| < size
    ensures var last := if |q.buf| + 1 >= WarnAt(size) then SwapFlag(call) else ClearFlag(call);
            var steps := [Send(call, e), ReadDepth(call), last];
            CanRun(steps, q, size) && Run(steps, q, size) == EnqueueAlone(q, e, size)
  {
    var last: Step<E> := if |q.buf| + 1 >= WarnAt(size) then SwapFlag(call) else ClearFlag(call);
    var q1 := Next(Send(call, e), q, size);
    var q2 := Next(ReadDepth(call), q1, size);
    assert Next(last, q2, size).calls == q.calls;
    RunCons(last, [], q2, size);
    RunCons(ReadDepth(call), [last], q1, size);
    RunCons(Send(call, e), [ReadDepth(call), last], q, size);
    assert [last] + [] == [last];
    assert [ReadDepth(call)] + [last] == [ReadDepth(call), last];
    assert [Send(call, e)] + [ReadDepth(call), last] == [Send(call, e), ReadDepth(call), last];
  }

  lemma RunCons<E>(s: Step<E>, rest: seq<Step<E>>, q: State<E>, size: nat)
    requires Enabled(s, q) && CanRun(rest, Next(s, q, size), size)
    ensures CanRun([s] + rest, q, size) && Run([s] + rest, q, size) == Run(rest, Next(s, q, size), size)
  {
    assert ([s] + rest)[1..] == rest;
  }

  // ---- calls that nothing interrupts -----------------------------------------------------

  /** A call of Enqueue, one whose event goes to a waiting worker, or a receive. */
  datatype Move<E> = Call(e: E) | Hand(e: E) | Take

  predicate Movable<E>(m: Move<E>, q: State<E>) {
    match m
    case Call(_) => true
    case Hand(_) => q.buf == []
    case Take => q.buf != []
  }

  /** What a call does whose event is handed over; it reads depth 0. */
  function HandAlone<E>(q: State<E>, e: E, size: nat): State<E> {
    var crossed := 0 >= WarnAt(size);
    q.(accepted := q.accepted + [e], consumed := q.consumed + [e], warned := crossed,
       warnings := q.warnings + if crossed && !q.warned then 1 else 0,
       resets := q.resets + if !crossed && q.warned then 1 else 0)
  }

  function Moved<E>(m: Move<E>, q: State<E>, size: nat): State<E>
    requires Movable(m, q)
  {
    match m
    case Call(e) => EnqueueAlone(q, e, size)
    case Hand(e) => HandAlone(q, e, size)
    case Take => Next(Receive, q, size)
  }

  predicate CanMove<E>(moves: seq<Move<E>>, q: State<E>, size: nat) {
    moves == [] || (Movable(moves[0], q) && CanMove(moves[1..], Moved(moves[0], q, size), size))
  }

  function Play<E>(moves: seq<Move<E>>, q: State<E>, size: nat): State<E>
    requires CanMove(moves, q, size)
  {
    if moves == [] then q else Play(moves[1..], Moved(moves[0], q, size), size)
  }

  /** The depths in which the accepted calls leave the buffer. */
  function Depths<E>(moves: seq<Move<E>>, q: State<E>, size: nat): seq<nat>
    requires CanMove(moves, q, size)
  {
    if moves == [] then [] else
    var rest := Depths(moves[1..], Moved(moves[0], q, size), size);
    match moves[0]
    case Call(_) => if |q.buf| < size then [|q.buf| + 1] + rest else rest
    case Hand(_) => [0] + rest
    case Take => rest
  }

  /** The depth is at w or above, and was not after the accepted call before. */
  predicate Rises(high: bool, depths: seq<nat>, i: nat, w: nat) {
    i < |depths| && depths[i] >= w && (if i == 0 then !high else depths[i - 1] < w)
  }

  function RisePlaces(high: bool, depths: seq<nat>, w: nat): set<nat> {
    set i: nat | i < |depths| && Rises(high, depths, i, w)
  }

  predicate EndsHigh(high: bool, depths: seq<nat>, w: nat) {
    if depths == [] then high else depths[|depths| - 1] >= w
  }

  lemma RisesSnoc(high: bool, depths: seq<nat>, d: nat, w: nat)
    ensures |RisePlaces(high, depths + [d], w)| ==
            |RisePlaces(high, depths, w)| + if d >= w && !EndsHigh(high, depths, w) then 1 else 0
  {
    var n, all := |depths|, depths + [d];
    var before := RisePlaces(high, depths, w);
    assert forall i: nat | i < n :: Rises(high, all, i, w) <==> Rises(high, depths, i, w);
    assert Rises(high, all, n, w) <==> d >= w && !EndsHigh(high, depths, w);
    assert n !in before;
    assert RisePlaces(high, all, w) == if Rises(high, all, n, w) then before + {n} else before;
  }

  lemma {:induction false} RisesCons(high: bool, d: nat, depths: seq<nat>, w: nat)
    ensures |RisePlaces(high, [d] + depths, w)| ==
            |RisePlaces(d >= w, depths, w)| + if d >= w && !high then 1 else 0
  {
    hide RisePlaces;
    if depths == [] {
      NoRises(high, w);
      NoRises(d >= w, w);
      RisesSnoc(high, [], d, w);
      assert [d] + depths == [] + [d];
    } else {
      var n := |depths| - 1;
      var front, last := depths[..n], depths[n];
      assert depths == front + [last] && [d] + depths == ([d] + front) + [last];
      RisesCons(high, d, front, w);
      RisesSnoc(high, [d] + front, last, w);
      RisesSnoc(d >= w, front, last, w);
    }
  }

  /** Calls that nothing interrupts log exactly one line for each crossing that they see: for each
      accepted call that leaves the buffer at warnAt or above where the one before left it below. */
  lemma {:induction false} LinesAreRises<E>(moves: seq<Move<E>>, q: State<E>, size: nat)
    requires CanMove(moves, q, size)
    ensures var depths := Depths(moves, q, size);
            && Play(moves, q, size).warnings == q.warnings + |RisePlaces(q.warned, depths, WarnAt(size))|
            && Play(moves, q, size).warned ==
               if depths == [] then q.warned else depths[|depths| - 1] >= WarnAt(size)
  {
    hide WarnAt, RisePlaces;
    if moves == [] {
      assert RisePlaces(q.warned, [], WarnAt(size)) == {} by { NoRises(q.warned, WarnAt(size)); }
    } else {
      var next := Moved(moves[0], q, size);
      LinesAreRises(moves[1..], next, size);
      var rest := Depths(moves[1..], next, size);
      RisesCons(q.warned, |q.buf| + 1, rest, WarnAt(size));
      RisesCons(q.warned, 0, rest, WarnAt(size));
    }
  }

  lemma NoRises(high: bool, w: nat)
    ensures RisePlaces(high, [], w) == {}
  {
  }

  predicate Reaches(depths: seq<nat>, w: nat) { exists j | 0 <= j < |depths| :: depths[j] >= w }

  predicate FallsAndReaches(depths: seq<nat>, w: nat) {
    exists i, j | 0 <= i < j < |depths| :: depths[i] < w <= depths[j]
  }

  lemma ReachesCons(d: nat, depths: seq<nat>, w: nat)
    ensures Reaches([d] + depths, w) <==> d >= w || Reaches(depths, w)
    ensures !Reaches([], w)
  {
    var all := [d] + depths;
    assert all[0] == d;
    if j :| 0 <= j < |all| && all[j] >= w {
      assert j > 0 ==> depths[j - 1] >= w;
    }
    if j :| 0 <= j < |depths| && depths[j] >= w {
      assert all[j + 1] >= w;
    }
  }

  lemma FallsCons(d: nat, depths: seq<nat>, w: nat)
    ensures FallsAndReaches([d] + depths, w) <==> (d < w && Reaches(depths, w)) || FallsAndReaches(depths, w)
    ensures FallsAndReaches(depths, w) ==> Reaches(depths, w)
    ensures !FallsAndReaches([], w)
  {
    var all := [d] + depths;
    if i, j :| 0 <= i < j < |all| && all[i] < w <= all[j] {
      assert depths[j - 1] >= w;
      if i > 0 {
        assert depths[i - 1] < w <= depths[j - 1];
      }
    }
    if j :| 0 <= j < |depths| && depths[j] >= w && d < w {
      assert all[0] < w <= all[j + 1];
    }
    if i, j :| 0 <= i < j < |depths| && depths[i] < w <= depths[j] {
      assert all[i + 1] < w <= all[j + 1];
    }
  }

  /** So a set flag is followed by a line if and only if an accepted call leaves the buffer below
      warnAt and a later one at or above it; a cleared flag, if and only if one leaves it there. */
  lemma {:induction false} LineIffSeen<E>(moves: seq<Move<E>>, q: State<E>, size: nat)
    requires CanMove(moves, q, size)
    ensures var more := Play(moves, q, size).warnings > q.warnings;
            var depths := Depths(moves, q, size);
            more <==> if q.warned then FallsAndReaches(depths, WarnAt(size)) else Reaches(depths, WarnAt(size))
    ensures Play(moves, q, size).warnings >= q.warnings
  {
    hide WarnAt, Reaches, FallsAndReaches;
    if moves == [] {
      ReachesCons(0, [], WarnAt(size));
      FallsCons(0, [], WarnAt(size));
    } else {
      var next := Moved(moves[0], q, size);
      LineIffSeen(moves[1..], next, size);
      var rest := Depths(moves[1..], next, size);
      ReachesCons(|q.buf| + 1, rest, WarnAt(size));
      FallsCons(|q.buf| + 1, rest, WarnAt(size));
      ReachesCons(0, rest, WarnAt(size));
      FallsCons(0, rest, WarnAt(size));
    }
  }

  /** The flag stays set until a call sees a depth below warnAt: a receive and a call cross twice
      and log nothing. */
  lemma SilentCrossing<E>(q: State<E>, e: E, size: nat)
    requires q.warned && |q.buf| == WarnAt(size) && 0 < WarnAt(size) <= size
    ensures CanMove([Take, Call(e)], q, size)
    ensures |Next(Receive, q, size).buf| < WarnAt(size)
    ensures var r := Play([Take, Call(e)], q, size); |r.buf| == WarnAt(size) && r.warnings == q.warnings
  {
    var moves: seq<Move<E>> := [Take, Call(e)];
    var q1 := Moved(moves[0], q, size);
    assert moves[1..] == [Call(e)] && moves[1..][1..] == [];
    assert CanMove(moves[1..], q1, size) && Play(moves[1..], q1, size) == EnqueueAlone(q1, e, size);
  }

  // ---- moves are steps ---------------------------------------------------------------------

  lemma {:induction false} RunCat<E>(a: seq<Step<E>>, b: seq<Step<E>>, q: State<E>, size: nat)
    requires CanRun(a, q, size) && CanRun(b, Run(a, q, size), size)
    ensures CanRun(a + b, q, size) && Run(a + b, q, size) == Run(b, Run(a, q, size), size)
  {
    if a == [] {
      assert a + b == b;
    } else {
      assert (a + b)[1..] == a[1..] + b;
      RunCat(a[1..], b, Next(a[0], q, size), size);
    }
  }

  lemma MoveIsSteps<E>(m: Move<E>, q: State<E>, size: nat) returns (steps: seq<Step<E>>)
    requires Movable(m, q) && q.calls == map[]
    ensures CanRun(steps, q, size) && Run(steps, q, size) == Moved(m, q, size)
  {
    hide WarnAt;
    match m
    case Take =>
      steps := [Receive] + [];
      RunCons(Receive, [], q, size);
    case Call(e) =>
      if |q.buf| < size {
        EnqueueAloneIsSteps(q, e, size, 0);
        var last := if |q.buf| + 1 >= WarnAt(size) then SwapFlag(0) else ClearFlag(0);
        steps := [Send(0, e), ReadDepth(0), last];
      } else {
        steps := [Send(0, e)] + [];
        RunCons(Send(0, e), [], q, size);
      }
    case Hand(e) =>
      var last: Step<E> := if 0 >= WarnAt(size) then SwapFlag(0) else ClearFlag(0);
      var q1 := Next(HandOver(0, e), q, size);
      var q2 := Next(ReadDepth(0), q1, size);
      assert Next(last, q2, size).calls == q.calls;
      RunCons(last, [], q2, size);
      RunCons(ReadDepth(0), [last], q1, size);
      RunCons(HandOver(0, e), [ReadDepth(0), last], q, size);
      steps := [HandOver(0, e)] + ([ReadDepth(0)] + ([last] + []));
      assert [last] + [] == [last] && [ReadDepth(0)] + [last] == [ReadDepth(0), last];
  }

  /** Every sequence of moves is a run of the atomic steps. */
  lemma {:induction false} MovesAreSteps<E>(moves: seq<Move<E>>, q: State<E>, size: nat) returns (steps: seq<Step<E>>)
    requires CanMove(moves, q, size) && q.calls == map[]
    ensures CanRun(steps, q, size) && Run(steps, q, size) == Play(moves, q, size)
  {
    hide WarnAt;
    if moves == [] {
      steps := [];
    } else {
      var first := MoveIsSteps(moves[0], q, size);
      var rest := MovesAreSteps(moves[1..], Moved(moves[0], q, size), size);
      RunCat(first, rest, q, size);
      steps := first + rest;
    }
  }

  // ---- racing calls ------------------------------------------------------------------------

  lemma {:induction false} ClimbsWithoutReceive<E>(steps: seq<Step<E>>, q: State<E>, size: nat)
    requires CanRun(steps, q, size) && forall i | 0 <= i < |steps| :: !steps[i].Receive?
    ensures Climbs(steps, q, size) <= if |q.buf| < WarnAt(size) then 1 else 0
  {
    hide WarnAt;
    if steps != [] {
      ClimbsWithoutReceive(steps[1..], Next(steps[0], q, size), size);
    }
  }

  /** Racing calls may cost an extra line: a late store clears the flag that a crossing set, and
      the next call warns again although nothing was received. */
  lemma RaceWarnsTwice()
    ensures exists steps: seq<Step<int>> ::
              && CanRun(steps, Start(), 3)
              && Run(steps, Start(), 3).warnings == 2
              && (forall i | 0 <= i < |steps| :: !steps[i].Receive?)
              && Climbs(steps, Start(), 3) <= 1
  {
    hide CanRun, Run, Climbs;
    var early := Crowds();
    var late: seq<Step<int>> := [ReadDepth(1), SwapFlag(1), ClearFlag(0), ReadDepth(2), SwapFlag(2)];
    LateStore(CROWDED, 3, 0, 1, 2);
    RunCat(early, late, Start(), 3);
    ClimbsWithoutReceive(early + late, Start(), 3);
  }

  const CROWDED: State<int> :=
    State([10, 11, 12], false, map[0 := Below, 1 := Sent, 2 := Sent], [10, 11, 12], [], 0, 0)

  /** The first call has read a low depth when two more fill the buffer. */
  lemma Crowds() returns (steps: seq<Step<int>>)
    ensures CanRun(steps, Start(), 3) && Run(steps, Start(), 3) == CROWDED
    ensures forall i | 0 <= i < |steps| :: !steps[i].Receive?
  {
    hide CanRun, Run;
    var q1 := Next(Send(0, 10), Start(), 3);
    var q2 := Next(ReadDepth(0), q1, 3);
    var q3 := Next(Send(1, 11), q2, 3);
    assert Next(Send(2, 12), q3, 3) == CROWDED;
    RunNothing(CROWDED, 3);
    RunCons(Send(2, 12), [], q3, 3);
    steps := [Send(2, 12)] + [];
    RunCons(Send(1, 11), steps, q2, 3);
    steps := [Send(1, 11)] + steps;
    RunCons(ReadDepth(0), steps, q1, 3);
    steps := [ReadDepth(0)] + steps;
    RunCons(Send(0, 10), steps, Start(), 3);
    steps := [Send(0, 10)] + steps;
  }

  /** A call that read a low depth stores false after another has warned. */
  lemma LateStore<E>(q: State<E>, size: nat, late: int, a: int, b: int)
    requires late != a && late != b && a != b && {late, a, b} <= q.calls.Keys
    requires q.calls[late] == Below && q.calls[a] == Sent && q.calls[b] == Sent
    requires |q.buf| >= WarnAt(size) && !q.warned
    ensures var steps := [ReadDepth(a), SwapFlag(a), ClearFlag(late), ReadDepth(b), SwapFlag(b)];
            CanRun(steps, q, size) && Run(steps, q, size).warnings == q.warnings + 2
  {
    hide CanRun, Run;
    var s := [ReadDepth(a), SwapFlag(a), ClearFlag(late), ReadDepth(b), SwapFlag(b)];
    var q1 := Next(ReadDepth(a), q, size);
    var q2 := Next(SwapFlag(a), q1, size);
    var q3 := Next(ClearFlag(late), q2, size);
    var q4 := Next(ReadDepth(b), q3, size);
    assert s[5..] == [];
    RunNothing(Next(SwapFlag(b), q4, size), size);
    RunLast(s, 4, q4, size);
    RunLast(s, 3, q3, size);
    RunLast(s, 2, q2, size);
    RunLast(s, 1, q1, size);
    RunLast(s, 0, q, size);
    assert s[0..] == s;
  }

  lemma RunNothing<E>(q: State<E>, size: nat)
    ensures CanRun([], q, size) && Run([], q, size) == q
  {
  }

  /** The rest of a run, from its i-th step. */
  lemma RunLast<E>(s: seq<Step<E>>, i: nat, q: State<E>, size: nat)
    requires i < |s| && Enabled(s[i], q) && CanRun(s[i + 1..], Next(s[i], q, size), size)
    ensures CanRun(s[i..], q, size) && Run(s[i..], q, size) == Run(s[i + 1..], Next(s[i], q, size), size)
  {
    assert s[i..] == [s[i]] + s[i + 1..];
    RunCons(s[i], s[i + 1..], q, size);
  }

  /** A run that makes no stale store and crosses the threshold that often. */
  ghost predicate Leads<E>(steps: seq<Step<E>>, q: State<E>, r: State<E>, size: nat, climbs: nat) {
    CanRun(steps, q, size) && Run(steps, q, size) == r &&
    Climbs(steps, q, size) == climbs && !ClearsStale(steps, q, size)
  }

  lemma LeadsNowhere<E>(q: State<E>, size: nat)
    ensures Leads([], q, q, size, 0)
  {
  }

  lemma LeadsCons<E>(s: Step<E>, rest: seq<Step<E>>, q: State<E>, r: State<E>, size: nat, climbs: nat)
    requires Enabled(s, q) && Leads(rest, Next(s, q, size), r, size, climbs)
    requires s.ClearFlag? ==> |q.buf| < WarnAt(size)
    ensures Leads([s] + rest, q, r, size, climbs + if Climb(s, q, size) then 1 else 0)
  {
    assert ([s] + rest)[1..] == rest;
  }

  const FULL: State<int> := State([10, 11, 12], false, map[1 := Sent, 2 := Sent], [10, 11, 12], [], 0, 0)

  const DRAINED: State<int> :=
    State([12], false, map[1 := Crossed, 2 := Crossed], [10, 11, 12], [10, 11], 0, 0)

  /** Three calls fill the buffer; the first clears the flag in time, the others have not read. */
  lemma Fills() returns (steps: seq<Step<int>>)
    ensures Leads(steps, Start(), FULL, 3, 1)
  {
    hide CanRun, Run, Climbs, ClearsStale, Leads;
    var q1 := Next(Send(0, 10), Start(), 3);
    var q2 := Next(ReadDepth(0), q1, 3);
    var q3 := Next(ClearFlag(0), q2, 3);
    var q4 := Next(Send(1, 11), q3, 3);
    assert Next(Send(2, 12), q4, 3) == FULL;
    LeadsNowhere(FULL, 3);
    LeadsCons(Send(2, 12), [], q4, FULL, 3, 0);
    LeadsCons(Send(1, 11), [Send(2, 12)] + [], q3, FULL, 3, 1);
    steps := [Send(1, 11)] + ([Send(2, 12)] + []);
    LeadsCons(ClearFlag(0), steps, q2, FULL, 3, 1);
    steps := [ClearFlag(0)] + steps;
    LeadsCons(ReadDepth(0), steps, q1, FULL, 3, 1);
    steps := [ReadDepth(0)] + steps;
    LeadsCons(Send(0, 10), steps, Start(), FULL, 3, 1);
    steps := [Send(0, 10)] + steps;
  }

  /** Both read that depth, and then the worker receives twice. */
  lemma Drains(rest: seq<Step<int>>, r: State<int>) returns (steps: seq<Step<int>>)
    requires Leads(rest, DRAINED, r, 3, 0)
    ensures Leads(steps, FULL, r, 3, 0)
  {
    hide CanRun, Run, Climbs, ClearsStale, Leads;
    var q1 := Next(ReadDepth(1), FULL, 3);
    var q2 := Next(ReadDepth(2), q1, 3);
    var q3 := Next(Receive, q2, 3);
    assert Next(Receive, q3, 3) == DRAINED;
    LeadsCons(Receive, rest, q3, r, 3, 0);
    steps := [Receive] + rest;
    LeadsCons(Receive, steps, q2, r, 3, 0);
    steps := [Receive] + steps;
    LeadsCons(ReadDepth(2), steps, q1, r, 3, 0);
    steps := [ReadDepth(2)] + steps;
    LeadsCons(ReadDepth(1), steps, FULL, r, 3, 0);
    steps := [ReadDepth(1)] + steps;
  }

  /** A fourth call clears the flag in time between the two stale swaps. */
  lemma SwapsLate() returns (steps: seq<Step<int>>, r: State<int>)
    ensures Leads(steps, DRAINED, r, 3, 0) && r.warnings == 2
  {
    hide CanRun, Run, Climbs, ClearsStale, Leads;
    var q1 := Next(Send(3, 13), DRAINED, 3);
    var q2 := Next(ReadDepth(3), q1, 3);
    var q3 := Next(SwapFlag(1), q2, 3);
    var q4 := Next(ClearFlag(3), q3, 3);
    r := Next(SwapFlag(2), q4, 3);
    LeadsNowhere(r, 3);
    LeadsCons(SwapFlag(2), [], q4, r, 3, 0);
    steps := [SwapFlag(2)] + [];
    LeadsCons(ClearFlag(3), steps, q3, r, 3, 0);
    steps := [ClearFlag(3)] + steps;
    LeadsCons(SwapFlag(1), steps, q2, r, 3, 0);
    steps := [SwapFlag(1)] + steps;
    LeadsCons(ReadDepth(3), steps, q1, r, 3, 0);
    steps := [ReadDepth(3)] + steps;
    LeadsCons(Send(3, 13), steps, DRAINED, r, 3, 0);
    steps := [Send(3, 13)] + steps;
  }

  lemma {:induction false} LeadsOn<E>(a: seq<Step<E>>, b: seq<Step<E>>,
                                      q: State<E>, r: State<E>, t: State<E>, size: nat, m: nat, n: nat)
    requires Leads(a, q, r, size, m) && Leads(b, r, t, size, n)
    ensures Leads(a + b, q, t, size, m + n)
  {
    if a == [] {
      assert a + b == b;
    } else {
      var climbs := if Climb(a[0], q, size) then 1 else 0;
      LeadsOn(a[1..], b, Next(a[0], q, size), r, t, size, m - climbs, n);
      assert a + b == [a[0]] + (a[1..] + b);
      LeadsCons(a[0], a[1..] + b, q, t, size, m - climbs + n);
    }
  }

  /** Racing swaps cost an extra line too: in a run from the empty queue without a stale store the
      buffer crosses the threshold once, and two lines are logged. */
  lemma StaleSwapWarnsTwice()
    ensures exists steps: seq<Step<int>> ::
              && CanRun(steps, Start(), 3) && !ClearsStale(steps, Start(), 3)
              && Climbs(steps, Start(), 3) == 1 && Run(steps, Start(), 3).warnings == 2
  {
    var fill := Fills();
    var late, r := SwapsLate();
    var rest := Drains(late, r);
    LeadsOn(fill, rest, Start(), FULL, r, 3, 1, 0);
    assert Leads(fill + rest, Start(), r, 3, 1);
  }
}
