/** internal/report/report.go: what the summary of a report adds up. */
module Totals {
  import opened Text
  import opened Figures

  datatype Usage = Usage(cpuSeconds: real, peakMemory: uint64, memoryRequest: uint64, memoryLimit: uint64,
                         cpuRequest: real, cpuLimit: real, throttled: real,
                         netRx: uint64, netTx: uint64, diskRead: uint64, diskWrite: uint64)

  /** Times are seconds since the zero time, which is the time of a job that never started or finished. */
  datatype JobReport = JobReport(stage: string, name: string, startedAt: nat, finishedAt: nat, usage: Option<Usage>)

  datatype Totals = Totals(cpuSeconds: real, totalMemory: uint64, peakMemory: uint64,
                           netRx: uint64, netTx: uint64, diskRead: uint64, diskWrite: uint64)

  // ---- totals -------------------------------------------------------------------------

  function Sum(jobs: seq<JobReport>, figure: Usage -> nat): nat {
    if jobs == [] then 0 else
    var last := jobs[|jobs| - 1];
    Sum(jobs[..|jobs| - 1], figure) + if last.usage.Some? then figure(last.usage.value) else 0
  }

  function CpuSum(jobs: seq<JobReport>): real {
    if jobs == [] then 0.0 else
    var last := jobs[|jobs| - 1];
    CpuSum(jobs[..|jobs| - 1]) + if last.usage.Some? then last.usage.value.cpuSeconds else 0.0
  }

  function Greatest(jobs: seq<JobReport>): uint64 {
    if jobs == [] then 0 else
    var last := jobs[|jobs| - 1];
    var rest := Greatest(jobs[..|jobs| - 1]);
    if last.usage.Some? && last.usage.value.peakMemory > rest then last.usage.value.peakMemory else rest
  }

  /** Sums wrap at 64 bits. */
  function TotalsOf(jobs: seq<JobReport>): Totals {
    Totals(CpuSum(jobs), Sum(jobs, (u: Usage) => u.peakMemory) % UINT64, Greatest(jobs),
           Sum(jobs, (u: Usage) => u.netRx) % UINT64, Sum(jobs, (u: Usage) => u.netTx) % UINT64,
           Sum(jobs, (u: Usage) => u.diskRead) % UINT64, Sum(jobs, (u: Usage) => u.diskWrite) % UINT64)
  }

  method AddUp(jobs: seq<JobReport>) returns (t: Totals)
    ensures t == TotalsOf(jobs)
  {
    hide TotalsOf;
    t := Totals(0.0, 0, 0, 0, 0, 0, 0);
    TotalsNone();
    assert jobs[..0] == [];
    for i := 0 to |jobs|
      invariant t == TotalsOf(jobs[..i])
    {
      var j := jobs[i];
      TotalsMore(jobs, i);
      if j.usage.None? {
        continue;
      }
      var u := j.usage.value;
      t := Totals(t.cpuSeconds + u.cpuSeconds,
                  (t.totalMemory + u.peakMemory) % UINT64,
                  if u.peakMemory > t.peakMemory then u.peakMemory else t.peakMemory,
                  (t.netRx + u.netRx) % UINT64,
                  (t.netTx + u.netTx) % UINT64,
                  (t.diskRead + u.diskRead) % UINT64,
                  (t.diskWrite + u.diskWrite) % UINT64);
    }
    assert jobs[..|jobs|] == jobs;
  }

  lemma TotalsNone()
    ensures TotalsOf([]) == Totals(0.0, 0, 0, 0, 0, 0, 0)
  {
  }

  lemma SumMore(jobs: seq<JobReport>, i: nat, figure: Usage -> nat)
    requires i < |jobs|
    ensures Sum(jobs[..i + 1], figure) ==
            Sum(jobs[..i], figure) + if jobs[i].usage.Some? then figure(jobs[i].usage.value) else 0
    ensures jobs[i].usage.Some? ==>
              Sum(jobs[..i + 1], figure) % UINT64 ==
              (Sum(jobs[..i], figure) % UINT64 + figure(jobs[i].usage.value)) % UINT64
  {
    assert jobs[..i + 1][..i] == jobs[..i];
  }

  lemma TotalsMore(jobs: seq<JobReport>, i: nat)
    requires i < |jobs|
    ensures var t := TotalsOf(jobs[..i]);
            TotalsOf(jobs[..i + 1]) ==
            if jobs[i].usage.None? then t else
            var u := jobs[i].usage.value;
            Totals(t.cpuSeconds + u.cpuSeconds, (t.totalMemory + u.peakMemory) % UINT64,
                   if u.peakMemory > t.peakMemory then u.peakMemory else t.peakMemory,
                   (t.netRx + u.netRx) % UINT64, (t.netTx + u.netTx) % UINT64,
                   (t.diskRead + u.diskRead) % UINT64, (t.diskWrite + u.diskWrite) % UINT64)
  {
    hide Sum;
    assert jobs[..i + 1][..i] == jobs[..i];
    SumMore(jobs, i, (u: Usage) => u.peakMemory);
    SumMore(jobs, i, (u: Usage) => u.netRx);
    SumMore(jobs, i, (u: Usage) => u.netTx);
    SumMore(jobs, i, (u: Usage) => u.diskRead);
    SumMore(jobs, i, (u: Usage) => u.diskWrite);
  }

  /** A column adds the figures of the measured jobs, one by one. */
  lemma {:induction false} SumCat(a: seq<JobReport>, b: seq<JobReport>, figure: Usage -> nat)
    ensures Sum(a + b, figure) == Sum(a, figure) + Sum(b, figure)
    ensures forall j: JobReport :: Sum([j], figure) == if j.usage.Some? then figure(j.usage.value) else 0
    decreases |b|
  {
    forall j: JobReport
      ensures Sum([j], figure) == if j.usage.Some? then figure(j.usage.value) else 0
    {
      assert [j][..0] == [];
    }
    if b == [] {
      assert a + b == a;
    } else {
      assert (a + b)[..|a + b| - 1] == a + b[..|b| - 1];
      SumCat(a, b[..|b| - 1], figure);
    }
  }

  lemma {:induction false} CpuSumCat(a: seq<JobReport>, b: seq<JobReport>)
    ensures CpuSum(a + b) == CpuSum(a) + CpuSum(b)
    ensures forall j: JobReport :: CpuSum([j]) == if j.usage.Some? then j.usage.value.cpuSeconds else 0.0
    decreases |b|
  {
    forall j: JobReport
      ensures CpuSum([j]) == if j.usage.Some? then j.usage.value.cpuSeconds else 0.0
    {
      assert [j][..0] == [];
    }
    if b == [] {
      assert a + b == a;
    } else {
      assert (a + b)[..|a + b| - 1] == a + b[..|b| - 1];
      CpuSumCat(a, b[..|b| - 1]);
    }
  }

  predicate Measured(jobs: seq<JobReport>, i: int) { 0 <= i < |jobs| && jobs[i].usage.Some? }

  /** The peak is the greatest of the jobs' peaks, and where nothing overflows no more than their sum. */
  lemma {:induction false} PeakIsGreatest(jobs: seq<JobReport>)
    ensures forall i | Measured(jobs, i) :: jobs[i].usage.value.peakMemory <= Greatest(jobs)
    ensures Greatest(jobs) > 0 ==> exists i | Measured(jobs, i) :: jobs[i].usage.value.peakMemory == Greatest(jobs)
    ensures Greatest(jobs) <= Sum(jobs, (u: Usage) => u.peakMemory)
  {
    if jobs != [] {
      var n := |jobs| - 1;
      var front := jobs[..n];
      PeakIsGreatest(front);
      assert forall i | 0 <= i < n :: front[i] == jobs[i];
      assert forall i | Measured(front, i) :: Measured(jobs, i);
      assert forall i | Measured(jobs, i) :: i == n || Measured(front, i);
    }
  }

  // ---- the wall clock -----------------------------------------------------------------

  predicate Ran(j: JobReport) { j.startedAt != 0 && j.finishedAt != 0 }

  predicate RanAt(jobs: seq<JobReport>, i: int) { 0 <= i < |jobs| && Ran(jobs[i]) }

  /** The running window, 0 and 0 before the first job that ran. */
  function Window(jobs: seq<JobReport>): (nat, nat) {
    if jobs == [] then (0, 0) else
    var (start, end) := Window(jobs[..|jobs| - 1]);
    var j := jobs[|jobs| - 1];
    if !Ran(j) then (start, end) else
    (if start == 0 || j.startedAt < start then j.startedAt else start,
     if j.finishedAt > end then j.finishedAt else end)
  }

  function WallClockOf(jobs: seq<JobReport>): Option<nat> {
    var (start, end) := Window(jobs);
    if start == 0 || end <= start then None else Some(end - start)
  }

  ghost predicate Earliest(jobs: seq<JobReport>, t: nat) {
    && (exists i | RanAt(jobs, i) :: jobs[i].startedAt == t)
    && (forall i | RanAt(jobs, i) :: t <= jobs[i].startedAt)
  }

  ghost predicate Latest(jobs: seq<JobReport>, t: nat) {
    && (exists i | RanAt(jobs, i) :: jobs[i].finishedAt == t)
    && (forall i | RanAt(jobs, i) :: jobs[i].finishedAt <= t)
  }

  lemma OneMoreJob(jobs: seq<JobReport>, j: JobReport, s: nat, e: nat)
    requires Earliest(jobs, s) && Latest(jobs, e)
    ensures var s' := if Ran(j) && j.startedAt < s then j.startedAt else s; Earliest(jobs + [j], s')
    ensures var e' := if Ran(j) && j.finishedAt > e then j.finishedAt else e; Latest(jobs + [j], e')
  {
    var more := jobs + [j];
    assert forall i :: RanAt(more, i) <==> RanAt(jobs, i) || (i == |jobs| && Ran(j));
    assert forall i | RanAt(jobs, i) :: more[i] == jobs[i];
    var first :| RanAt(jobs, first) && jobs[first].startedAt == s;
    var last :| RanAt(jobs, last) && jobs[last].finishedAt == e;
    assert RanAt(more, first) && RanAt(more, last) && more[|jobs|] == j;
  }

  lemma FirstJob(jobs: seq<JobReport>, j: JobReport)
    requires forall i :: !RanAt(jobs, i)
    ensures if Ran(j) then Earliest(jobs + [j], j.startedAt) && Latest(jobs + [j], j.finishedAt)
            else forall i :: !RanAt(jobs + [j], i)
  {
    var more := jobs + [j];
    assert forall i :: RanAt(more, i) <==> RanAt(jobs, i) || (i == |jobs| && Ran(j));
    assert RanAt(more, |jobs|) <==> Ran(j);
  }

  lemma {:induction false} WindowIs(jobs: seq<JobReport>)
    ensures var (start, end) := Window(jobs);
            if start == 0 then end == 0 && forall i :: !RanAt(jobs, i)
            else Earliest(jobs, start) && Latest(jobs, end)
  {
    hide Earliest, Latest;
    if jobs != [] {
      var front, j := jobs[..|jobs| - 1], jobs[|jobs| - 1];
      assert jobs == front + [j];
      WindowIs(front);
      var (start, end) := Window(front);
      if start == 0 {
        FirstJob(front, j);
      } else {
        OneMoreJob(front, j, start, end);
      }
    }
  }

  /** From the earliest start to the latest finish of the jobs that ran; nothing when none ran, or
      when no time passed between the two. */
  lemma WallClockIs(jobs: seq<JobReport>)
    ensures var span := WallClockOf(jobs);
            if span.Some? then
              span.value > 0 && exists s: nat, e: nat :: Earliest(jobs, s) && Latest(jobs, e) && span.value == e - s
            else forall i, k | RanAt(jobs, i) && RanAt(jobs, k) :: jobs[k].finishedAt <= jobs[i].startedAt
  {
    WindowIs(jobs);
  }

  method WallClock(jobs: seq<JobReport>) returns (span: Option<nat>)
    ensures span == WallClockOf(jobs)
  {
    var start, end := 0, 0;
    for n := 0 to |jobs|
      invariant (start, end) == Window(jobs[..n])
    {
      var j := jobs[n];
      assert jobs[..n + 1][..n] == jobs[..n];
      if j.startedAt == 0 || j.finishedAt == 0 {
        continue;
      }
      if start == 0 || j.startedAt < start {
        start := j.startedAt;
      }
      if j.finishedAt > end {
        end := j.finishedAt;
      }
    }
    assert jobs[..|jobs|] == jobs;
    if start == 0 || end <= start {
      return None;
    }
    return Some(end - start);
  }
}
