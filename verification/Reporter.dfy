/** internal/reporter/reporter.go, Build and jobUsage: the data of a report. */
module Reporter {
  import opened Text
  import opened Advice
  import opened Report
  import T = Totals

  /** The pod resolver and the metrics store: None where a call fails or finds nothing. */
  datatype Measures = Measures(pod: Job -> Option<string>, usage: (string, int, int) -> Option<Usage>)

  function JobUsage(j: Job, m: Measures): Option<Usage> {
    if !Ran(j) then None else
    match m.pod(j)
    case None => None
    case Some(pod) => m.usage(pod, j.startedAt, j.finishedAt)
  }

  function ReportOf(j: Job, m: Measures): T.JobReport {
    T.JobReport(j.stage, j.name, j.startedAt, j.finishedAt, JobUsage(j, m))
  }

  /** The row tells of that job: its stage, name and times, and the usage of its pod while it ran, if
      it ran, and the pod and the usage could be found. */
  predicate TellsOf(r: T.JobReport, j: Job, m: Measures) {
    && r.stage == j.stage && r.name == j.name && r.startedAt == j.startedAt && r.finishedAt == j.finishedAt
    && r.usage == if j.startedAt != 0 && j.finishedAt != 0 && m.pod(j).Some?
                  then m.usage(m.pod(j).value, j.startedAt, j.finishedAt) else None
  }

  /** The places of the jobs that ran. */
  function RanPlaces(jobs: seq<Job>): set<nat> { set i: nat | i < |jobs| && Ran(jobs[i]) }

  method Build(pipeline: int, listed: Option<seq<Job>>, warnRatio: real, m: Measures) returns (d: Option<Data>)
    ensures d.Some? <==> listed.Some?
    ensures d.Some? ==>
              && d.value.pipeline == pipeline && d.value.warnRatio == warnRatio
              && d.value.status == "" && d.value.noteMarker == ""
              && |d.value.jobs| == |listed.value|
              && (forall i | 0 <= i < |listed.value| :: d.value.jobs[i] == ReportOf(listed.value[i], m))
              && (forall i | 0 <= i < |listed.value| :: TellsOf(d.value.jobs[i], listed.value[i], m))
              && d.value.ranJobs == |RanPlaces(listed.value)|
  {
    if listed.None? {
      return None;
    }
    var jobs := listed.value;
    var ranJobs, reports := 0, [];
    for i := 0 to |jobs|
      invariant |reports| == i && forall k | 0 <= k < i :: reports[k] == ReportOf(jobs[k], m)
      invariant forall k | 0 <= k < i :: TellsOf(reports[k], jobs[k], m)
      invariant ranJobs == |RanPlaces(jobs[..i])|
    {
      RanPlacesMore(jobs, i);
      if jobs[i].startedAt != 0 && jobs[i].finishedAt != 0 {
        ranJobs := ranJobs + 1;
      }
      reports := reports + [ReportOf(jobs[i], m)];
    }
    assert jobs[..|jobs|] == jobs;
    return Some(Data(pipeline, "", reports, warnRatio, ranJobs, ""));
  }

  lemma RanPlacesMore(jobs: seq<Job>, i: nat)
    requires i < |jobs|
    ensures |RanPlaces(jobs[..i + 1])| == |RanPlaces(jobs[..i])| + if Ran(jobs[i]) then 1 else 0
  {
    var fewer, more := RanPlaces(jobs[..i]), RanPlaces(jobs[..i + 1]);
    assert i !in fewer;
    assert more == if Ran(jobs[i]) then fewer + {i} else fewer;
  }

  /** The notice that there is no data stands for the table exactly when some job ran and not one
      that ran could be traced to a pod and measured. */
  lemma NoticeIffNothingMeasured(jobs: seq<Job>, m: Measures, d: Data)
    requires |d.jobs| == |jobs| && forall i | 0 <= i < |jobs| :: d.jobs[i] == ReportOf(jobs[i], m)
    requires d.ranJobs == |RanPlaces(jobs)|
    ensures d.ranJobs > 0 && !HasUsage(d) <==>
              && (exists i | 0 <= i < |jobs| :: Ran(jobs[i]))
              && (forall i | 0 <= i < |jobs| && Ran(jobs[i]) ::
                    var pod := m.pod(jobs[i]);
                    pod.None? || m.usage(pod.value, jobs[i].startedAt, jobs[i].finishedAt).None?)
  {
    if i :| 0 <= i < |jobs| && Ran(jobs[i]) {
      assert i in RanPlaces(jobs);
    } else {
      assert RanPlaces(jobs) == {};
    }
    if i :| 0 <= i < |jobs| && JobUsage(jobs[i], m).Some? {
      assert d.jobs[i] in d.jobs && d.jobs[i].usage.Some?;
      assert Ran(jobs[i]);
    } else {
      forall i | 0 <= i < |jobs|
        ensures d.jobs[i].usage.None?
      {
        assert JobUsage(jobs[i], m).None?;
      }
    }
  }
}
