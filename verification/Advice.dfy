/** internal/advice and internal/reporter/advise.go: the rules, the engine and the job loop
    that fetches a trace only where a rule asks for it. */
module Advice {
  import opened Text
  import T = Totals

  type Usage = T.Usage

  datatype Facts = Facts(stage: string, name: string, duration: int, usage: Option<Usage>, trace: string)

  datatype Thresholds = Thresholds(throttleWarn: real, longJob: int, memoryPressure: real)

  datatype Advice = Advice(job: string, rule: string, title: string, body: string)

  datatype Rule = CpuThrottle | JavaThreads | LongJob | MemoryPressure

  /** What is left to the texts: the build tool that a non-empty trace shows, and the title and
      body of a finding, which see the tool, the usage and the duration but not the trace. */
  datatype Prose = Prose(tool: string -> Option<string>,
                         text: (Rule, string, Option<Usage>, int, Thresholds) -> (string, string))

  datatype Engine = Engine(rules: seq<Rule>, th: Thresholds, prose: Prose)

  predicate Throttled(f: Facts, t: Thresholds) {
    f.usage.Some? && t.throttleWarn > 0.0 && f.usage.value.throttled >= t.throttleWarn
  }

  function DetectBuildTool(trace: string, p: Prose): Option<string> {
    if trace == "" then None else p.tool(trace)
  }

  predicate Pressed(f: Facts, t: Thresholds) {
    f.usage.Some? && f.usage.value.memoryLimit != 0 && t.memoryPressure > 0.0 &&
    (f.usage.value.peakMemory as real) / (f.usage.value.memoryLimit as real) >= t.memoryPressure
  }

  function RuleName(r: Rule): string {
    match r
    case CpuThrottle => "cpu-throttle"
    case JavaThreads => "java-threads"
    case LongJob => "long-job"
    case MemoryPressure => "memory-pressure"
  }

  function Finding(r: Rule, tool: string, f: Facts, e: Engine): seq<Advice> {
    var (title, body) := e.prose.text(r, tool, f.usage, f.duration, e.th);
    [Advice(f.name, RuleName(r), title, body)]
  }

  function Check(r: Rule, f: Facts, e: Engine): seq<Advice> {
    match r
    case CpuThrottle => if Throttled(f, e.th) then Finding(r, "", f, e) else []
    case JavaThreads =>
      if !Throttled(f, e.th) then [] else
      (match DetectBuildTool(f.trace, e.prose)
       case None => []
       case Some(tool) => Finding(r, tool, f, e))
    case LongJob =>
      if e.th.longJob <= 0 || f.duration <= e.th.longJob then [] else Finding(r, "", f, e)
    case MemoryPressure => if Pressed(f, e.th) then Finding(r, "", f, e) else []
  }

  /** Only JavaThreads is a consumer of traces. */
  predicate RuleNeedsTrace(r: Rule, f: Facts, t: Thresholds) { r == JavaThreads && Throttled(f, t) }

  predicate NeedsTrace(e: Engine, f: Facts) { exists r | r in e.rules :: RuleNeedsTrace(r, f, e.th) }

  function Checks(rules: seq<Rule>, f: Facts, e: Engine): seq<Advice> {
    if rules == [] then [] else Checks(rules[..|rules| - 1], f, e) + Check(rules[|rules| - 1], f, e)
  }

  method Analyze(e: Engine, f: Facts) returns (out: seq<Advice>)
    ensures out == Checks(e.rules, f, e)
  {
    hide Check;
    out := [];
    for i := 0 to |e.rules|
      invariant out == Checks(e.rules[..i], f, e)
    {
      assert e.rules[..i + 1][..i] == e.rules[..i];
      out := out + Check(e.rules[i], f, e);
    }
    assert e.rules[..|e.rules|] == e.rules;
  }

  // ---- jobs ----------------------------------------------------------------------

  /** Times are seconds since the zero time, which is the time of a job that never started or finished. */
  datatype Job = Job(id: int, stage: string, name: string, startedAt: nat, finishedAt: nat)

  predicate Ran(j: Job) { j.startedAt != 0 && j.finishedAt != 0 }

  function ById(jobs: seq<Job>, id: int): Option<Job> {
    if jobs == [] then None else if jobs[0].id == id then Some(jobs[0]) else ById(jobs[1..], id)
  }

  function ByName(jobs: seq<Job>, name: string): Option<Job> {
    if jobs == [] then None else if jobs[0].name == name then Some(jobs[0]) else ByName(jobs[1..], name)
  }

  function FindJob(jobs: seq<Job>, sel: string): Option<Job> {
    if sel == "" then None
    else if ParseInt(sel).ok && ById(jobs, ParseInt(sel).value).Some? then ById(jobs, ParseInt(sel).value)
    else ByName(jobs, sel)
  }

  /** One call's answers: the job list, the usage of a job's pod, and a job's trace; None where
      the call fails or finds nothing. */
  datatype Source = Source(jobs: Option<seq<Job>>, usage: Job -> Option<Usage>, trace: Job -> Option<string>)

  datatype AdviseResult = Found(all: seq<Advice>) | JobNotFound | ListFailed

  function BareFacts(j: Job, s: Source): Facts {
    Facts(j.stage, j.name, j.finishedAt - j.startedAt, s.usage(j), "")
  }

  function WithTrace(f: Facts, trace: Option<string>): Facts {
    if trace.Some? then f.(trace := trace.value) else f
  }

  function JobAdvice(j: Job, s: Source, e: Engine): seq<Advice> {
    if !Ran(j) then [] else
    var f := BareFacts(j, s);
    Checks(e.rules, if NeedsTrace(e, f) then WithTrace(f, s.trace(j)) else f, e)
  }

  /** The same with every ran job's trace fetched. */
  function EagerJobAdvice(j: Job, s: Source, e: Engine): seq<Advice> {
    if !Ran(j) then [] else Checks(e.rules, WithTrace(BareFacts(j, s), s.trace(j)), e)
  }

  function AdviceOf(jobs: seq<Job>, advise: Job -> seq<Advice>): seq<Advice> {
    if jobs == [] then [] else AdviceOf(jobs[..|jobs| - 1], advise) + advise(jobs[|jobs| - 1])
  }

  function Selected(s: Source, filter: string): Option<seq<Job>>
    requires s.jobs.Some?
  {
    if filter == "" then s.jobs else
    match FindJob(s.jobs.value, filter)
    case None => None
    case Some(j) => Some([j])
  }

  function AdviseBy(s: Source, filter: string, advise: Job -> seq<Advice>): AdviseResult {
    if s.jobs.None? then ListFailed
    else if Selected(s, filter).None? then JobNotFound
    else Found(AdviceOf(Selected(s, filter).value, advise))
  }

  function Fetches(jobs: seq<Job>, s: Source, e: Engine): seq<Job> {
    if jobs == [] then [] else
    var j := jobs[|jobs| - 1];
    Fetches(jobs[..|jobs| - 1], s, e) + if Ran(j) && NeedsTrace(e, BareFacts(j, s)) then [j] else []
  }

  /** fetched lists the jobs whose trace was asked of GitLab, in order. */
  method Advise(s: Source, filter: string, e: Engine) returns (r: AdviseResult, fetched: seq<Job>)
    ensures r == AdviseBy(s, filter, j => JobAdvice(j, s, e))
    ensures fetched == if r.Found? then Fetches(Selected(s, filter).value, s, e) else []
  {
    fetched := [];
    if s.jobs.None? {
      return ListFailed, [];
    }
    var jobs := s.jobs.value;
    if filter != "" {
      var j := FindJob(jobs, filter);
      if j.None? {
        return JobNotFound, [];
      }
      jobs := [j.value];
    }
    var lazy := (j: Job) => JobAdvice(j, s, e);
    var out := [];
    for i := 0 to |jobs|
      invariant out == AdviceOf(jobs[..i], lazy)
      invariant fetched == Fetches(jobs[..i], s, e)
    {
      var job := jobs[i];
      assert jobs[..i + 1][..i] == jobs[..i];
      if !Ran(job) {
        continue;
      }
      var f := BareFacts(job, s);
      if NeedsTrace(e, f) {
        fetched := fetched + [job];
        var trace := s.trace(job);
        if trace.Some? {
          f := f.(trace := trace.value);
        }
      }
      var found := Analyze(e, f);
      out := out + found;
    }
    assert jobs[..|jobs|] == jobs;
    r := Found(out);
  }

  // ---- lazy is eager ---------------------------------------------------------------

  /** A rule that does not ask for the trace does not look at it. */
  lemma TraceIgnored(r: Rule, f: Facts, trace: string, e: Engine)
    requires !RuleNeedsTrace(r, f, e.th)
    ensures Check(r, f.(trace := trace), e) == Check(r, f, e)
  {
  }

  lemma {:induction false} TracesIgnored(rules: seq<Rule>, f: Facts, trace: string, e: Engine)
    requires forall r | r in rules :: !RuleNeedsTrace(r, f, e.th)
    ensures Checks(rules, f.(trace := trace), e) == Checks(rules, f, e)
  {
    if rules != [] {
      TracesIgnored(rules[..|rules| - 1], f, trace, e);
      TraceIgnored(rules[|rules| - 1], f, trace, e);
    }
  }

  lemma JobLazyIsEager(j: Job, s: Source, e: Engine)
    ensures JobAdvice(j, s, e) == EagerJobAdvice(j, s, e)
  {
    var f := BareFacts(j, s);
    if Ran(j) && !NeedsTrace(e, f) && s.trace(j).Some? {
      TracesIgnored(e.rules, f, s.trace(j).value, e);
    }
  }

  lemma {:induction false} AdviceOfSame(jobs: seq<Job>, a: Job -> seq<Advice>, b: Job -> seq<Advice>)
    requires forall j | j in jobs :: a(j) == b(j)
    ensures AdviceOf(jobs, a) == AdviceOf(jobs, b)
  {
    if jobs != [] {
      AdviceOfSame(jobs[..|jobs| - 1], a, b);
    }
  }

  /** Whatever rules are selected and whichever calls fail, fetching a trace only where a rule
      asks for it gives the advice that fetching every trace would give. */
  lemma LazyIsEager(s: Source, filter: string, e: Engine)
    ensures AdviseBy(s, filter, j => JobAdvice(j, s, e)) == AdviseBy(s, filter, j => EagerJobAdvice(j, s, e))
  {
    if s.jobs.Some? && Selected(s, filter).Some? {
      var jobs := Selected(s, filter).value;
      forall j | j in jobs
        ensures JobAdvice(j, s, e) == EagerJobAdvice(j, s, e)
      {
        JobLazyIsEager(j, s, e);
      }
      AdviceOfSame(jobs, j => JobAdvice(j, s, e), j => EagerJobAdvice(j, s, e));
    }
  }

  // ---- the whole is the sum of the jobs --------------------------------------------

  predicate DistinctIds(jobs: seq<Job>) {
    forall a, b | 0 <= a < b < |jobs| :: jobs[a].id != jobs[b].id
  }

  lemma {:induction false} ByIdFinds(jobs: seq<Job>, k: nat)
    requires k < |jobs| && DistinctIds(jobs)
    ensures ById(jobs, jobs[k].id) == Some(jobs[k])
  {
    if k > 0 {
      assert jobs[0].id != jobs[k].id;
      ByIdFinds(jobs[1..], k - 1);
    }
  }

  lemma FindJobById(jobs: seq<Job>, k: nat)
    requires k < |jobs| && DistinctIds(jobs) && MIN_INT64 <= jobs[k].id <= MAX_INT64
    ensures FindJob(jobs, DecInt(jobs[k].id)) == Some(jobs[k])
  {
    ParseIntOfDec(jobs[k].id);
    ByIdFinds(jobs, k);
    assert DecInt(jobs[k].id) != "";
  }

  predicate Numbered(j: Job, sel: string) { ParseInt(sel).ok && j.id == ParseInt(sel).value }

  /** A selector picks the first job with that number, else the first with that name, else none. */
  lemma FindJobIs(jobs: seq<Job>, sel: string) returns (k: nat)
    requires sel != ""
    ensures FindJob(jobs, sel) == if k < |jobs| then Some(jobs[k]) else None
    ensures if exists i | 0 <= i < |jobs| :: Numbered(jobs[i], sel) then
              k < |jobs| && Numbered(jobs[k], sel) && forall i | 0 <= i < k :: !Numbered(jobs[i], sel)
            else
              k <= |jobs| && (k < |jobs| ==> jobs[k].name == sel) && forall i | 0 <= i < k :: jobs[i].name != sel
  {
    var n := ByIdIs(jobs, ParseInt(sel).value);
    var m := ByNameIs(jobs, sel);
    k := if ParseInt(sel).ok && n < |jobs| then n else m;
  }

  lemma {:induction false} ByIdIs(jobs: seq<Job>, id: int) returns (k: nat)
    ensures k <= |jobs| && (forall i | 0 <= i < k :: jobs[i].id != id) && (k < |jobs| ==> jobs[k].id == id)
    ensures ById(jobs, id) == if k < |jobs| then Some(jobs[k]) else None
  {
    if jobs == [] || jobs[0].id == id {
      k := 0;
    } else {
      k := ByIdIs(jobs[1..], id);
      k := k + 1;
    }
  }

  lemma {:induction false} ByNameIs(jobs: seq<Job>, name: string) returns (k: nat)
    ensures k <= |jobs| && (forall i | 0 <= i < k :: jobs[i].name != name) && (k < |jobs| ==> jobs[k].name == name)
    ensures ByName(jobs, name) == if k < |jobs| then Some(jobs[k]) else None
  {
    if jobs == [] || jobs[0].name == name {
      k := 0;
    } else {
      k := ByNameIs(jobs[1..], name);
      k := k + 1;
    }
  }

  /** The advice about one job, asked for by its number. */
  function AdviceById(s: Source, advise: Job -> seq<Advice>): Job -> seq<Advice> {
    (j: Job) => var r := AdviseBy(s, DecInt(j.id), advise); if r.Found? then r.all else []
  }

  /** Asking about the pipeline is asking about each job by its number, in order. */
  lemma AdviseIsSumOfJobs(s: Source, advise: Job -> seq<Advice>)
    requires s.jobs.Some? && DistinctIds(s.jobs.value)
    requires forall j | j in s.jobs.value :: MIN_INT64 <= j.id <= MAX_INT64
    ensures AdviseBy(s, "", advise) == Found(AdviceOf(s.jobs.value, AdviceById(s, advise)))
    ensures forall j | j in s.jobs.value :: AdviseBy(s, DecInt(j.id), advise) == Found(advise(j))
  {
    var jobs := s.jobs.value;
    forall k | 0 <= k < |jobs|
      ensures AdviseBy(s, DecInt(jobs[k].id), advise) == Found(advise(jobs[k]))
    {
      FindJobById(jobs, k);
      assert DecInt(jobs[k].id) != "";
      var j := jobs[k];
      assert Selected(s, DecInt(j.id)) == Some([j]);
      assert [j][..0] == [];
      assert AdviceOf([j], advise) == [] + advise(j);
    }
    AdviceOfSame(jobs, advise, AdviceById(s, advise));
  }

  // ---- order ----------------------------------------------------------------------------

  /** The advice about jobs that follow others follows theirs, and that about one job is the job's. */
  lemma {:induction false} AdviceOfCat(a: seq<Job>, b: seq<Job>, advise: Job -> seq<Advice>)
    ensures AdviceOf(a + b, advise) == AdviceOf(a, advise) + AdviceOf(b, advise)
    ensures AdviceOf([], advise) == []
    ensures forall j :: AdviceOf([j], advise) == advise(j)
    decreases |b|
  {
    forall j
      ensures AdviceOf([j], advise) == advise(j)
    {
      assert [j][..0] == [];
    }
    if b == [] {
      assert a + b == a;
    } else {
      assert (a + b)[..|a + b| - 1] == a + b[..|b| - 1];
      AdviceOfCat(a, b[..|b| - 1], advise);
    }
  }

  /** Job k's advice stands where that of the jobs before it ends. */
  lemma AdviceInPlace(jobs: seq<Job>, k: nat, advise: Job -> seq<Advice>)
    requires k < |jobs|
    ensures AdviceOf(jobs, advise) ==
            AdviceOf(jobs[..k], advise) + advise(jobs[k]) + AdviceOf(jobs[k + 1..], advise)
  {
    hide AdviceOf;
    assert jobs == jobs[..k] + ([jobs[k]] + jobs[k + 1..]);
    AdviceOfCat(jobs[..k], [jobs[k]] + jobs[k + 1..], advise);
    AdviceOfCat([jobs[k]], jobs[k + 1..], advise);
  }

  /** The rules' findings stand in the order of the rules. */
  lemma {:induction false} ChecksCat(a: seq<Rule>, b: seq<Rule>, f: Facts, e: Engine)
    ensures Checks(a + b, f, e) == Checks(a, f, e) + Checks(b, f, e)
    ensures Checks([], f, e) == []
    ensures forall r :: Checks([r], f, e) == Check(r, f, e)
    decreases |b|
  {
    hide Check;
    forall r
      ensures Checks([r], f, e) == Check(r, f, e)
    {
      assert [r][..0] == [];
    }
    if b == [] {
      assert a + b == a;
    } else {
      assert (a + b)[..|a + b| - 1] == a + b[..|b| - 1];
      ChecksCat(a, b[..|b| - 1], f, e);
    }
  }

  // ---- when a rule speaks, and about whom -------------------------------------------------

  predicate IsThrottled(u: Option<Usage>, warn: real) { u.Some? && warn > 0.0 && u.value.throttled >= warn }

  /** The condition under which each rule has something to say about a job with that usage, duration
      and trace. */
  predicate Speaks(r: Rule, u: Option<Usage>, seconds: int, trace: string, e: Engine) {
    match r
    case CpuThrottle => IsThrottled(u, e.th.throttleWarn)
    case JavaThreads => IsThrottled(u, e.th.throttleWarn) && trace != "" && e.prose.tool(trace).Some?
    case LongJob => 0 < e.th.longJob < seconds
    case MemoryPressure =>
      u.Some? && u.value.memoryLimit > 0 && e.th.memoryPressure > 0.0 &&
      u.value.peakMemory as real >= e.th.memoryPressure * u.value.memoryLimit as real
  }

  lemma PressedIff(f: Facts, t: Thresholds)
    ensures Pressed(f, t) <==>
            && f.usage.Some? && f.usage.value.memoryLimit > 0 && t.memoryPressure > 0.0
            && f.usage.value.peakMemory as real >= t.memoryPressure * f.usage.value.memoryLimit as real
  {
    if f.usage.Some? && f.usage.value.memoryLimit > 0 {
      var limit := f.usage.value.memoryLimit as real;
      var ratio := f.usage.value.peakMemory as real / limit;
      assert ratio * limit == f.usage.value.peakMemory as real;
      assert (ratio - t.memoryPressure) * limit == f.usage.value.peakMemory as real - t.memoryPressure * limit;
      assert ratio > t.memoryPressure ==> (ratio - t.memoryPressure) * limit > 0.0;
      assert ratio < t.memoryPressure ==> (ratio - t.memoryPressure) * limit < 0.0;
    }
  }

  /** A rule has exactly one finding, under the job's name and its own and with its text for that usage,
      duration and build tool, when its condition holds, and none otherwise. */
  lemma CheckIff(r: Rule, f: Facts, e: Engine)
    ensures |Check(r, f, e)| == if Speaks(r, f.usage, f.duration, f.trace, e) then 1 else 0
    ensures forall a | a in Check(r, f, e) ::
              && a.job == f.name
              && a.rule == match r {
                             case CpuThrottle => "cpu-throttle"
                             case JavaThreads => "java-threads"
                             case LongJob => "long-job"
                             case MemoryPressure => "memory-pressure"
                           }
              && var tool := if r == JavaThreads then e.prose.tool(f.trace).value else "";
                 (a.title, a.body) == e.prose.text(r, tool, f.usage, f.duration, e.th)
  {
    PressedIff(f, e.th);
  }

  /** So rule r says something about job j of the pipeline exactly when the job ran and the rule's
      condition holds of its usage, its running time and its trace, if the trace can be fetched. */
  lemma JobAdviceIff(j: Job, s: Source, e: Engine, k: nat)
    requires k < |e.rules|
    ensures !Ran(j) ==> JobAdvice(j, s, e) == []
    ensures Ran(j) ==>
              exists f: Facts ::
                && f.name == j.name && f.stage == j.stage && f.usage == s.usage(j)
                && f.duration == j.finishedAt - j.startedAt
                && f.trace == (if s.trace(j).Some? then s.trace(j).value else "")
                && JobAdvice(j, s, e) ==
                   Checks(e.rules[..k], f, e) + Check(e.rules[k], f, e) + Checks(e.rules[k + 1..], f, e)
  {
    hide Check, Checks;
    if Ran(j) {
      var f := WithTrace(BareFacts(j, s), s.trace(j));
      JobLazyIsEager(j, s, e);
      var front, rest := e.rules[..k], e.rules[k + 1..];
      assert e.rules == front + ([e.rules[k]] + rest);
      ChecksCat(front, [e.rules[k]] + rest, f, e);
      ChecksCat([e.rules[k]], rest, f, e);
    }
  }

  // ---- whose advice -----------------------------------------------------------------------------

  /** No job has that number or name. */
  predicate Nobody(jobs: seq<Job>, sel: string) {
    forall i | 0 <= i < |jobs| :: !Numbered(jobs[i], sel) && jobs[i].name != sel
  }

  /** Without a filter the advice is about every listed job, and with one about the one job it picks;
      it fails exactly when the listing does, or the filter picks nobody. */
  lemma AdviseByIs(s: Source, filter: string, advise: Job -> seq<Advice>) returns (k: nat)
    ensures AdviseBy(s, filter, advise).ListFailed? <==> s.jobs.None?
    ensures AdviseBy(s, filter, advise).JobNotFound? <==> s.jobs.Some? && filter != "" && Nobody(s.jobs.value, filter)
    ensures s.jobs.Some? && filter == "" ==> AdviseBy(s, filter, advise) == Found(AdviceOf(s.jobs.value, advise))
    ensures s.jobs.Some? && filter != "" && !Nobody(s.jobs.value, filter) ==>
              var jobs := s.jobs.value;
              && k < |jobs| && FindJob(jobs, filter) == Some(jobs[k])
              && AdviseBy(s, filter, advise) == Found(advise(jobs[k]))
  {
    hide FindJob, AdviceOf;
    k := 0;
    if s.jobs.Some? && filter != "" {
      var jobs := s.jobs.value;
      k := FindJobIs(jobs, filter);
      if k < |jobs| {
        AdviceOfCat([jobs[k]], [], advise);
      }
    }
  }

  lemma {:induction false} FetchesCat(a: seq<Job>, b: seq<Job>, s: Source, e: Engine)
    ensures Fetches(a + b, s, e) == Fetches(a, s, e) + Fetches(b, s, e)
    ensures forall j :: |Fetches([j], s, e)| <= 1
    decreases |b|
  {
    hide NeedsTrace;
    forall j
      ensures |Fetches([j], s, e)| <= 1
    {
      assert [j][..0] == [];
    }
    if b == [] {
      assert a + b == a;
    } else {
      assert (a + b)[..|a + b| - 1] == a + b[..|b| - 1];
      FetchesCat(a, b[..|b| - 1], s, e);
    }
  }

  // ---- no trace is fetched in vain ------------------------------------------------------------

  /** The traces that are asked for are those of the throttled jobs that ran, if the rule about Java
      is selected, and no others. */
  lemma {:induction false} FetchesIff(jobs: seq<Job>, s: Source, e: Engine, j: Job)
    ensures j in Fetches(jobs, s, e) <==>
            j in jobs && Ran(j) && JavaThreads in e.rules && IsThrottled(s.usage(j), e.th.throttleWarn)
  {
    if jobs != [] {
      var front, last := jobs[..|jobs| - 1], jobs[|jobs| - 1];
      FetchesIff(front, s, e, j);
      assert jobs == front + [last];
      assert NeedsTrace(e, BareFacts(last, s)) <==>
             JavaThreads in e.rules && IsThrottled(s.usage(last), e.th.throttleWarn);
    }
  }
}
