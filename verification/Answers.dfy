/** What a command is answered, told from the services' answers alone
    (internal/command/handler.go: Handle, advise, reply, details). */
module Answers {
  import opened Text
  import opened Command
  import opened Marker
  import opened Advice
  import opened AdviceRender
  import opened Threads
  import opened Handler

  // ---- the pod and the window -----------------------------------------------------------

  /** Job k of the list decides about a job target: it is the first of that name. */
  predicate FirstOfName(jobs: seq<Job>, k: int, name: string) {
    0 <= k < |jobs| && jobs[k].name == name && forall i | 0 <= i < k :: jobs[i].name != name
  }

  /** Job k of the list decides about a pod target: it ran, and is the first whose pod is that one
      or cannot be looked up. */
  predicate FirstOnPod(jobs: seq<Job>, k: int, name: string, project: int, b: Backend) {
    0 <= k < |jobs| && !Passed(jobs[k], name, project, b) && forall i | 0 <= i < k :: Passed(jobs[i], name, project, b)
  }

  /** The target is that pod over that window. */
  ghost predicate Charted(c: Command, project: int, jobs: seq<Job>, b: Backend, pod: string, start: int, end: int) {
    if c.target == Target.Job then
      exists k | FirstOfName(jobs, k, c.name) ::
        RanOn(jobs[k], pod, project, b) && start == jobs[k].startedAt && end == jobs[k].finishedAt
    else
      pod == c.name &&
      exists k | FirstOnPod(jobs, k, c.name, project, b) ::
        RanOn(jobs[k], pod, project, b) &&
        (b.span(pod) == Ok(Some((start, end))) ||
         (b.span(pod) == Ok(None) && start == jobs[k].startedAt && end == jobs[k].finishedAt))
  }

  /** The target is not part of the pipeline's report: the first job of that name never ran or has no
      pod, or there is none; no job that ran did so on the pod, and every look-up says so. */
  ghost predicate Missing(c: Command, project: int, jobs: seq<Job>, b: Backend) {
    if c.target == Target.Job then
      forall k | FirstOfName(jobs, k, c.name) :: !Ran(jobs[k]) || b.pod(project, jobs[k]) == Ok(None)
    else forall k | 0 <= k < |jobs| :: Passed(jobs[k], c.name, project, b)
  }

  lemma OneFirstOfName(jobs: seq<Job>, k: int, name: string)
    requires 0 <= k <= |jobs| && forall i | 0 <= i < k :: jobs[i].name != name
    requires k < |jobs| ==> jobs[k].name == name
    ensures forall i :: FirstOfName(jobs, i, name) <==> i == k < |jobs|
  {
  }

  lemma OneFirstOnPod(jobs: seq<Job>, k: int, name: string, project: int, b: Backend)
    requires 0 <= k <= |jobs| && forall i | 0 <= i < k :: Passed(jobs[i], name, project, b)
    requires k < |jobs| ==> !Passed(jobs[k], name, project, b)
    ensures forall i :: FirstOnPod(jobs, i, name, project, b) <==> i == k < |jobs|
  {
    hide Passed;
  }

  /** The resolution asks about the jobs of that pipeline of that project, and about nothing else. */
  lemma ResolveIff(project: int, pipeline: int, c: Command, b: Backend)
    ensures var r := Resolve(project, pipeline, c, b);
            var listed := b.jobs(project, pipeline);
            && (forall pod, start, end ::
                  r == At(pod, start, end) <==> listed.Ok? && Charted(c, project, listed.value, b, pod, start, end))
            && (r.NotInReport? <==> listed.Ok? && Missing(c, project, listed.value, b))
  {
    if b.jobs(project, pipeline).Ok? {
      var jobs := b.jobs(project, pipeline).value;
      if c.target == Target.Job {
        ByNameIff(jobs, c, project, b);
      } else {
        ByPodIff(jobs, c, project, b);
      }
    }
  }

  lemma ByNameIff(jobs: seq<Job>, c: Command, project: int, b: Backend)
    requires c.target == Target.Job
    ensures var r := ResolveJob(jobs, c.name, project, b);
            && (forall pod, start, end :: r == At(pod, start, end) <==> Charted(c, project, jobs, b, pod, start, end))
            && (r.NotInReport? <==> Missing(c, project, jobs, b))
  {
    hide FirstOfName, ResolveJob;
    var k := ResolvedJob(jobs, c.name, project, b);
    OneFirstOfName(jobs, k, c.name);
    assert k < |jobs| ==> FirstOfName(jobs, k, c.name);
  }

  lemma ByPodIff(jobs: seq<Job>, c: Command, project: int, b: Backend)
    requires c.target != Target.Job
    ensures var r := ResolvePod(jobs, c.name, project, b);
            && (forall pod, start, end :: r == At(pod, start, end) <==> Charted(c, project, jobs, b, pod, start, end))
            && (r.NotInReport? <==> Missing(c, project, jobs, b))
  {
    hide FirstOnPod, ResolvePod;
    var k := ResolvedPod(jobs, c.name, project, b);
    OneFirstOnPod(jobs, k, c.name, project, b);
    assert k < |jobs| ==> FirstOnPod(jobs, k, c.name, project, b);
  }

  // ---- the text ---------------------------------------------------------------------------

  ghost predicate IsDetails(text: string, c: Command, project: int, pipeline: int, b: Backend) {
    var listed := b.jobs(project, pipeline);
    listed.Ok? &&
    ((exists pod, start, end, charts ::
        Charted(c, project, listed.value, b, pod, start, end) && b.charts(pod, start, end) == Ok(Some(charts)) &&
        text == "### Resource usage for `" + c.name + "`\n\n" + charts) ||
     (exists pod, start, end ::
        Charted(c, project, listed.value, b, pod, start, end) && b.charts(pod, start, end) == Ok(None) &&
        text == "No metrics found for `" + c.name + "` in the report window.") ||
     (Missing(c, project, listed.value, b) && IsNotPart(text, c, pipeline)))
  }

  predicate IsNotPart(text: string, c: Command, pipeline: int) {
    text == "`" + c.name + "` is not part of pipeline #" + DecInt(pipeline) + "'s report."
  }

  /** Charts come exactly from the pod and window of the target, and each refusal exactly in its case. */
  lemma DetailsIff(c: Command, project: int, pipeline: int, b: Backend, text: string)
    requires c.kind == Details
    ensures AnswerTo(c, project, pipeline, b) == Ok(text) <==> IsDetails(text, c, project, pipeline, b)
  {
    hide Resolve, Charted, Missing;
    ResolveIff(project, pipeline, c, b);
    var r := Resolve(project, pipeline, c, b);
    if r.At? {
      assert Charted(c, project, b.jobs(project, pipeline).value, b, r.pod, r.start, r.end);
    }
  }

  /** Advice is exactly what the advisor says of that pipeline and name. */
  lemma AdviseIff(c: Command, project: int, pipeline: int, b: Backend, text: string)
    requires c.kind == Kind.Advise
    ensures AnswerTo(c, project, pipeline, b) == Ok(text) <==>
            if !b.hasAdvisor then text == "Advice is not available on this instance."
            else
              var said := b.advise(project, pipeline, c.name);
              (said.JobNotFound? && IsNotPart(text, c, pipeline)) ||
              (said.Found? && text == Rendered(pipeline, said.all))
  {
    hide Rendered;
  }

  /** Help lists the commands, whatever the services say. */
  lemma HelpIs(c: Command, project: int, pipeline: int, b: Backend)
    requires c.kind == Help
    ensures AnswerTo(c, project, pipeline, b) == Ok(
              "**cigar commands**\n\n" +
              "- `help` \U{2014} show this message\n" +
              "- `details job <name>` \U{2014} CPU / memory / network charts for a job in this report\n" +
              "- `details pod <runner-...>` \U{2014} same, for a runner pod in this report\n" +
              "- `details <name>` \U{2014} auto-detects job vs pod\n" +
              "- `advise` \U{2014} recommendations for every job in this report\n" +
              "- `advise <job>` \U{2014} recommendations for one job\n")
  {
  }

  // ---- nothing else is asked ------------------------------------------------------------------

  /** The services say the same about that pipeline of that project. */
  ghost predicate Agree(a: Backend, b: Backend, project: int, pipeline: int) {
    && a.jobs(project, pipeline) == b.jobs(project, pipeline)
    && (forall j :: a.pod(project, j) == b.pod(project, j))
    && (forall pod :: a.span(pod) == b.span(pod))
    && (forall pod, start, end :: a.charts(pod, start, end) == b.charts(pod, start, end))
    && a.hasAdvisor == b.hasAdvisor
    && (forall name :: a.advise(project, pipeline, name) == b.advise(project, pipeline, name))
  }

  lemma {:induction false} ResolveJobAgrees(jobs: seq<Job>, name: string, project: int, pipeline: int,
                                           a: Backend, b: Backend)
    requires Agree(a, b, project, pipeline)
    ensures ResolveJob(jobs, name, project, a) == ResolveJob(jobs, name, project, b)
  {
    if jobs != [] {
      ResolveJobAgrees(jobs[1..], name, project, pipeline, a, b);
    }
  }

  lemma {:induction false} ResolvePodAgrees(jobs: seq<Job>, name: string, project: int, pipeline: int,
                                           a: Backend, b: Backend)
    requires Agree(a, b, project, pipeline)
    ensures ResolvePod(jobs, name, project, a) == ResolvePod(jobs, name, project, b)
  {
    if jobs != [] {
      ResolvePodAgrees(jobs[1..], name, project, pipeline, a, b);
    }
  }

  /** The answer depends on nothing but what the services say about that pipeline of that project. */
  lemma AnswerAgrees(c: Command, project: int, pipeline: int, a: Backend, b: Backend)
    requires Agree(a, b, project, pipeline)
    ensures AnswerTo(c, project, pipeline, a) == AnswerTo(c, project, pipeline, b)
  {
    hide ResolveJob, ResolvePod;
    if a.jobs(project, pipeline).Ok? {
      var jobs := a.jobs(project, pipeline).value;
      ResolveJobAgrees(jobs, c.name, project, pipeline, a, b);
      ResolvePodAgrees(jobs, c.name, project, pipeline, a, b);
    }
  }

  // ---- the reply ----------------------------------------------------------------------------------

  /** A reply is exactly the answer to the command, from the event's project and the pinned pipeline,
      and the marker below it. */
  lemma ReplyIff(ev: NoteEvent, root: Answer<Note>, cfg: Config, b: Backend, pipeline: int, body: string)
    ensures Handle(ev, root, cfg, b) == Reply(pipeline, body) <==>
            Authorized(ev, root, pipeline, cfg) &&
            exists text ::
              AnswerTo(Parse(ev.body).value, ev.project, pipeline, b) == Ok(text) &&
              body == text + "\n\n" + "<!-- ci-resources-bot -->"
    ensures Handle(ev, root, cfg, b).Failed? <==>
            Parse(ev.body).Some? && !Contains(ev.body, PREFIX) &&
            (root.Err? || exists p ::
               Authorized(ev, root, p, cfg) && AnswerTo(Parse(ev.body).value, ev.project, p, b).Err?)
  {
    hide Parse, Contains, AnswerTo, Pins, ParseSigned;
    if root.Ok? {
      forall p
        ensures ParseSigned(root.value.body, cfg.key, cfg.mac) == Some((p, ev.mr)) <==>
                Pins(root.value.body, p, ev.mr, cfg.key, cfg.mac)
      {
        AcceptedIffPinned(root.value.body, p, ev.mr, cfg.key, cfg.mac);
      }
    }
  }
}
