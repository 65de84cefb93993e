/** internal/command/handler.go: who may command, about which pipeline, and what is answered. */
module Handler {
  import opened Text
  import opened Command
  import opened CommandReject
  import opened Marker
  import opened Report
  import opened Advice
  import opened AdviceRender
  import opened Threads

  datatype NoteEvent = NoteEvent(project: int, mr: int, noteId: int, discussion: nat, body: string)

  datatype Answer<+T> = Ok(value: T) | Err

  /** What the services answer while one command is handled; any call may fail. charts stands for
      the series query, the drawing and the uploads, None for a pod without samples. */
  datatype Backend = Backend(
    jobs: (int, int) -> Answer<seq<Job>>,
    pod: (int, Job) -> Answer<Option<string>>,
    span: string -> Answer<Option<(int, int)>>,
    charts: (string, int, int) -> Answer<Option<string>>,
    hasAdvisor: bool,
    advise: (int, int, string) -> AdviseResult)

  datatype Config = Config(bot: int, key: string, mac: Mac)

  // ---- the target of a details command ------------------------------------------------

  datatype Resolution = At(pod: string, start: int, end: int) | NotInReport | LookupFailed

  function ResolveJob(jobs: seq<Job>, name: string, project: int, b: Backend): Resolution {
    if jobs == [] then NotInReport else
    var j := jobs[0];
    if j.name != name then ResolveJob(jobs[1..], name, project, b)
    else if !Ran(j) then NotInReport
    else match b.pod(project, j)
      case Err => LookupFailed
      case Ok(None) => NotInReport
      case Ok(Some(pod)) => At(pod, j.startedAt, j.finishedAt)
  }

  function ResolvePod(jobs: seq<Job>, name: string, project: int, b: Backend): Resolution {
    if jobs == [] then NotInReport else
    var j := jobs[0];
    if !Ran(j) then ResolvePod(jobs[1..], name, project, b)
    else match b.pod(project, j)
      case Err => LookupFailed
      case Ok(pod) =>
        if pod != Some(name) then ResolvePod(jobs[1..], name, project, b)
        else match b.span(name)
          case Err => LookupFailed
          case Ok(None) => At(name, j.startedAt, j.finishedAt)
          case Ok(Some(span)) => At(name, span.0, span.1)
  }

  function Resolve(project: int, pipeline: int, c: Command, b: Backend): Resolution {
    match b.jobs(project, pipeline)
    case Err => LookupFailed
    case Ok(jobs) =>
      if c.target == Target.Job then ResolveJob(jobs, c.name, project, b) else ResolvePod(jobs, c.name, project, b)
  }

  method ResolveTarget(project: int, pipeline: int, c: Command, b: Backend) returns (r: Resolution)
    ensures r == Resolve(project, pipeline, c, b)
  {
    var listed := b.jobs(project, pipeline);
    if listed.Err? {
      return LookupFailed;
    }
    var jobs := listed.value;
    if c.target == Target.Job {
      for i := 0 to |jobs|
        invariant ResolveJob(jobs, c.name, project, b) == ResolveJob(jobs[i..], c.name, project, b)
      {
        var j := jobs[i];
        assert jobs[i..][1..] == jobs[i + 1..];
        if j.name != c.name {
          continue;
        }
        if !Ran(j) {
          return NotInReport;
        }
        var found := b.pod(project, j);
        if found.Err? {
          return LookupFailed;
        }
        if found.value.None? {
          return NotInReport;
        }
        return At(found.value.value, j.startedAt, j.finishedAt);
      }
      return NotInReport;
    }
    for i := 0 to |jobs|
      invariant ResolvePod(jobs, c.name, project, b) == ResolvePod(jobs[i..], c.name, project, b)
    {
      var j := jobs[i];
      assert jobs[i..][1..] == jobs[i + 1..];
      if !Ran(j) {
        continue;
      }
      var found := b.pod(project, j);
      if found.Err? {
        return LookupFailed;
      }
      if found.value != Some(c.name) {
        continue;
      }
      var active := b.span(c.name);
      if active.Err? {
        return LookupFailed;
      }
      if active.value.None? {
        return At(c.name, j.startedAt, j.finishedAt);
      }
      return At(c.name, active.value.value.0, active.value.value.1);
    }
    return NotInReport;
  }

  /** Whether job j of the list ran on the pod. */
  predicate RanOn(j: Job, pod: string, project: int, b: Backend) { Ran(j) && b.pod(project, j) == Ok(Some(pod)) }

  /** The first job of that name decides: it must have run, and its window is charted. */
  lemma {:induction false} ResolvedJob(jobs: seq<Job>, name: string, project: int, b: Backend) returns (k: nat)
    ensures k <= |jobs| && forall i | 0 <= i < k :: jobs[i].name != name
    ensures k == |jobs| ==> ResolveJob(jobs, name, project, b) == NotInReport
    ensures k < |jobs| ==>
              var j, r := jobs[k], ResolveJob(jobs, name, project, b);
              && j.name == name
              && (r.At? <==> Ran(j) && b.pod(project, j).Ok? && b.pod(project, j).value.Some?)
              && (r.At? ==> RanOn(j, r.pod, project, b) && r == At(r.pod, j.startedAt, j.finishedAt))
              && (r.LookupFailed? <==> Ran(j) && b.pod(project, j).Err?)
  {
    if jobs == [] || jobs[0].name == name {
      k := 0;
    } else {
      k := ResolvedJob(jobs[1..], name, project, b);
      k := k + 1;
    }
  }

  predicate Passed(j: Job, pod: string, project: int, b: Backend) {
    !Ran(j) || (b.pod(project, j).Ok? && b.pod(project, j).value != Some(pod))
  }

  /** The first job that ran on the pod, or whose pod cannot be looked up, decides; the window is
      the pod's active span, or without one the job's. */
  lemma {:induction false} ResolvedPod(jobs: seq<Job>, name: string, project: int, b: Backend) returns (k: nat)
    ensures k <= |jobs| && forall i | 0 <= i < k :: Passed(jobs[i], name, project, b)
    ensures k == |jobs| ==> ResolvePod(jobs, name, project, b) == NotInReport
    ensures k < |jobs| ==>
              var j, r := jobs[k], ResolvePod(jobs, name, project, b);
              && (RanOn(j, name, project, b) || (Ran(j) && b.pod(project, j).Err?))
              && (r.At? <==> RanOn(j, name, project, b) && b.span(name).Ok?)
              && (r.At? ==> r == match b.span(name).value
                                 case Some(span) => At(name, span.0, span.1)
                                 case None => At(name, j.startedAt, j.finishedAt))
              && (!r.At? ==> r == LookupFailed)
  {
    if jobs == [] || !Passed(jobs[0], name, project, b) {
      k := 0;
    } else {
      k := ResolvedPod(jobs[1..], name, project, b);
      k := k + 1;
    }
  }

  /** The pod whose series are drawn ran a job of the report's own pipeline. */
  lemma TargetBelongsToPipeline(project: int, pipeline: int, c: Command, b: Backend)
    ensures var r := Resolve(project, pipeline, c, b);
            r.At? ==>
              && b.jobs(project, pipeline).Ok?
              && exists j | j in b.jobs(project, pipeline).value ::
                   RanOn(j, r.pod, project, b) && (if c.target == Target.Job then j.name else r.pod) == c.name
  {
    if b.jobs(project, pipeline).Ok? {
      var byName := ResolvedJob(b.jobs(project, pipeline).value, c.name, project, b);
      var byPod := ResolvedPod(b.jobs(project, pipeline).value, c.name, project, b);
    }
  }

  // ---- the answers ----------------------------------------------------------------------

  const HELP_TEXT :=
    "**cigar commands**\n\n" +
    "- `help` \U{2014} show this message\n" +
    "- `details job <name>` \U{2014} CPU / memory / network charts for a job in this report\n" +
    "- `details pod <runner-...>` \U{2014} same, for a runner pod in this report\n" +
    "- `details <name>` \U{2014} auto-detects job vs pod\n" +
    "- `advise` \U{2014} recommendations for every job in this report\n" +
    "- `advise <job>` \U{2014} recommendations for one job\n"

  const NO_ADVISOR := "Advice is not available on this instance."

  function NotPart(name: string, pipeline: int): string {
    "`" + name + "` is not part of pipeline #" + DecInt(pipeline) + "'s report."
  }

  function NoMetrics(name: string): string { "No metrics found for `" + name + "` in the report window." }

  function Usage(name: string, charts: string): string { "### Resource usage for `" + name + "`\n\n" + charts }

  /** The text of the one reply; Err when a call it needs fails. */
  function AnswerTo(c: Command, project: int, pipeline: int, b: Backend): Answer<string> {
    match c.kind
    case Help => Ok(HELP_TEXT)
    case Details =>
      (match Resolve(project, pipeline, c, b)
       case LookupFailed => Err
       case NotInReport => Ok(NotPart(c.name, pipeline))
       case At(pod, start, end) =>
         match b.charts(pod, start, end)
         case Err => Err
         case Ok(None) => Ok(NoMetrics(c.name))
         case Ok(Some(charts)) => Ok(Usage(c.name, charts)))
    case Advise =>
      if !b.hasAdvisor then Ok(NO_ADVISOR)
      else match b.advise(project, pipeline, c.name)
        case ListFailed => Err
        case JobNotFound => Ok(NotPart(c.name, pipeline))
        case Found(all) => Ok(Rendered(pipeline, all))
  }

  function Tagged(text: string): string { text + "\n\n" + MARKER }

  /** What handling a note comes to: nothing, an error, or one reply about a pipeline. */
  datatype Decision = Ignored | Failed | Reply(pipeline: int, body: string)

  /** root is the root note of the event's discussion, Err when fetching it failed. */
  function Handle(ev: NoteEvent, root: Answer<Note>, cfg: Config, b: Backend): Decision {
    var parsed := Parse(ev.body);
    if parsed.None? || Contains(ev.body, PREFIX) then Ignored
    else if root.Err? then Failed
    else if root.value.author != cfg.bot then Ignored
    else match ParseSigned(root.value.body, cfg.key, cfg.mac)
      case None => Ignored
      case Some((pipeline, mr)) =>
        if mr != ev.mr then Ignored
        else match AnswerTo(parsed.value, ev.project, pipeline, b)
          case Err => Failed
          case Ok(text) => Reply(pipeline, Tagged(text))
  }

  // ---- every note the bot writes is recognised as its own -----------------------------------

  lemma TaggedContains(text: string)
    ensures Contains(Tagged(text), PREFIX)
  {
    assert MARKER == "" + PREFIX + " -->";
    assert Tagged(text) == (text + "\n\n") + PREFIX + " -->";
    ContainsMiddle(text + "\n\n", PREFIX, " -->");
  }

  lemma TaggedByFirstChar(text: string)
    requires text != "" && !IsTrimSpace(text[0]) && Lower(text[0]) !in {'h', 'd', 'a'}
    ensures BotBody(Tagged(text))
  {
    hide Parse, Contains;
    TaggedContains(text);
    RejectByFirstChar(Tagged(text));
  }

  lemma TaggedByFirstWord(text: string, w: string)
    requires w != "" && (forall c | c in w :: NONSPACE.Has(c)) && !IsTrimSpace(w[0]) && !IsTrimSpace(w[|w| - 1])
    requires w + " " <= text && !IsVerb(LowerAll(w))
    ensures BotBody(Tagged(text))
  {
    hide Parse, Contains, LowerAll;
    TaggedContains(text);
    assert w + " " <= Tagged(text);
    RejectByFirstWord(Tagged(text), w);
  }

  lemma AdviceIsNoVerb()
    ensures !IsVerb(LowerAll("Advice"))
  {
    assert LowerAll("Advice")[4] == 'c';
  }

  lemma NoAdvisorBegins()
    ensures "Advice" + " " <= NO_ADVISOR
  {
    var w := "Advice" + " ";
    assert forall i | 0 <= i < |w| :: w[i] == NO_ADVISOR[i];
  }

  lemma NoAdvisorIsBotBody()
    ensures BotBody(Tagged(NO_ADVISOR))
  {
    hide Tagged, BotBody, LowerAll, IsVerb;
    AdviceIsNoVerb();
    NoAdvisorBegins();
    TaggedByFirstWord(NO_ADVISOR, "Advice");
  }

  lemma AdviceBegins(pipeline: int, all: seq<Advice>)
    ensures var t := Rendered(pipeline, all); t != "" && t[0] in {'Y', '#'}
  {
  }

  lemma AnswerIsBotBody(c: Command, project: int, pipeline: int, b: Backend)
    requires AnswerTo(c, project, pipeline, b).Ok?
    ensures BotBody(Tagged(AnswerTo(c, project, pipeline, b).value))
  {
    hide Parse, Contains, Rendered, Tagged, Resolve, BotBody;
    var text := AnswerTo(c, project, pipeline, b).value;
    if c.kind == Advise && !b.hasAdvisor {
      NoAdvisorIsBotBody();
    } else {
      if c.kind == Advise && b.advise(project, pipeline, c.name).Found? {
        AdviceBegins(pipeline, b.advise(project, pipeline, c.name).all);
      }
      assert text != "" && text[0] in {'*', '`', 'N', '#', 'Y'};
      TaggedByFirstChar(text);
    }
  }

  /** A reply carries the marker and is no command, so neither the webhook filter nor the loop
      guard lets it come back. */
  lemma ReplyIsBotBody(ev: NoteEvent, root: Answer<Note>, cfg: Config, b: Backend)
    requires Handle(ev, root, cfg, b).Reply?
    ensures BotBody(Handle(ev, root, cfg, b).body)
  {
    hide AnswerTo, Tagged, BotBody;
    var (pipeline, mr) := ParseSigned(root.value.body, cfg.key, cfg.mac).value;
    AnswerIsBotBody(Parse(ev.body).value, ev.project, pipeline, b);
  }

  /** A reply is about the pipeline that the root's marker pins, and only marked roots get one. */
  lemma ReplyIsAboutRoot(ev: NoteEvent, root: Answer<Note>, cfg: Config, b: Backend)
    requires Handle(ev, root, cfg, b).Reply?
    ensures root.Ok? && Contains(root.value.body, PREFIX)
    ensures ParseSigned(root.value.body, cfg.key, cfg.mac) == Some((Handle(ev, root, cfg, b).pipeline, ev.mr))
  {
    hide AnswerTo, ParseSigned, Contains;
    if !Contains(root.value.body, PREFIX) {
      NoPrefixNoMarker(root.value.body, cfg.key, cfg.mac);
    }
  }

  /** Who is answered: exactly unmarked commands under a root that the bot wrote and whose first
      marker pins a pipeline and this merge request with the bot's key. */
  ghost predicate Authorized(ev: NoteEvent, root: Answer<Note>, pipeline: int, cfg: Config) {
    && Parse(ev.body).Some? && !Contains(ev.body, PREFIX)
    && root.Ok? && root.value.author == cfg.bot
    && Pins(root.value.body, pipeline, ev.mr, cfg.key, cfg.mac)
  }

  lemma ReplyIffAuthorized(ev: NoteEvent, root: Answer<Note>, cfg: Config, b: Backend, pipeline: int)
    ensures Handle(ev, root, cfg, b).Reply? && Handle(ev, root, cfg, b).pipeline == pipeline <==>
            Authorized(ev, root, pipeline, cfg) && AnswerTo(Parse(ev.body).value, ev.project, pipeline, b).Ok?
    ensures Handle(ev, root, cfg, b).Failed? && root.Ok? && Authorized(ev, root, pipeline, cfg) ==>
            AnswerTo(Parse(ev.body).value, ev.project, pipeline, b).Err?
    ensures Handle(ev, root, cfg, b).Ignored? ==> !Authorized(ev, root, pipeline, cfg)
  {
    hide Parse, Contains, ParseSigned, AnswerTo, Tagged, Pins;
    if root.Ok? {
      AcceptedIffPinned(root.value.body, pipeline, ev.mr, cfg.key, cfg.mac);
    }
  }
}
