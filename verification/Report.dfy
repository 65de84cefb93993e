/** internal/report/report.go: the body of the report note. */
module Report {
  import opened Text
  import opened Marker
  import opened Command
  import opened CommandReject
  import opened Figures
  import opened Totals

  datatype Data = Data(pipeline: int, status: string, jobs: seq<JobReport>, warnRatio: real, ranJobs: nat,
                       noteMarker: string)

  predicate HasUsage(d: Data) { exists j | j in d.jobs :: j.usage.Some? }

  const NO_DATA :=
    "> \U{26A0}\U{FE0F} **No resource data available.** None of this pipeline's jobs could be correlated " +
    "to a runner pod, so no CPU or memory metrics were collected.\n>\n" +
    "> This usually means the jobs did not run on the Kubernetes runner, or the runner pod could not be identified " +
    "from the job trace.\n"

  function Title(d: Data): string {
    "## Pipeline #" + DecInt(d.pipeline) + " resource report \U{2014} " + d.status + "\n\n"
  }

  function Head(d: Data): string {
    (if d.noteMarker != "" then d.noteMarker else MARKER) + "\n\n" + Title(d)
  }

  function Line(name: string, value: string): string { "| " + name + " | " + value + " |\n" }

  const SUMMARY := "### Summary\n\n| Resource | Total |\n|---|---|\n"

  function Duration(wall: Option<nat>): string {
    if wall.Some? then Line("Pipeline duration", HumanDuration(wall.value)) else ""
  }

  function Summary(t: Totals, f: Decimals): string {
    Line("CPU time", CpuTime(t.cpuSeconds, f)) +
    Line("Total memory (sum of peaks)", HumanBytes(t.totalMemory, f)) +
    Line("Peak memory (max working set)", HumanBytes(t.peakMemory, f)) +
    Line("Network RX", HumanBytes(t.netRx, f)) +
    Line("Network TX", HumanBytes(t.netTx, f)) +
    Line("Disk read", HumanBytes(t.diskRead, f)) +
    Line("Disk write", HumanBytes(t.diskWrite, f))
  }

  const DETAILS :=
    "\n### Details\n\n" +
    "| Stage : Job | CPU time | Peak memory | Mem req / limit | CPU req / limit | Throttled " +
    "| Network RX / TX | Disk R / W |\n" +
    "|---|---|---|---|---|---|---|---|\n"

  function Row(j: JobReport, warnRatio: real, f: Decimals): string {
    var name := j.stage + " : " + j.name;
    if j.usage.None? then "| " + name + " | _no data_ | | | | | | |\n" else
    var u := j.usage.value;
    "| " + name +
    " | " + CpuTime(u.cpuSeconds, f) +
    " | " + HumanBytes(u.peakMemory, f) +
    " | " + OptBytes(u.memoryRequest, f) + " / " + OptBytes(u.memoryLimit, f) +
    " | " + Cores(u.cpuRequest) + " / " + Cores(u.cpuLimit) +
    " | " + Throttle(u.throttled, warnRatio, f) +
    " | " + HumanBytes(u.netRx, f) + " / " + HumanBytes(u.netTx, f) +
    " | " + OptBytes(u.diskRead, f) + " / " + OptBytes(u.diskWrite, f) + " |\n"
  }

  function Rows(jobs: seq<JobReport>, warnRatio: real, f: Decimals): string {
    if jobs == [] then ""
    else Rows(jobs[..|jobs| - 1], warnRatio, f) + Row(jobs[|jobs| - 1], warnRatio, f)
  }

  function Tables(d: Data, f: Decimals): string {
    SUMMARY + Duration(WallClockOf(d.jobs)) + Summary(TotalsOf(d.jobs), f) + DETAILS
  }

  function Body(d: Data, f: Decimals): string {
    if d.ranJobs > 0 && !HasUsage(d) then Head(d) + NO_DATA
    else Head(d) + (Tables(d, f) + Rows(d.jobs, d.warnRatio, f))
  }

  method Render(d: Data, f: Decimals) returns (body: string)
    ensures body == Body(d, f)
  {
    hide *;
    BodyIs(d, f);
    body := if d.noteMarker != "" then d.noteMarker else MARKER;
    body := body + "\n\n";
    body := body + Title(d);
    assert body == Head(d) by { HeadIs(d); }
    if d.ranJobs > 0 && !HasUsage(d) {
      body := body + NO_DATA;
      return;
    }
    var tables := SUMMARY;
    var wall := WallClock(d.jobs);
    if wall.Some? {
      tables := tables + Line("Pipeline duration", HumanDuration(wall.value));
    }
    assert tables == SUMMARY + Duration(WallClockOf(d.jobs)) by { DurationIs(wall); }
    var t := AddUp(d.jobs);
    tables := tables + Summary(t, f) + DETAILS;
    var rows := "";
    RowsNone(d.warnRatio, f);
    for i := 0 to |d.jobs|
      invariant rows == Rows(d.jobs[..i], d.warnRatio, f)
    {
      RowsMore(d.jobs, i, d.warnRatio, f);
      rows := rows + Row(d.jobs[i], d.warnRatio, f);
    }
    assert d.jobs[..|d.jobs|] == d.jobs;
    body := body + (tables + rows);
  }

  lemma BodyIs(d: Data, f: Decimals)
    ensures Body(d, f) ==
            if d.ranJobs > 0 && !HasUsage(d) then Head(d) + NO_DATA
            else Head(d) + (SUMMARY + Duration(WallClockOf(d.jobs)) + Summary(TotalsOf(d.jobs), f) + DETAILS +
                            Rows(d.jobs, d.warnRatio, f))
  {
  }

  lemma HeadIs(d: Data)
    ensures Head(d) == (if d.noteMarker != "" then d.noteMarker else MARKER) + "\n\n" + Title(d)
  {
  }

  lemma DurationIs(wall: Option<nat>)
    ensures SUMMARY + Duration(wall) ==
            if wall.Some? then SUMMARY + Line("Pipeline duration", HumanDuration(wall.value)) else SUMMARY
  {
    assert SUMMARY + "" == SUMMARY;
  }

  lemma RowsNone(warnRatio: real, f: Decimals)
    ensures Rows([], warnRatio, f) == ""
  {
  }

  lemma RowsMore(jobs: seq<JobReport>, i: nat, warnRatio: real, f: Decimals)
    requires i < |jobs|
    ensures jobs[..0] == []
    ensures Rows(jobs[..i + 1], warnRatio, f) == Rows(jobs[..i], warnRatio, f) + Row(jobs[i], warnRatio, f)
  {
    hide Row;
    assert jobs[..i + 1][..i] == jobs[..i];
  }

  lemma BodyBegins(d: Data, f: Decimals)
    ensures (if d.noteMarker != "" then d.noteMarker else MARKER) <= Body(d, f)
  {
    hide Tables, Rows, NO_DATA, Title;
  }

  /** The round trip through a whole report, whatever the names, the status and the numbers say. */
  lemma ReportRoundTrip(d: Data, f: Decimals, p: nat, m: nat, key: string, mac: Mac)
    requires p <= MAX_INT64 && m <= MAX_INT64 && HexMac(mac)
    requires d.noteMarker == SignedMarker(p, m, key, mac)
    ensures ParseSigned(Body(d, f), key, mac) == Some((p, m))
  {
    hide ParseSigned, SignedMarker, Tables, Rows, NO_DATA;
    var body := Body(d, f);
    var marker := SignedMarker(p, m, key, mac);
    MarkerNotEmpty(p, m, key, mac);
    BodyBegins(d, f);
    assert body == marker + body[|marker|..];
    SignedMarkerRoundTrip(p, m, body[|marker|..], key, mac);
  }

  lemma MarkerNotEmpty(p: int, m: int, key: string, mac: Mac)
    ensures PREFIX <= SignedMarker(p, m, key, mac) && SignedMarker(p, m, key, mac) != ""
  {
  }

  /** What every note of the bot is: tagged with the marker and no command itself. */
  predicate BotBody(body: string) { Contains(body, PREFIX) && Parse(body).None? }

  lemma ReportIsBotBody(d: Data, f: Decimals)
    requires d.noteMarker == "" || PREFIX <= d.noteMarker
    ensures BotBody(Body(d, f))
  {
    hide Parse, Tables, Rows, NO_DATA;
    var body := Body(d, f);
    BodyBegins(d, f);
    assert PREFIX <= body;
    assert body[0..] == body;
    assert body[0] == '<';
    RejectByFirstChar(body);
  }

  // ---- what the tables show ---------------------------------------------------------------

  predicate ShowsTables(d: Data) { d.ranJobs == 0 || HasUsage(d) }

  lemma Between(text: string, a: string, x: string, b: string)
    requires text == a + x + b
    ensures Contains(text, x)
  {
    ContainsMiddle(a, x, b);
  }

  /** The title names the pipeline and its status. */
  lemma TitleIsShown(d: Data, f: Decimals)
    ensures Contains(Body(d, f),
              "## Pipeline #" + DecInt(d.pipeline) + " resource report \U{2014} " + d.status + "\n\n")
  {
    hide Tables, Rows, NO_DATA, HasUsage;
    var marker := (if d.noteMarker != "" then d.noteMarker else MARKER) + "\n\n";
    var rest := if d.ranJobs > 0 && !HasUsage(d) then NO_DATA else Tables(d, f) + Rows(d.jobs, d.warnRatio, f);
    assert Body(d, f) == marker + Title(d) + rest;
    Between(Body(d, f), marker, Title(d), rest);
  }

  /** The notice is shown where the tables are not. */
  lemma NoticeIsShown(d: Data, f: Decimals)
    requires !ShowsTables(d)
    ensures Contains(Body(d, f), NO_DATA)
  {
    hide NO_DATA, Head;
    assert Body(d, f) == Head(d) + NO_DATA + "";
    Between(Body(d, f), Head(d), NO_DATA, "");
  }

  predicate HasLine(body: string, name: string, value: string) {
    Contains(body, "| " + name + " | " + value + " |\n")
  }

  lemma LineIsShown(body: string, a: string, name: string, value: string, b: string)
    requires body == a + Line(name, value) + b
    ensures HasLine(body, name, value)
  {
    Between(body, a, Line(name, value), b);
  }

  lemma LineStays(text: string, name: string, value: string, a: string, b: string)
    requires HasLine(text, name, value)
    ensures HasLine(a + text + b, name, value)
  {
    var line := "| " + name + " | " + value + " |\n";
    var i :| 0 <= i <= |text| && line <= text[i..];
    var rest := text[i + |line|..];
    assert text == text[..i] + line + rest;
    assert a + text + b == (a + text[..i]) + line + (rest + b);
    Between(a + text + b, a + text[..i], line, rest + b);
  }

  lemma SummaryHasLines(t: Totals, f: Decimals)
    ensures var s := Summary(t, f);
            && HasLine(s, "CPU time", f.one(t.cpuSeconds) + " s")
            && HasLine(s, "Total memory (sum of peaks)", HumanBytes(t.totalMemory, f))
            && HasLine(s, "Peak memory (max working set)", HumanBytes(t.peakMemory, f))
            && HasLine(s, "Network RX", HumanBytes(t.netRx, f))
            && HasLine(s, "Network TX", HumanBytes(t.netTx, f))
            && HasLine(s, "Disk read", HumanBytes(t.diskRead, f))
            && HasLine(s, "Disk write", HumanBytes(t.diskWrite, f))
  {
    hide HasLine, HumanBytes, Line;
    var s := Summary(t, f);
    var l1 := Line("CPU time", CpuTime(t.cpuSeconds, f));
    var l2 := Line("Total memory (sum of peaks)", HumanBytes(t.totalMemory, f));
    var l3 := Line("Peak memory (max working set)", HumanBytes(t.peakMemory, f));
    var l4 := Line("Network RX", HumanBytes(t.netRx, f));
    var l5 := Line("Network TX", HumanBytes(t.netTx, f));
    var l6 := Line("Disk read", HumanBytes(t.diskRead, f));
    var l7 := Line("Disk write", HumanBytes(t.diskWrite, f));
    assert s == "" + l1 + (l2 + l3 + l4 + l5 + l6 + l7);
    LineIsShown(s, "", "CPU time", CpuTime(t.cpuSeconds, f), l2 + l3 + l4 + l5 + l6 + l7);
    assert s == l1 + l2 + (l3 + l4 + l5 + l6 + l7);
    LineIsShown(s, l1, "Total memory (sum of peaks)", HumanBytes(t.totalMemory, f), l3 + l4 + l5 + l6 + l7);
    assert s == (l1 + l2) + l3 + (l4 + l5 + l6 + l7);
    LineIsShown(s, l1 + l2, "Peak memory (max working set)", HumanBytes(t.peakMemory, f), l4 + l5 + l6 + l7);
    assert s == (l1 + l2 + l3) + l4 + (l5 + l6 + l7);
    LineIsShown(s, l1 + l2 + l3, "Network RX", HumanBytes(t.netRx, f), l5 + l6 + l7);
    assert s == (l1 + l2 + l3 + l4) + l5 + (l6 + l7);
    LineIsShown(s, l1 + l2 + l3 + l4, "Network TX", HumanBytes(t.netTx, f), l6 + l7);
    assert s == (l1 + l2 + l3 + l4 + l5) + l6 + l7;
    LineIsShown(s, l1 + l2 + l3 + l4 + l5, "Disk read", HumanBytes(t.diskRead, f), l7);
    assert s == (l1 + l2 + l3 + l4 + l5 + l6) + l7 + "";
    LineIsShown(s, l1 + l2 + l3 + l4 + l5 + l6, "Disk write", HumanBytes(t.diskWrite, f), "");
  }

  /** The summary shows each total under its name, and the wall clock if there is one. */
  lemma TotalsAreShown(d: Data, f: Decimals)
    requires ShowsTables(d)
    ensures var body, jobs := Body(d, f), d.jobs;
            var peaks := Sum(jobs, (u: Usage) => u.peakMemory);
            && (WallClockOf(jobs).Some? ==> HasLine(body, "Pipeline duration", HumanDuration(WallClockOf(jobs).value)))
            && HasLine(body, "CPU time", f.one(CpuSum(jobs)) + " s")
            && HasLine(body, "Total memory (sum of peaks)", HumanBytes(peaks % UINT64, f))
            && HasLine(body, "Peak memory (max working set)", HumanBytes(Greatest(jobs), f))
            && HasLine(body, "Network RX", HumanBytes(Sum(jobs, (u: Usage) => u.netRx) % UINT64, f))
            && HasLine(body, "Network TX", HumanBytes(Sum(jobs, (u: Usage) => u.netTx) % UINT64, f))
            && HasLine(body, "Disk read", HumanBytes(Sum(jobs, (u: Usage) => u.diskRead) % UINT64, f))
            && HasLine(body, "Disk write", HumanBytes(Sum(jobs, (u: Usage) => u.diskWrite) % UINT64, f))
  {
    hide HasLine, HumanBytes, HumanDuration, WallClockOf, Sum, CpuSum, Greatest, Line, Summary;
    var t, wall := TotalsOf(d.jobs), WallClockOf(d.jobs);
    var top, sums, end := Parts(d, f);
    if wall.Some? {
      LineIsShown(top + Duration(wall) + (sums + end), top, "Pipeline duration", HumanDuration(wall.value), sums + end);
    }
    SummaryHasLines(t, f);
    var before := top + Duration(wall);
    LineStays(sums, "CPU time", f.one(t.cpuSeconds) + " s", before, end);
    LineStays(sums, "Total memory (sum of peaks)", HumanBytes(t.totalMemory, f), before, end);
    LineStays(sums, "Peak memory (max working set)", HumanBytes(t.peakMemory, f), before, end);
    LineStays(sums, "Network RX", HumanBytes(t.netRx, f), before, end);
    LineStays(sums, "Network TX", HumanBytes(t.netTx, f), before, end);
    LineStays(sums, "Disk read", HumanBytes(t.diskRead, f), before, end);
    LineStays(sums, "Disk write", HumanBytes(t.diskWrite, f), before, end);
  }

  lemma Parts(d: Data, f: Decimals) returns (top: string, sums: string, end: string)
    requires ShowsTables(d)
    ensures sums == Summary(TotalsOf(d.jobs), f)
    ensures var wall := Duration(WallClockOf(d.jobs));
            Body(d, f) == top + wall + (sums + end) && Body(d, f) == (top + wall) + sums + end
  {
    hide Head, Rows, SUMMARY, DETAILS, Duration, Summary;
    top, sums, end := Head(d) + SUMMARY, Summary(TotalsOf(d.jobs), f), DETAILS + Rows(d.jobs, d.warnRatio, f);
  }

  /** A job's row shows its stage, name and figures under the headings' order, or that there are none. */
  lemma RowShows(j: JobReport, warnRatio: real, f: Decimals)
    ensures j.usage.None? ==> Row(j, warnRatio, f) == "| " + (j.stage + " : " + j.name) + " | _no data_ | | | | | | |\n"
    ensures j.usage.Some? ==>
              var u := j.usage.value;
              var warned := warnRatio > 0.0 && u.throttled >= warnRatio;
              var percent := f.none(u.throttled * 100.0) + "%";
              Row(j, warnRatio, f) ==
              "| " + (j.stage + " : " + j.name) +
              " | " + (f.one(u.cpuSeconds) + " s") +
              " | " + HumanBytes(u.peakMemory, f) +
              " | " + OptBytes(u.memoryRequest, f) + " / " + OptBytes(u.memoryLimit, f) +
              " | " + Cores(u.cpuRequest) + " / " + Cores(u.cpuLimit) +
              " | " + (if warned then "**" + percent + "** \U{26A0}\U{FE0F}" else percent) +
              " | " + HumanBytes(u.netRx, f) + " / " + HumanBytes(u.netTx, f) +
              " | " + OptBytes(u.diskRead, f) + " / " + OptBytes(u.diskWrite, f) + " |\n"
  {
  }

  lemma {:induction false} RowsCat(a: seq<JobReport>, b: seq<JobReport>, warnRatio: real, f: Decimals)
    ensures Rows(a + b, warnRatio, f) == Rows(a, warnRatio, f) + Rows(b, warnRatio, f)
    ensures forall j :: Rows([j], warnRatio, f) == Row(j, warnRatio, f)
    decreases |b|
  {
    hide Row;
    forall j
      ensures Rows([j], warnRatio, f) == Row(j, warnRatio, f)
    {
      assert [j][..0] == [];
    }
    if b == [] {
      assert a + b == a;
    } else {
      assert (a + b)[..|a + b| - 1] == a + b[..|b| - 1];
      RowsCat(a, b[..|b| - 1], warnRatio, f);
    }
  }

  /** The tables end with one row for each job, in the jobs' order. */
  lemma RowInPlace(d: Data, f: Decimals, k: nat)
    requires ShowsTables(d) && k < |d.jobs|
    ensures Body(d, f) == Head(d) + (Tables(d, f) + (Rows(d.jobs[..k], d.warnRatio, f) +
                                     Row(d.jobs[k], d.warnRatio, f) + Rows(d.jobs[k + 1..], d.warnRatio, f)))
  {
    hide Head, Tables, Row, Rows;
    assert d.jobs == d.jobs[..k] + ([d.jobs[k]] + d.jobs[k + 1..]);
    RowsCat(d.jobs[..k], [d.jobs[k]] + d.jobs[k + 1..], d.warnRatio, f);
    RowsCat([d.jobs[k]], d.jobs[k + 1..], d.warnRatio, f);
  }

  /** The headings of the rows stand right above them, in the order of the figures. */
  lemma HeadingsAre(d: Data, f: Decimals) returns (before: string)
    ensures Tables(d, f) ==
            before +
            ("\n### Details\n\n" +
             "| Stage : Job | CPU time | Peak memory | Mem req / limit | CPU req / limit | Throttled " +
             "| Network RX / TX | Disk R / W |\n" +
             "|---|---|---|---|---|---|---|---|\n")
  {
    hide Duration, Summary;
    before := SUMMARY + Duration(WallClockOf(d.jobs)) + Summary(TotalsOf(d.jobs), f);
  }
}
