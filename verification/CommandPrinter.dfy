/** Writing a command down and reading it back. */
module CommandPrinter {
  import opened Text
  import opened Regex
  import opened Command

  /** A name that \S+ accepts whole and that trimming the line leaves alone. */
  predicate GoodName(name: string) {
    && name != ""
    && (forall c | c in name :: NONSPACE.Has(c))
    && !IsTrimSpace(name[|name| - 1])
  }

  predicate Printable(c: Command) {
    match c.kind
    case Help => c.target == Job && c.name == ""
    case Details => GoodName(c.name)
    case Advise => c.target == Job && (c.name == "" || GoodName(c.name))
  }

  /** The explicit form: the verb and, when there is a name, the keyword and the name. */
  function Explicit(c: Command): seq<string> {
    match c.kind
    case Help => ["help"]
    case Details => ["details", if c.target == Pod then "pod" else "job", c.name]
    case Advise => if c.name == "" then ["advise"] else ["advise", "job", c.name]
  }

  /** ts is the explicit form of c with the verb and the keyword in any letter case. */
  predicate Spells(ts: seq<string>, c: Command) {
    var e := Explicit(c);
    && |ts| == |e|
    && forall i | 0 <= i < |ts| :: if i == 2 then ts[i] == e[i] else LowerAll(ts[i]) == e[i]
  }

  predicate IsGap(g: string) {
    g != "" && forall c | c in g :: SPACE.Has(c) && c != '\n'
  }

  predicate IsToken(t: string) {
    t != "" && forall c | c in t :: NONSPACE.Has(c)
  }

  /** Tokens with a gap after each but the last. */
  function Join(ts: seq<string>, gaps: seq<string>): string
    requires |ts| == |gaps| + 1
  {
    if gaps == [] then ts[0] else ts[0] + gaps[0] + Join(ts[1..], gaps[1..])
  }

  /** Blank lines, each with its line feed. */
  function BlankLines(blanks: seq<string>): string {
    if blanks == [] then "" else blanks[0] + "\n" + BlankLines(blanks[1..])
  }

  predicate IsPad(p: string) { AllTrimSpace(p) && '\n' !in p }

  // ---- tokens -----------------------------------------------------------------

  lemma SpanShift(c: Class, a: string, b: string, i: nat)
    requires i <= |b|
    ensures Span(c, a + b, |a| + i) == |a| + Span(c, b, i)
  {
    var j := Span(c, b, i);
    forall t | |a| + i <= t < |a| + j
      ensures c.Has((a + b)[t])
    {
      assert (a + b)[t] == b[t - |a|];
    }
    SpanIs(c, a + b, |a| + i, |a| + j);
  }

  lemma SliceShift(a: string, b: string, i: nat, j: nat)
    requires i <= j <= |b|
    ensures (a + b)[|a| + i..|a| + j] == b[i..j]
  {
  }

  lemma FieldsStep(s: string, i: nat)
    requires i <= |s|
    ensures var a := Span(SPACE, s, i);
            if a == |s| then Fields(s, i) == [] else
            var b := Span(NONSPACE, s, a); a < b && Fields(s, i) == [s[a..b]] + Fields(s, b)
  {
    hide Span;
  }

  lemma {:induction false} FieldsShift(a: string, b: string, i: nat)
    requires i <= |b|
    ensures Fields(a + b, |a| + i) == Fields(b, i)
    decreases |b| - i
  {
    hide Span, Fields;
    SpanShift(SPACE, a, b, i);
    FieldsStep(a + b, |a| + i);
    FieldsStep(b, i);
    var s := Span(SPACE, b, i);
    if s < |b| {
      SpanShift(NONSPACE, a, b, s);
      var e := Span(NONSPACE, b, s);
      SliceShift(a, b, s, e);
      FieldsShift(a, b, e);
    }
  }

  lemma JoinStart(ts: seq<string>, gaps: seq<string>)
    requires |ts| == |gaps| + 1
    requires forall i | 0 <= i < |ts| :: IsToken(ts[i])
    ensures IsToken(ts[0]) && Join(ts, gaps) != "" && Join(ts, gaps)[0] == ts[0][0] && NONSPACE.Has(ts[0][0])
  {
    assert IsToken(ts[0]);
  }

  lemma FieldsAfterGap(t: string, g: string, rest: string)
    requires IsGap(g) && rest != "" && NONSPACE.Has(rest[0])
    ensures Fields(t + g + rest, |t|) == Fields(rest, 0)
  {
    hide Fields;
    var s := t + g + rest;
    forall i | |t| <= i < |t + g|
      ensures SPACE.Has(s[i])
    {
      assert s[i] == g[i - |t|];
    }
    SpanIs(SPACE, s, |t|, |t + g|);
    SpanIs(SPACE, s, |t + g|, |t + g|);
    FieldsStep(s, |t|);
    FieldsStep(s, |t + g|);
    assert |t + g| + 0 == |t + g|;
    FieldsShift(t + g, rest, 0);
  }

  /** White space runs separate exactly the tokens that were joined. */
  lemma {:induction false} FieldsOfJoin(ts: seq<string>, gaps: seq<string>)
    requires |ts| == |gaps| + 1
    requires forall i | 0 <= i < |ts| :: IsToken(ts[i])
    requires forall i | 0 <= i < |gaps| :: IsGap(gaps[i])
    ensures Fields(Join(ts, gaps), 0) == ts
    decreases |gaps|
  {
    hide Fields;
    var s := Join(ts, gaps);
    var t := ts[0];
    JoinStart(ts, gaps);
    if gaps != [] {
      assert IsGap(gaps[0]) && s[|t|] == gaps[0][0] && gaps[0][0] in gaps[0];
    }
    forall i | 0 <= i < |t|
      ensures NONSPACE.Has(s[i])
    {
      assert s[i] == t[i];
    }
    SpanIs(SPACE, s, 0, 0);
    SpanIs(NONSPACE, s, 0, |t|);
    assert s[0..|t|] == t;
    FieldsStep(s, 0);
    if gaps == [] {
      FieldsStep(s, |t|);
    } else {
      var rest := Join(ts[1..], gaps[1..]);
      var g := gaps[0];
      assert IsGap(g);
      assert s == (t + g) + rest;
      JoinStart(ts[1..], gaps[1..]);
      FieldsAfterGap(t, g, rest);
      FieldsOfJoin(ts[1..], gaps[1..]);
      assert ts == [t] + ts[1..];
    }
  }

  lemma {:induction false} JoinEnds(ts: seq<string>, gaps: seq<string>)
    requires |ts| == |gaps| + 1
    requires forall i | 0 <= i < |ts| :: IsToken(ts[i])
    requires forall i | 0 <= i < |gaps| :: IsGap(gaps[i])
    ensures var s := Join(ts, gaps); var l := ts[|ts| - 1];
            IsToken(l) && s != "" && '\n' !in s && s[|s| - 1] == l[|l| - 1]
    decreases |gaps|
  {
    hide Join, IsToken, IsGap;
    TokenIsOneLine(ts[0]);
    if gaps == [] {
      JoinOne(ts);
    } else {
      JoinEnds(ts[1..], gaps[1..]);
      JoinStep(ts, gaps);
      GapIsOneLine(gaps[0]);
    }
  }

  lemma TokenIsOneLine(t: string)
    requires IsToken(t)
    ensures t != "" && '\n' !in t
  {
  }

  lemma GapIsOneLine(g: string)
    requires IsGap(g)
    ensures '\n' !in g
  {
  }

  lemma JoinOne(ts: seq<string>)
    requires |ts| == 1
    ensures Join(ts, []) == ts[0]
  {
  }

  lemma JoinStep(ts: seq<string>, gaps: seq<string>)
    requires |ts| == |gaps| + 1 && gaps != []
    ensures Join(ts, gaps) == ts[0] + gaps[0] + Join(ts[1..], gaps[1..])
  {
  }

  // ---- the first line -----------------------------------------------------------

  lemma {:induction false} FirstLineIs(blanks: seq<string>, pad: string, w: string, pad': string, tail: string)
    requires forall i | 0 <= i < |blanks| :: IsPad(blanks[i])
    requires IsPad(pad) && IsPad(pad') && '\n' !in w
    requires w != "" && !IsTrimSpace(w[0]) && !IsTrimSpace(w[|w| - 1])
    requires tail == "" || tail[0] == '\n'
    ensures FirstNonEmptyLine(BlankLines(blanks) + (pad + w + pad' + tail)) == w
    decreases |blanks|
  {
    hide LineEnd, TrimSpace, AllTrimSpace;
    var line := pad + w + pad';
    var body := BlankLines(blanks) + (line + tail);
    if blanks == [] {
      assert body == line + tail;
      LineEndIs(line, tail);
      assert body[..|line|] == line;
      TrimPadded(pad, w, pad');
    } else {
      var b := blanks[0];
      assert IsPad(b);
      var rest := BlankLines(blanks[1..]) + (line + tail);
      assert body == b + ("\n" + rest);
      LineEndIs(b, "\n" + rest);
      assert body[..|b|] == b && body[|b| + 1..] == rest;
      TrimBlank(b);
      FirstLineIs(blanks[1..], pad, w, pad', tail);
    }
  }

  // ---- the round trip -----------------------------------------------------------

  lemma FoldedWord(v: string)
    requires LowerAll(v) in {"help", "details", "advise", "job", "pod"}
    ensures IsToken(v) && !IsTrimSpace(v[0]) && !IsTrimSpace(v[|v| - 1])
  {
    var w := LowerAll(v);
    forall i | 0 <= i < |v|
      ensures !IsTrimSpace(v[i])
    {
      assert Lower(v[i]) == w[i] && 'a' <= w[i] <= 'z';
    }
    forall c | c in v
      ensures NONSPACE.Has(c)
    {
      assert !IsTrimSpace(c);
    }
  }

  lemma SpelledTokens(ts: seq<string>, c: Command)
    requires Printable(c) && Spells(ts, c)
    ensures forall i | 0 <= i < |ts| :: IsToken(ts[i])
    ensures !IsTrimSpace(ts[0][0])
    ensures var l := ts[|ts| - 1]; !IsTrimSpace(l[|l| - 1])
    ensures ParseTokens(ts) == Some(c)
  {
    FoldedWord(ts[0]);
    if |ts| == 3 {
      FoldedWord(ts[1]);
    }
  }

  /** Whatever the blank lines before it, the padding round it, the gaps in it, the letter
      case of its verb and keyword and the lines after it, a printed command reads back. */
  lemma CommandRoundTrip(c: Command, ts: seq<string>, gaps: seq<string>,
                         blanks: seq<string>, pad: string, pad': string, tail: string)
    requires Printable(c) && Spells(ts, c)
    requires |ts| == |gaps| + 1 && forall i | 0 <= i < |gaps| :: IsGap(gaps[i])
    requires forall i | 0 <= i < |blanks| :: IsPad(blanks[i])
    requires IsPad(pad) && IsPad(pad') && (tail == "" || tail[0] == '\n')
    ensures Parse(BlankLines(blanks) + (pad + Join(ts, gaps) + pad' + tail)) == Some(c)
  {
    var w := Join(ts, gaps);
    SpelledTokens(ts, c);
    JoinStart(ts, gaps);
    JoinEnds(ts, gaps);
    FirstLineIs(blanks, pad, w, pad', tail);
    ParseIsTokenRule(BlankLines(blanks) + (pad + w + pad' + tail));
    FieldsOfJoin(ts, gaps);
  }

  /** A job that is called "job" can be named in the short form too. */
  lemma JobNamedJob(verb: string, name: string, gap: string)
    requires LowerAll(verb) in {"details", "advise"} && LowerAll(name) == "job" && IsGap(gap)
    ensures Parse(verb + gap + name) ==
            Some(Command(if LowerAll(verb) == "details" then Details else Advise, Job, name))
  {
    hide Fields, Parse, Join, FirstNonEmptyLine;
    var body := verb + gap + name;
    FoldedWord(verb);
    FoldedWord(name);
    var ts, gaps := [verb, name], [gap];
    JoinTwo(verb, gap, name);
    JoinStart(ts, gaps);
    JoinEnds(ts, gaps);
    FirstLineIs([], "", body, "", "");
    assert BlankLines([]) + ("" + body + "" + "") == body;
    ParseIsTokenRule(body);
    FieldsOfJoin(ts, gaps);
    assert !(RUNNER <= name);
  }

  lemma JoinTwo(a: string, gap: string, b: string)
    ensures Join([a, b], [gap]) == a + gap + b
  {
    assert [a, b][1..] == [b] && [gap][1..] == [];
    assert Join([b], []) == b;
  }

  /** Without a keyword the name tells what is meant: a pod if it begins with "runner-", else a job.
      The blank lines, padding, gap and letter case are as free as with one. */
  lemma ShortFormRoundTrip(verb: string, name: string, gap: string,
                           blanks: seq<string>, pad: string, pad': string, tail: string)
    requires LowerAll(verb) in {"details", "advise"} && GoodName(name) && IsGap(gap)
    requires forall i | 0 <= i < |blanks| :: IsPad(blanks[i])
    requires IsPad(pad) && IsPad(pad') && (tail == "" || tail[0] == '\n')
    ensures Parse(BlankLines(blanks) + (pad + (verb + gap + name) + pad' + tail)) ==
            Some(if LowerAll(verb) == "advise" then Command(Advise, Job, name)
                 else Command(Details, if "runner-" <= name then Pod else Job, name))
  {
    hide Fields, Parse, Join, FirstNonEmptyLine, LowerAll, GoodName, ParseTokens, BlankLines, IsToken, IsGap, IsPad;
    var w, ts, gaps := verb + gap + name, [verb, name], [gap];
    ShortTokens(verb, name);
    assert ts[0] == verb && ts[1] == name && gaps[0] == gap;
    JoinTwo(verb, gap, name);
    JoinStart(ts, gaps);
    JoinEnds(ts, gaps);
    FirstLineIs(blanks, pad, w, pad', tail);
    ParseIsTokenRule(BlankLines(blanks) + (pad + w + pad' + tail));
    FieldsOfJoin(ts, gaps);
  }

  lemma ShortTokens(verb: string, name: string)
    requires LowerAll(verb) in {"details", "advise"} && GoodName(name)
    ensures IsToken(verb) && !IsTrimSpace(verb[0]) && IsToken(name) && !IsTrimSpace(name[|name| - 1])
    ensures ParseTokens([verb, name]) ==
            Some(if LowerAll(verb) == "advise" then Command(Advise, Job, name)
                 else Command(Details, if "runner-" <= name then Pod else Job, name))
  {
    FoldedWord(verb);
  }

  // ---- what can be parsed ---------------------------------------------------------

  lemma {:induction false} FieldsAreTokens(s: string, i: nat)
    requires i <= |s|
    ensures forall k | 0 <= k < |Fields(s, i)| :: IsToken(Fields(s, i)[k])
    ensures i < |s| && !IsTrimSpace(s[|s| - 1]) ==>
              Fields(s, i) != [] && var l := Fields(s, i)[|Fields(s, i)| - 1]; l != "" && !IsTrimSpace(l[|l| - 1])
    decreases |s| - i
  {
    hide Span, Fields;
    FieldsStep(s, i);
    var a := Span(SPACE, s, i);
    if a < |s| {
      var b := Span(NONSPACE, s, a);
      assert IsToken(s[a..b]);
      FieldsAreTokens(s, b);
      FieldsStep(s, b);
    }
  }

  lemma ParsedIsPrintable(body: string)
    requires Parse(body).Some?
    ensures Printable(Parse(body).value)
  {
    hide Parse, Fields, FirstNonEmptyLine;
    ParseIsTokenRule(body);
    var line := FirstNonEmptyLine(body);
    if line != "" {
      FieldsAreTokens(line, 0);
    } else {
      FieldsStep(line, 0);
    }
  }

  /** The commands a note can give are exactly those that can be written down. */
  lemma ParsedIffPrintable(c: Command)
    ensures Printable(c) <==> exists body :: Parse(body) == Some(c)
  {
    if Printable(c) {
      var ts := Explicit(c);
      var gaps := seq(|ts| - 1, _ => " ");
      assert LowerAll("help") == "help" && LowerAll("details") == "details" && LowerAll("advise") == "advise";
      assert LowerAll("job") == "job" && LowerAll("pod") == "pod";
      CommandRoundTrip(c, ts, gaps, [], "", "", "");
    } else {
      forall body
        ensures Parse(body) != Some(c)
      {
        if Parse(body).Some? {
          ParsedIsPrintable(body);
        }
      }
    }
  }
}
