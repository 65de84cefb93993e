/** internal/command/command.go: the grammar of the commands users post. */
module Command {
  import opened Text
  import opened Regex

  datatype Kind = Help | Details | Advise

  datatype Target = Job | Pod

  /** target is meaningful for Details; name is "" where no job or pod is named. */
  datatype Command = Command(kind: Kind, target: Target, name: string)

  // \s and \S. Unlike strings.TrimSpace, \s leaves out the vertical tab.
  const SPACE := Only({'\t', '\n', '\U{0C}', '\r', ' '})
  const NONSPACE := Except({'\t', '\n', '\U{0C}', '\r', ' '})

  lemma SpacesAre(c: char)
    ensures SPACE.Has(c) <==> c == ' ' || c == '\t' || c == '\n' || c == '\U{0C}' || c == '\r'
    ensures NONSPACE.Has(c) <==> !SPACE.Has(c)
  {
  }

  const END: Prog := Then(Finish, Accept)
  const KEYWORD := Alt(Word("job", true), Word("pod", true))

  /** (\S+)$, capturing into group n. */
  function Name(n: nat): Prog { Then(Group(n, Plus(NONSPACE)), END) }

  const HELP: Prog := Then(Start, Then(Word("help", true), END))

  const DETAILS_TARGET: Prog := Then(Alt(Cat(Group(1, KEYWORD), Plus(SPACE)), Empty), Name(2))
  const DETAILS: Prog := Then(Start, Then(Word("details", true), Then(Plus(SPACE), DETAILS_TARGET)))

  const ADVISE_JOB := Cat(Alt(Cat(Word("job", true), Plus(SPACE)), Empty), Group(1, Plus(NONSPACE)))
  const ADVISE: Prog :=
    Then(Start, Then(Word("advise", true), Then(Alt(Cat(Plus(SPACE), ADVISE_JOB), Empty), END)))

  const RUNNER := "runner-"

  // ---- the parser -----------------------------------------------------------

  function FirstNonEmptyLine(body: string): (line: string)
    ensures line == "" || (!IsTrimSpace(line[0]) && !IsTrimSpace(line[|line| - 1]))
    decreases |body|
  {
    var e := LineEnd(body);
    var line := TrimSpace(body[..e]);
    if line != "" || e == |body| then line else FirstNonEmptyLine(body[e + 1..])
  }

  function Submatch(caps: Caps, n: nat): string {
    if n in caps then caps[n] else ""
  }

  function AutoTarget(name: string): Target {
    if RUNNER <= name then Pod else Job
  }

  function ParseLine(line: string): Option<Command> {
    if Find(HELP, line).Found? then Some(Command(Help, Job, ""))
    else
      var d := Find(DETAILS, line);
      if d.Found? then
        var keyword := LowerAll(Submatch(d.caps, 1));
        var name := Submatch(d.caps, 2);
        var target := if keyword == "job" then Job else if keyword == "pod" then Pod else AutoTarget(name);
        Some(Command(Details, target, name))
      else
        var a := Find(ADVISE, line);
        if a.Found? then Some(Command(Advise, Job, Submatch(a.caps, 1))) else None
  }

  function Parse(body: string): Option<Command> { ParseLine(FirstNonEmptyLine(body)) }

  // ---- the token rule, stated without regular expressions ---------------------

  function Fields(s: string, i: nat): seq<string>
    requires i <= |s|
    decreases |s| - i
  {
    var a := Span(SPACE, s, i);
    if a == |s| then [] else
    var b := Span(NONSPACE, s, a);
    [s[a..b]] + Fields(s, b)
  }

  /** A command is a verb alone, a verb and a name, or a verb, a keyword and a name. */
  function ParseTokens(ts: seq<string>): Option<Command> {
    if ts == [] then None else
    var verb := LowerAll(ts[0]);
    if |ts| == 1 then
      if verb == "help" then Some(Command(Help, Job, ""))
      else if verb == "advise" then Some(Command(Advise, Job, ""))
      else None
    else if |ts| == 2 then
      if verb == "details" then Some(Command(Details, if "runner-" <= ts[1] then Pod else Job, ts[1]))
      else if verb == "advise" then Some(Command(Advise, Job, ts[1]))
      else None
    else if |ts| == 3 then
      var keyword := LowerAll(ts[1]);
      if verb == "details" && keyword == "job" then Some(Command(Details, Job, ts[2]))
      else if verb == "details" && keyword == "pod" then Some(Command(Details, Pod, ts[2]))
      else if verb == "advise" && keyword == "job" then Some(Command(Advise, Job, ts[2]))
      else None
    else None
  }

  // ---- how the patterns run on a trimmed line ---------------------------------

  predicate Trimmed(s: string) {
    s == "" || (NONSPACE.Has(s[0]) && NONSPACE.Has(s[|s| - 1]))
  }

  lemma SpaceInside(s: string, i: nat)
    requires Trimmed(s) && i < |s|
    ensures Span(SPACE, s, i) < |s|
    ensures NONSPACE.Has(s[Span(SPACE, s, i)])
  {
  }

  lemma CloseEnd(n: nat, from: nat, s: string, i: nat, caps: Caps)
    requires from <= i <= |s|
    ensures Run(Close(n, from, END), s, i, caps) == if i == |s| then Hit(i, caps[n := s[from..i]]) else Miss
  {
    assert Run(Accept, s, i, caps[n := s[from..i]]) == Hit(i, caps[n := s[from..i]]);
  }

  lemma NameRun(n: nat, s: string, a: nat, caps: Caps)
    requires a <= |s|
    ensures Run(Name(n), s, a, caps) ==
            if a < |s| && Span(NONSPACE, s, a) == |s| then Hit(|s|, caps[n := s[a..]]) else Miss
  {
    var k := Close(n, a, END);
    assert Run(Name(n), s, a, caps) == Run(Then(Plus(NONSPACE), k), s, a, caps);
    if a < |s| && NONSPACE.Has(s[a]) {
      var b := Span(NONSPACE, s, a);
      forall t | a < t <= b
        ensures Run(k, s, t, caps) == if t == |s| then Hit(t, caps[n := s[a..t]]) else Miss
      {
        CloseEnd(n, a, s, t, caps);
      }
      PlusTakesAll(NONSPACE, k, s, a, caps);
      assert s[a..|s|] == s[a..];
    }
  }

  /** \s+ followed by a pattern that cannot begin on white space. */
  lemma SpacesRun(k: Prog, s: string, i: nat, caps: Caps)
    requires i <= |s|
    requires forall t | i < t < |s| && SPACE.Has(s[t]) :: Run(k, s, t, caps).Miss?
    ensures Run(Then(Plus(SPACE), k), s, i, caps) ==
            if i < |s| && SPACE.Has(s[i]) then Run(k, s, Span(SPACE, s, i), caps) else Miss
  {
    if i < |s| && SPACE.Has(s[i]) {
      PlusTakesAll(SPACE, k, s, i, caps);
    }
  }

  lemma SpacedNameRun(n: nat, s: string, i: nat, caps: Caps)
    requires i <= |s|
    ensures Run(Then(Plus(SPACE), Name(n)), s, i, caps) ==
            if i < |s| && SPACE.Has(s[i]) then Run(Name(n), s, Span(SPACE, s, i), caps) else Miss
  {
    forall t | i < t < |s| && SPACE.Has(s[t])
      ensures Run(Name(n), s, t, caps).Miss?
    {
      NameRun(n, s, t, caps);
    }
    SpacesRun(Name(n), s, i, caps);
  }

  predicate KeywordAt(s: string, a: nat) {
    WordAt("job", true, s, a) || WordAt("pod", true, s, a)
  }

  lemma KeywordRun(s: string, a: nat)
    requires a <= |s|
    ensures Run(Then(Cat(Group(1, KEYWORD), Plus(SPACE)), Name(2)), s, a, map[]) ==
            if KeywordAt(s, a) then Run(Then(Plus(SPACE), Name(2)), s, a + 3, map[1 := s[a..a + 3]]) else Miss
  {
    var after := Then(Plus(SPACE), Name(2));
    var k := Close(1, a, after);
    assert Run(Then(Cat(Group(1, KEYWORD), Plus(SPACE)), Name(2)), s, a, map[]) ==
           Run(Then(Group(1, KEYWORD), after), s, a, map[]) == Run(Then(KEYWORD, k), s, a, map[]);
    forall w | |w| == 3
      ensures Run(Then(Word(w, true), k), s, a, map[]) ==
              if WordAt(w, true, s, a) then Run(after, s, a + 3, map[1 := s[a..a + 3]]) else Miss
    {
      if WordAt(w, true, s, a) {
        assert Run(k, s, a + 3, map[]) == Run(after, s, a + 3, map[1 := s[a..a + 3]]);
      }
    }
  }

  /** Whether s from i is one token that reaches the end. */
  predicate LastToken(s: string, i: nat)
    requires i <= |s|
  {
    i < |s| && Span(NONSPACE, s, i) == |s|
  }

  /** Whether a keyword, white space and one last token stand at a. */
  predicate KeywordThenName(s: string, a: nat)
    requires a <= |s|
  {
    KeywordAt(s, a) && a + 3 < |s| && SPACE.Has(s[a + 3]) && LastToken(s, Span(SPACE, s, a + 3))
  }

  lemma TargetRun(s: string, a: nat)
    requires a <= |s|
    ensures Run(DETAILS_TARGET, s, a, map[]) ==
            if KeywordThenName(s, a) then
              Hit(|s|, map[1 := s[a..a + 3], 2 := s[Span(SPACE, s, a + 3)..]])
            else if LastToken(s, a) then Hit(|s|, map[2 := s[a..]])
            else Miss
  {
    KeywordRun(s, a);
    NameRun(2, s, a, map[]);
    if KeywordAt(s, a) {
      SpacedNameRun(2, s, a + 3, map[1 := s[a..a + 3]]);
      if a + 3 < |s| && SPACE.Has(s[a + 3]) {
        NameRun(2, s, Span(SPACE, s, a + 3), map[1 := s[a..a + 3]]);
      }
    }
    assert Run(Then(Empty, Name(2)), s, a, map[]) == Run(Name(2), s, a, map[]);
  }

  lemma NoWordOnSpace(w: string, s: string, t: nat)
    requires w != "" && NONSPACE.Has(w[0]) && t < |s| && SPACE.Has(s[t])
    ensures !WordAt(w, true, s, t)
  {
    if t + |w| <= |s| {
      assert LowerAll(s[t..t + |w|])[0] == Lower(s[t]) == s[t];
    }
  }

  lemma DetailsRun(s: string)
    ensures Run(DETAILS, s, 0, map[]) ==
            if WordAt("details", true, s, 0) && 7 < |s| && SPACE.Has(s[7])
            then Run(DETAILS_TARGET, s, Span(SPACE, s, 7), map[]) else Miss
  {
    forall t | 7 < t < |s| && SPACE.Has(s[t])
      ensures Run(DETAILS_TARGET, s, t, map[]).Miss?
    {
      TargetRun(s, t);
      NoWordOnSpace("job", s, t);
      NoWordOnSpace("pod", s, t);
    }
    if WordAt("details", true, s, 0) {
      SpacesRun(DETAILS_TARGET, s, 7, map[]);
      var k := Then(Plus(SPACE), DETAILS_TARGET);
      assert Run(Then(Word("details", true), k), s, 0, map[]) == Run(k, s, 7, map[]);
    }
  }

  lemma AdviseJobRun(s: string, a: nat)
    requires a <= |s|
    ensures Run(Then(ADVISE_JOB, END), s, a, map[]) ==
            if WordAt("job", true, s, a) && KeywordThenName(s, a) then
              Hit(|s|, map[1 := s[Span(SPACE, s, a + 3)..]])
            else if LastToken(s, a) then Hit(|s|, map[1 := s[a..]])
            else Miss
  {
    var name := Name(1);
    var spaced := Then(Plus(SPACE), name);
    var opt := Alt(Cat(Word("job", true), Plus(SPACE)), Empty);
    assert Run(Then(ADVISE_JOB, END), s, a, map[]) == Run(Then(opt, name), s, a, map[]);
    assert Run(Then(Empty, name), s, a, map[]) == Run(name, s, a, map[]);
    var first := Then(Cat(Word("job", true), Plus(SPACE)), name);
    assert Run(first, s, a, map[]) == Run(Then(Word("job", true), spaced), s, a, map[]);
    NameRun(1, s, a, map[]);
    if WordAt("job", true, s, a) {
      assert Run(first, s, a, map[]) == Run(spaced, s, a + 3, map[]);
      SpacedNameRun(1, s, a + 3, map[]);
      if a + 3 < |s| && SPACE.Has(s[a + 3]) {
        NameRun(1, s, Span(SPACE, s, a + 3), map[]);
      }
    }
  }

  /** What follows the verb "advise", which ends at i. */
  lemma AdviseTailRun(s: string, i: nat)
    requires i <= |s|
    ensures Run(Then(Alt(Cat(Plus(SPACE), ADVISE_JOB), Empty), END), s, i, map[]) ==
            if i == |s| then Hit(i, map[])
            else if SPACE.Has(s[i]) then Run(Then(ADVISE_JOB, END), s, Span(SPACE, s, i), map[])
            else Miss
  {
    var job := Then(ADVISE_JOB, END);
    forall t | i < t < |s| && SPACE.Has(s[t])
      ensures Run(job, s, t, map[]).Miss?
    {
      AdviseJobRun(s, t);
      NoWordOnSpace("job", s, t);
    }
    SpacesRun(job, s, i, map[]);
    assert Run(Then(Cat(Plus(SPACE), ADVISE_JOB), END), s, i, map[]) == Run(Then(Plus(SPACE), job), s, i, map[]);
    assert Run(Then(Empty, END), s, i, map[]) == Run(END, s, i, map[]);
    assert Run(END, s, i, map[]) == if i == |s| then Hit(i, map[]) else Miss by {
      assert Run(Accept, s, i, map[]) == Hit(i, map[]);
    }
  }

  lemma AdviseRun(s: string)
    ensures Run(ADVISE, s, 0, map[]) ==
            if !WordAt("advise", true, s, 0) then Miss
            else if |s| == 6 then Hit(6, map[])
            else if SPACE.Has(s[6]) then Run(Then(ADVISE_JOB, END), s, Span(SPACE, s, 6), map[])
            else Miss
  {
    if WordAt("advise", true, s, 0) {
      AdviseTailRun(s, 6);
      var k := Then(Alt(Cat(Plus(SPACE), ADVISE_JOB), Empty), END);
      assert Run(ADVISE, s, 0, map[]) == Run(Then(Word("advise", true), k), s, 0, map[]) == Run(k, s, 6, map[]);
    }
  }

  lemma HelpRun(s: string)
    ensures Run(HELP, s, 0, map[]) == if WordAt("help", true, s, 0) && |s| == 4 then Hit(4, map[]) else Miss
  {
    if WordAt("help", true, s, 0) {
      assert Run(HELP, s, 0, map[]) == Run(END, s, 4, map[]);
      assert Run(Accept, s, |s|, map[]) == Hit(|s|, map[]);
    }
  }

  /** A pattern that begins with ^ is found at 0 or nowhere. */
  lemma AnchoredFind(k: Prog, s: string)
    ensures var f := Find(Then(Start, k), s);
            var o := Run(Then(Start, k), s, 0, map[]);
            if o.Hit? then f == Found(0, o.end, o.caps) else f.NotFound?
  {
  }

  // ---- how the tokens stand on a trimmed line ---------------------------------

  lemma FieldsAt(s: string, i: nat)
    requires Trimmed(s) && i < |s| && NONSPACE.Has(s[i])
    ensures var b := Span(NONSPACE, s, i);
            && i < b
            && (LastToken(s, i) ==> Fields(s, i) == [s[i..]])
            && (!LastToken(s, i) ==>
                  var c := Span(SPACE, s, b);
                  b < c < |s| && NONSPACE.Has(s[c]) && Fields(s, i) == [s[i..b]] + Fields(s, c) && Fields(s, c) != [])
  {
    var b := Span(NONSPACE, s, i);
    assert Span(SPACE, s, i) == i;
    assert Fields(s, i) == [s[i..b]] + Fields(s, b);
    if b < |s| {
      SpaceInside(s, b);
      var c := Span(SPACE, s, b);
      SpanIs(SPACE, s, c, c);
      assert Fields(s, b) == Fields(s, c);
    } else {
      assert s[i..b] == s[i..];
    }
  }

  const WORDS := {"help", "details", "advise", "job", "pod"}

  lemma WordLetter(w: string, k: nat)
    requires w in WORDS && k < |w|
    ensures 'a' <= w[k] <= 'z'
  {
  }

  /** Where a word ends a token, the token folds to the word; and the other way round. */
  lemma WordToken(w: string, s: string, i: nat)
    requires i <= |s| && w in WORDS
    ensures LowerAll(s[i..Span(NONSPACE, s, i)]) == w <==>
            WordAt(w, true, s, i) && (i + |w| == |s| || SPACE.Has(s[i + |w|]))
  {
    hide WORDS;
    var b := Span(NONSPACE, s, i);
    if WordAt(w, true, s, i) && (i + |w| == |s| || SPACE.Has(s[i + |w|])) {
      forall t | i <= t < i + |w|
        ensures NONSPACE.Has(s[t])
      {
        assert Lower(s[t]) == LowerAll(s[i..i + |w|])[t - i] == w[t - i];
        WordLetter(w, t - i);
      }
      SpanIs(NONSPACE, s, i, i + |w|);
    } else {
      assert |LowerAll(s[i..b])| == b - i;
    }
  }

  lemma TargetTokens(s: string, a: nat)
    requires Trimmed(s) && a < |s| && NONSPACE.Has(s[a])
    ensures var ts := Fields(s, a);
            && (LastToken(s, a) <==> |ts| == 1)
            && ts != [] && (|ts| == 1 ==> ts[0] == s[a..])
            && (KeywordThenName(s, a) <==> |ts| == 2 && LowerAll(ts[0]) in {"job", "pod"})
            && (KeywordThenName(s, a) ==> ts == [s[a..a + 3], s[Span(SPACE, s, a + 3)..]])
            && (WordAt("job", true, s, a) && KeywordThenName(s, a) <==> |ts| == 2 && LowerAll(ts[0]) == "job")
  {
    hide Span, Fields;
    var b := Span(NONSPACE, s, a);
    FieldsAt(s, a);
    WordToken("job", s, a);
    WordToken("pod", s, a);
    if !LastToken(s, a) {
      FieldsAt(s, Span(SPACE, s, b));
    }
  }

  function DetailsCommand(caps: Caps): Command {
    var keyword := LowerAll(Submatch(caps, 1));
    var name := Submatch(caps, 2);
    Command(Details, if keyword == "job" then Job else if keyword == "pod" then Pod else AutoTarget(name), name)
  }

  lemma ParseLineRuns(s: string)
    ensures ParseLine(s) ==
            if WordAt("help", true, s, 0) && |s| == 4 then Some(Command(Help, Job, ""))
            else if Run(DETAILS, s, 0, map[]).Hit? then Some(DetailsCommand(Run(DETAILS, s, 0, map[]).caps))
            else if Run(ADVISE, s, 0, map[]).Hit? then
              Some(Command(Advise, Job, Submatch(Run(ADVISE, s, 0, map[]).caps, 1)))
            else None
    ensures !WordAt("details", true, s, 0) ==> Run(DETAILS, s, 0, map[]).Miss?
    ensures !WordAt("advise", true, s, 0) ==> Run(ADVISE, s, 0, map[]).Miss?
  {
    hide Run, Search, Span, WordAt;
    HelpRun(s);
    DetailsRun(s);
    AdviseRun(s);
    AnchoredFind(HELP.next, s);
    AnchoredFind(DETAILS.next, s);
    AnchoredFind(ADVISE.next, s);
  }

  lemma VerbToken(w: string, s: string)
    requires w in WORDS
    ensures LowerAll(s[..Span(NONSPACE, s, 0)]) == w <==>
            WordAt(w, true, s, 0) && (|w| == |s| || SPACE.Has(s[|w|]))
  {
    hide *;
    assert s[0..Span(NONSPACE, s, 0)] == s[..Span(NONSPACE, s, 0)];
    WordToken(w, s, 0);
  }

  /** Which verb the first token is. */
  lemma Verbs(s: string)
    ensures var verb := LowerAll(s[..Span(NONSPACE, s, 0)]);
            && (verb == "help" <==> WordAt("help", true, s, 0) && (4 == |s| || SPACE.Has(s[4])))
            && (verb == "details" <==> WordAt("details", true, s, 0) && (7 == |s| || SPACE.Has(s[7])))
            && (verb == "advise" <==> WordAt("advise", true, s, 0) && (6 == |s| || SPACE.Has(s[6])))
  {
    hide Span, WordAt, LowerAll, Lower;
    VerbToken("help", s);
    VerbToken("details", s);
    VerbToken("advise", s);
  }

  lemma DetailsTokens(s: string)
    requires Trimmed(s) && s != "" && LowerAll(s[..Span(NONSPACE, s, 0)]) == "details"
    ensures ParseLine(s) == ParseTokens(Fields(s, 0))
  {
    hide Run, Search, ParseLine, WordAt;
    assert s[0..Span(NONSPACE, s, 0)] == s[..Span(NONSPACE, s, 0)];
    Verbs(s);
    ParseLineRuns(s);
    DetailsRun(s);
    AdviseRun(s);
    FieldsAt(s, 0);
    if !LastToken(s, 0) {
      var a := Span(SPACE, s, 7);
      TargetTokens(s, a);
      TargetRun(s, a);
    }
  }

  lemma AdviseTokens(s: string)
    requires Trimmed(s) && s != "" && LowerAll(s[..Span(NONSPACE, s, 0)]) == "advise"
    ensures ParseLine(s) == ParseTokens(Fields(s, 0))
  {
    hide Run, Search, ParseLine, WordAt;
    assert s[0..Span(NONSPACE, s, 0)] == s[..Span(NONSPACE, s, 0)];
    Verbs(s);
    ParseLineRuns(s);
    DetailsRun(s);
    AdviseRun(s);
    FieldsAt(s, 0);
    if !LastToken(s, 0) {
      var a := Span(SPACE, s, 6);
      TargetTokens(s, a);
      AdviseJobRun(s, a);
    }
  }

  lemma OtherTokens(s: string)
    requires Trimmed(s) && s != "" && LowerAll(s[..Span(NONSPACE, s, 0)]) !in {"details", "advise"}
    ensures ParseLine(s) == ParseTokens(Fields(s, 0))
  {
    hide Run, Search, ParseLine, WordAt;
    assert s[0..Span(NONSPACE, s, 0)] == s[..Span(NONSPACE, s, 0)];
    Verbs(s);
    ParseLineRuns(s);
    DetailsRun(s);
    AdviseRun(s);
    FieldsAt(s, 0);
  }

  lemma EmptyTokens()
    ensures ParseLine("") == ParseTokens(Fields("", 0))
  {
    hide Run, Search, ParseLine;
    ParseLineRuns("");
  }

  lemma LineTokens(s: string)
    requires Trimmed(s)
    ensures ParseLine(s) == ParseTokens(Fields(s, 0))
  {
    hide Run, Search, ParseLine, ParseTokens, Fields, Span, LowerAll, Trimmed;
    if s == "" {
      EmptyTokens();
    } else if LowerAll(s[..Span(NONSPACE, s, 0)]) == "details" {
      DetailsTokens(s);
    } else if LowerAll(s[..Span(NONSPACE, s, 0)]) == "advise" {
      AdviseTokens(s);
    } else {
      OtherTokens(s);
    }
  }

  lemma FirstLineTrimmed(body: string)
    ensures Trimmed(FirstNonEmptyLine(body))
  {
    hide FirstNonEmptyLine;
  }

  /** The parser built from the four regular expressions is the token rule. */
  lemma ParseIsTokenRule(body: string)
    ensures Parse(body) == ParseTokens(Fields(FirstNonEmptyLine(body), 0))
  {
    hide ParseLine, ParseTokens, Fields, FirstNonEmptyLine, Trimmed;
    FirstLineTrimmed(body);
    LineTokens(FirstNonEmptyLine(body));
  }
}
