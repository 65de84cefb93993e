/** internal/correlate/trace.go: finding the runner pod in a job's trace. */
module Trace {
  import opened Text
  import opened Regex
  import opened Command

  const ESC := '\U{1B}'
  const PARAMS := Either(Between('0', '9'), Only({';'}))
  const LETTERS := Either(Between('a', 'z'), Between('A', 'Z'))

  /** ESC [ parameters letter: the control sequences of ECMA-48, section 5.4, that traces use. */
  const ANSI: Prog := Then(Word([ESC, '['], false), Then(Many(PARAMS), Then(One(LETTERS), Accept)))

  const RUNNER_LINE: Prog :=
    Then(Word("Running on ", false), Then(Group(1, Plus(NONSPACE)), Then(Word(" via ", false), Accept)))

  /** A line that does not fit the scanner's buffer with its line feed ends the scan. */
  const MAX_LINE := 1024 * 1024

  datatype Scan = OnPod(name: string) | NoPod | Failed

  /** ReplaceAllString(s, "") from i on. */
  function StripFrom(s: string, i: nat): string
    requires i <= |s|
    decreases |s| - i
  {
    var f := Search(ANSI, s, i);
    if f.NotFound? || f.end == i then s[i..] else s[i..f.start] + StripFrom(s, f.end)
  }

  function Strip(s: string): string { StripFrom(s, 0) }

  function FindPod(line: string): Option<string> {
    var f := Find(RUNNER_LINE, line);
    if f.Found? then Some(Submatch(f.caps, 1)) else None
  }

  function DropCR(line: string): string {
    if line != "" && line[|line| - 1] == '\r' then line[..|line| - 1] else line
  }

  /** What one line of the trace, without its line feed, says about the pod. */
  function PodOf(raw: string): Option<string> { FindPod(Strip(DropCR(raw))) }

  function ScanFrom(trace: string, i: nat): Scan
    requires i <= |trace|
    decreases |trace| - i
  {
    var e := LineEnd(trace[i..]);
    if e >= MAX_LINE then Failed
    else if PodOf(trace[i..i + e]).Some? then OnPod(PodOf(trace[i..i + e]).value)
    else if i + e == |trace| then NoPod
    else ScanFrom(trace, i + e + 1)
  }

  /** trace is None when fetching it failed. */
  method PodForJob(trace: Option<string>) returns (r: Scan)
    ensures r == if trace.None? then Failed else ScanFrom(trace.value, 0)
  {
    hide PodOf, LineEnd;
    if trace.None? {
      return Failed;
    }
    var text := trace.value;
    var i := 0;
    while true
      invariant i <= |text| && ScanFrom(text, 0) == ScanFrom(text, i)
      decreases |text| - i
    {
      var e := LineEnd(text[i..]);
      if e >= MAX_LINE {
        return Failed;
      }
      var pod := PodOf(text[i..i + e]);
      if pod.Some? {
        return OnPod(pod.value);
      }
      if i + e == |text| {
        return NoPod;
      }
      i := i + e + 1;
    }
  }

  // ---- stripping ------------------------------------------------------------------

  /** A trace with control sequences put into it: its own characters and the insertions. */
  datatype Piece = Own(c: char) | Csi(params: string, letter: char) {
    predicate Good() {
      match this
      case Own(c) => c != ESC
      case Csi(params, letter) => LETTERS.Has(letter) && All(PARAMS, params)
    }
    function Show(): string {
      match this
      case Own(c) => [c]
      case Csi(params, letter) => [ESC, '['] + params + [letter]
    }
    function Kept(): string { if Own? then [c] else "" }
  }

  /** What may be put in: ESC [, digits and semicolons, and a letter. */
  lemma GoodCsi(params: string, letter: char)
    ensures Csi(params, letter).Good() <==>
              && ('a' <= letter <= 'z' || 'A' <= letter <= 'Z')
              && forall i | 0 <= i < |params| :: '0' <= params[i] <= '9' || params[i] == ';'
    ensures Csi(params, letter).Show() == ['\U{1B}', '['] + params + [letter]
  {
    forall i | 0 <= i < |params|
      ensures PARAMS.Has(params[i]) <==> '0' <= params[i] <= '9' || params[i] == ';'
    {
      ParamsAre(params[i]);
    }
    assert LETTERS.Has(letter) <==> 'a' <= letter <= 'z' || 'A' <= letter <= 'Z';
  }

  lemma ParamsAre(c: char)
    ensures PARAMS.Has(c) <==> '0' <= c <= '9' || c == ';'
  {
  }

  predicate AllGood(ps: seq<Piece>) { forall i | 0 <= i < |ps| :: ps[i].Good() }

  /** The trace as GitLab returns it. */
  function Whole(ps: seq<Piece>): string {
    if ps == [] then "" else ps[0].Show() + Whole(ps[1..])
  }

  /** The trace with the insertions left out. */
  function Plain(ps: seq<Piece>): string {
    if ps == [] then "" else ps[0].Kept() + Plain(ps[1..])
  }

  lemma {:induction false} PlainIsShorter(ps: seq<Piece>)
    ensures |Plain(ps)| <= |Whole(ps)|
  {
    if ps != [] {
      PlainIsShorter(ps[1..]);
    }
  }

  lemma CsiRun(s: string, i: nat, p: Piece)
    requires i <= |s| && p.Csi? && p.Good() && At(p.Show(), s, i)
    ensures Run(ANSI, s, i, map[]) == Hit(i + |p.Show()|, map[])
  {
    hide *;
    var tail := p.params + [p.letter];
    CsiIs(p);
    AtCat([ESC, '['], tail, s, i);
    AtCat(p.params, [p.letter], s, i + 2);
    AtFits([ESC, '['], s, i);
    RunThenWord(PARAMS, s, i + 2, p.params, [p.letter]);
    LetterAfterParams(s, i + 2, p.letter);
    AnsiHead(s, i);
  }

  lemma CsiIs(p: Piece)
    requires p.Csi? && p.Good()
    ensures p.Show() == [ESC, '['] + (p.params + [p.letter])
    ensures All(PARAMS, p.params) && LETTERS.Has(p.letter) && !PARAMS.Has(p.letter)
  {
    hide Class.Has;
    ParamsAreNotLetters(p.letter);
  }

  lemma ParamsAreNotLetters(c: char)
    ensures PARAMS.Has(c) ==> !LETTERS.Has(c)
  {
    assert PARAMS.Has(c) <==> '0' <= c <= '9' || c == ';';
    assert LETTERS.Has(c) <==> 'a' <= c <= 'z' || 'A' <= c <= 'Z';
  }

  lemma LetterAfterParams(s: string, a: nat, letter: char)
    requires a <= |s| && LETTERS.Has(letter) && At([letter], s, Span(PARAMS, s, a))
    ensures Run(ANSI.next, s, a, map[]) == Hit(Span(PARAMS, s, a) + 1, map[])
  {
    var e := Span(PARAMS, s, a);
    var k := Then(One(LETTERS), Accept);
    assert s[e] == s[e..e + 1][0] == letter;
    forall t | a <= t < e
      ensures Run(k, s, t, map[]).Miss?
    {
      ParamsAreNotLetters(s[t]);
    }
    ManyTakesAll(PARAMS, k, s, a, map[]);
    RunAccept(s, e + 1, map[]);
  }

  lemma AnsiHead(s: string, i: nat)
    requires At([ESC, '['], s, i)
    ensures Run(ANSI, s, i, map[]) == Run(ANSI.next, s, i + 2, map[])
  {
  }

  lemma OwnRun(s: string, i: nat)
    requires i < |s| && s[i] != ESC
    ensures Run(ANSI, s, i, map[]).Miss?
  {
    if i + 2 <= |s| {
      assert s[i..i + 2][0] != ESC;
    }
  }

  lemma StripHit(s: string, i: nat, j: nat)
    requires i < j <= |s| && Run(ANSI, s, i, map[]) == Hit(j, map[])
    ensures StripFrom(s, i) == StripFrom(s, j)
  {
    hide Run;
    assert Search(ANSI, s, i) == Found(i, j, map[]);
    assert s[i..i] == "";
  }

  lemma StripMiss(s: string, i: nat)
    requires i < |s| && s[i] != ESC
    ensures StripFrom(s, i) == [s[i]] + StripFrom(s, i + 1)
  {
    hide Run;
    OwnRun(s, i);
    var f := Search(ANSI, s, i + 1);
    assert Search(ANSI, s, i) == f;
    if f.Found? {
      AnsiConsumes(s, f.start);
      assert s[i..f.start] == [s[i]] + s[i + 1..f.start];
    } else {
      assert s[i..] == [s[i]] + s[i + 1..];
    }
  }

  /** No match is empty. */
  lemma AnsiConsumes(s: string, i: nat)
    requires i <= |s| && Run(ANSI, s, i, map[]).Hit?
    ensures i + 2 <= Run(ANSI, s, i, map[]).end
  {
  }

  lemma {:induction false} StripPieces(s: string, i: nat, ps: seq<Piece>)
    requires i <= |s| && AllGood(ps) && s[i..] == Whole(ps)
    ensures StripFrom(s, i) == Plain(ps)
    decreases |ps|
  {
    hide Run, StripFrom, Whole, Plain;
    ShowFirst(ps);
    if ps == [] {
      assert i == |s|;
      StripEnd(s);
    } else {
      var j := i + |ps[0].Show()|;
      assert ps[0].Good();
      assert s[j..] == Whole(ps[1..]) by { assert s[j..] == s[i..][|ps[0].Show()|..]; }
      StripPieces(s, j, ps[1..]);
      if ps[0].Csi? {
        assert At(ps[0].Show(), s, i) by { assert s[i..j] == s[i..][..j - i]; }
        CsiRun(s, i, ps[0]);
        StripHit(s, i, j);
      } else {
        assert s[i] == s[i..][0] == ps[0].c;
        StripMiss(s, i);
      }
    }
  }

  lemma ShowFirst(ps: seq<Piece>)
    ensures ps == [] ==> Whole(ps) == "" && Plain(ps) == ""
    ensures ps != [] ==> Whole(ps) == ps[0].Show() + Whole(ps[1..]) && Plain(ps) == ps[0].Kept() + Plain(ps[1..])
  {
  }

  lemma StripEnd(s: string)
    ensures StripFrom(s, |s|) == ""
  {
    assert s[|s|..] == "";
  }

  /** Stripping takes out exactly what was put in. */
  lemma StripInvertsInsertion(ps: seq<Piece>)
    requires AllGood(ps)
    ensures Strip(Whole(ps)) == Plain(ps)
  {
    assert Whole(ps)[0..] == Whole(ps);
    StripPieces(Whole(ps), 0, ps);
  }

  // ---- a carriage return at the end of a line changes nothing -----------------------

  predicate AvoidsRe(r: Re, c: char) {
    match r
    case Finish => false
    case Word(w, fold) => !fold && c !in w
    case One(cls) => !cls.Has(c)
    case Many(cls) => !cls.Has(c)
    case Plus(cls) => !cls.Has(c)
    case Cat(a, b) => AvoidsRe(a, c) && AvoidsRe(b, c)
    case Alt(a, b) => AvoidsRe(a, c) && AvoidsRe(b, c)
    case Group(_, r) => AvoidsRe(r, c)
    case _ => true
  }

  predicate Avoids(k: Prog, c: char) {
    match k
    case Accept => true
    case Then(r, k) => AvoidsRe(r, c) && Avoids(k, c)
    case Close(_, _, k) => Avoids(k, c)
  }

  lemma WordExtended(w: string, s: string, c: char, i: nat)
    requires i <= |s| && c !in w
    ensures WordAt(w, false, s + [c], i) <==> WordAt(w, false, s, i)
  {
    if i + |w| <= |s| {
      assert (s + [c])[i..i + |w|] == s[i..i + |w|];
    } else if i + |w| == |s| + 1 {
      assert (s + [c])[i..i + |w|][|w| - 1] == c;
    }
  }

  /** A pattern that cannot match c does not see a c after the end of the text. */
  lemma {:induction false} RunExtended(k: Prog, s: string, c: char, i: nat, caps: Caps)
    requires i <= |s| && Avoids(k, c)
    ensures Run(k, s + [c], i, caps) == Run(k, s, i, caps)
    decreases |s| - i, Weight(k)
  {
    match k
    case Accept =>
    case Close(n, from, next) =>
      var text := if from <= i then s[from..i] else "";
      assert from <= i ==> (s + [c])[from..i] == s[from..i];
      RunExtended(next, s, c, i, caps[n := text]);
    case Then(r, next) =>
      match r {
        case Start => RunExtended(next, s, c, i, caps);
        case Empty => RunExtended(next, s, c, i, caps);
        case Word(w, _) =>
          WordExtended(w, s, c, i);
          if WordAt(w, false, s, i) { RunExtended(next, s, c, i + |w|, caps); }
        case One(cls) =>
          if i < |s| && cls.Has(s[i]) { RunExtended(next, s, c, i + 1, caps); }
        case Plus(cls) =>
          if i < |s| && cls.Has(s[i]) { RunExtended(Then(Many(cls), next), s, c, i + 1, caps); }
        case Many(cls) =>
          if i < |s| && cls.Has(s[i]) { RunExtended(k, s, c, i + 1, caps); }
          RunExtended(next, s, c, i, caps);
        case Cat(a, b) =>
          var rest := Then(b, next);
          assert Weight(rest) == Size(b) + 1 + Weight(next);
          RunExtended(Then(a, rest), s, c, i, caps);
        case Alt(a, b) =>
          RunExtended(Then(a, next), s, c, i, caps);
          RunExtended(Then(b, next), s, c, i, caps);
        case Group(n, r) =>
          var rest := Close(n, i, next);
          assert Weight(rest) == 1 + Weight(next);
          RunExtended(Then(r, rest), s, c, i, caps);
      }
  }

  lemma {:induction false} SearchExtended(k: Prog, s: string, c: char, i: nat)
    requires i <= |s| && Avoids(k, c) && Run(k, s + [c], |s| + 1, map[]).Miss?
    ensures Search(k, s + [c], i) == Search(k, s, i)
    decreases |s| - i
  {
    hide Run;
    RunExtended(k, s, c, i, map[]);
    if i < |s| {
      SearchExtended(k, s, c, i + 1);
    }
  }

  lemma PodBeforeCR(s: string)
    ensures FindPod(s + "\r") == FindPod(s)
  {
    assert Avoids(RUNNER_LINE, '\r');
    assert Run(RUNNER_LINE, s + "\r", |s| + 1, map[]).Miss?;
    SearchExtended(RUNNER_LINE, s, '\r', 0);
  }

  // ---- line by line -------------------------------------------------------------------

  lemma {:induction false} WholeCat(a: seq<Piece>, b: seq<Piece>)
    ensures Whole(a + b) == Whole(a) + Whole(b)
  {
    if a == [] {
      assert a + b == b;
    } else {
      assert (a + b)[0] == a[0] && (a + b)[1..] == a[1..] + b;
      WholeCat(a[1..], b);
    }
  }

  lemma {:induction false} PlainCat(a: seq<Piece>, b: seq<Piece>)
    ensures Plain(a + b) == Plain(a) + Plain(b)
  {
    if a == [] {
      assert a + b == b;
    } else {
      assert (a + b)[0] == a[0] && (a + b)[1..] == a[1..] + b;
      PlainCat(a[1..], b);
    }
  }

  /** The pieces before the first line feed. */
  function PieceEnd(ps: seq<Piece>): (k: nat)
    ensures k <= |ps|
    ensures forall i | 0 <= i < k :: ps[i] != Own('\n')
    ensures k < |ps| ==> ps[k] == Own('\n')
  {
    if ps == [] || ps[0] == Own('\n') then 0 else 1 + PieceEnd(ps[1..])
  }

  lemma {:induction false} NoLineFeed(ps: seq<Piece>)
    requires AllGood(ps) && forall i | 0 <= i < |ps| :: ps[i] != Own('\n')
    ensures '\n' !in Whole(ps) && '\n' !in Plain(ps)
  {
    if ps != [] {
      NoLineFeed(ps[1..]);
      assert ps[0].Good();
      if ps[0].Csi? {
        assert PARAMS.Has('\n') <==> '0' <= '\n' <= '9' || '\n' == ';';
        assert '\n' !in ps[0].params;
        assert ps[0].letter != '\n' by { assert LETTERS.Has('\n') <==> 'a' <= '\n' <= 'z' || 'A' <= '\n' <= 'Z'; }
      }
    }
  }

  function OwnPieces(t: string): seq<Piece> { seq(|t|, i requires 0 <= i < |t| => Own(t[i])) }

  lemma {:induction false} ShowOwn(t: string)
    ensures Whole(OwnPieces(t)) == t && Plain(OwnPieces(t)) == t
  {
    if t != "" {
      assert OwnPieces(t)[1..] == OwnPieces(t[1..]);
      ShowOwn(t[1..]);
    }
  }

  lemma {:induction false} PlainHasNoEsc(ps: seq<Piece>)
    requires AllGood(ps)
    ensures ESC !in Plain(ps)
  {
    if ps != [] {
      assert ps[0].Good();
      PlainHasNoEsc(ps[1..]);
    }
  }

  lemma StripPlain(t: string)
    requires ESC !in t
    ensures Strip(t) == t
  {
    var ps := OwnPieces(t);
    forall i | 0 <= i < |ps|
      ensures ps[i].Good()
    {
      assert t[i] in t;
    }
    ShowOwn(t);
    StripInvertsInsertion(ps);
  }

  lemma PodOfPlain(t: string)
    requires ESC !in t
    ensures PodOf(t) == FindPod(t)
  {
    hide Strip, FindPod;
    StripPlain(DropCR(t));
    if DropCR(t) != t {
      assert t == DropCR(t) + "\r";
      PodBeforeCR(DropCR(t));
    }
  }

  lemma {:induction false} LastShown(ps: seq<Piece>)
    requires AllGood(ps) && ps != [] && ps[|ps| - 1] != Own('\r')
    ensures Whole(ps) != "" && Whole(ps)[|Whole(ps)| - 1] != '\r'
  {
    if |ps| == 1 {
      assert ps[0].Good();
      assert LETTERS.Has('\r') <==> 'a' <= '\r' <= 'z' || 'A' <= '\r' <= 'Z';
    } else {
      LastShown(ps[1..]);
    }
  }

  lemma AppendCR(head: seq<Piece>)
    ensures Whole(head + [Own('\r')]) == Whole(head) + "\r" && Plain(head + [Own('\r')]) == Plain(head) + "\r"
  {
    WholeCat(head, [Own('\r')]);
    PlainCat(head, [Own('\r')]);
    assert Whole([Own('\r')]) == "\r" && Plain([Own('\r')]) == "\r";
  }

  lemma PodOfEnds(t: string)
    ensures PodOf(t + "\r") == FindPod(Strip(t))
    ensures t == "" || t[|t| - 1] != '\r' ==> PodOf(t) == FindPod(Strip(t))
  {
    hide Strip, FindPod;
    assert DropCR(t + "\r") == t;
  }

  lemma PodOfWhole(ps: seq<Piece>)
    requires AllGood(ps)
    ensures PodOf(Whole(ps)) == FindPod(Plain(ps))
  {
    hide Strip, FindPod, PodOf, Whole, Plain;
    StripInvertsInsertion(ps);
    PodOfEnds(Whole(ps));
    if ps != [] && ps[|ps| - 1] == Own('\r') {
      var head := ps[..|ps| - 1];
      assert ps == head + [Own('\r')];
      AppendCR(head);
      StripInvertsInsertion(head);
      PodOfEnds(Whole(head));
      PodBeforeCR(Plain(head));
    } else if ps != [] {
      LastShown(ps);
    } else {
      ShowFirst(ps);
    }
  }

  /** One line says the same with and without the insertions, even when an insertion
      separates the carriage return from the end of the line. */
  lemma SamePodOfLine(ps: seq<Piece>)
    requires AllGood(ps)
    ensures PodOf(Whole(ps)) == PodOf(Plain(ps))
  {
    hide *;
    PodOfWhole(ps);
    PlainHasNoEsc(ps);
    PodOfPlain(Plain(ps));
  }

  ghost predicate LinesFit(trace: string, i: nat)
    requires i <= |trace|
    decreases |trace| - i
  {
    var e := LineEnd(trace[i..]);
    e < MAX_LINE && (i + e < |trace| ==> LinesFit(trace, i + e + 1))
  }

  /** One round of the scan, over a line and what follows it. */
  lemma ScanStep(s: string, i: nat, line: string, rest: string)
    requires i <= |s| && s[i..] == line + rest && '\n' !in line && (rest == "" || rest[0] == '\n')
    ensures i + |line| <= |s| && LineEnd(s[i..]) == |line| && s[i..i + |line|] == line
    ensures rest != "" ==> i + |line| < |s| && s[i + |line| + 1..] == rest[1..]
    ensures ScanFrom(s, i) ==
            if |line| >= MAX_LINE then Failed
            else if PodOf(line).Some? then OnPod(PodOf(line).value)
            else if rest == "" then NoPod
            else ScanFrom(s, i + |line| + 1)
  {
    hide PodOf, LineEnd;
    LineEndIs(line, rest);
    assert s[i..i + |line|] == s[i..][..|line|];
    assert rest != "" ==> s[i + |line| + 1..] == s[i..][|line| + 1..];
  }

  lemma {:induction false} ScanPieces(w: string, i: nat, p: string, j: nat, ps: seq<Piece>)
    requires i <= |w| && j <= |p| && AllGood(ps)
    requires w[i..] == Whole(ps) && p[j..] == Plain(ps) && LinesFit(w, i)
    ensures ScanFrom(w, i) == ScanFrom(p, j)
    decreases |ps|
  {
    hide *;
    var line, rest := CutLine(ps);
    ScanStep(w, i, Whole(line), Whole(rest));
    ScanStep(p, j, Plain(line), Plain(rest));
    LinesFitStep(w, i);
    if rest != [] {
      ScanPieces(w, i + |Whole(line)| + 1, p, j + |Plain(line)| + 1, rest[1..]);
    }
  }

  lemma CutLine(ps: seq<Piece>) returns (line: seq<Piece>, rest: seq<Piece>)
    requires AllGood(ps)
    ensures AllGood(line) && |rest| <= |ps| && (rest != [] ==> AllGood(rest[1..]))
    ensures Whole(ps) == Whole(line) + Whole(rest) && Plain(ps) == Plain(line) + Plain(rest)
    ensures '\n' !in Whole(line) && '\n' !in Plain(line)
    ensures |Plain(line)| <= |Whole(line)| && PodOf(Whole(line)) == PodOf(Plain(line))
    ensures rest == [] ==> Whole(rest) == "" && Plain(rest) == ""
    ensures rest != [] ==> Whole(rest) == "\n" + Whole(rest[1..]) && Plain(rest) == "\n" + Plain(rest[1..])
  {
    hide PodOf, Whole, Plain;
    var k := PieceEnd(ps);
    line, rest := ps[..k], ps[k..];
    assert ps == line + rest;
    WholeCat(line, rest);
    PlainCat(line, rest);
    NoLineFeed(line);
    SamePodOfLine(line);
    PlainIsShorter(line);
    ShowFirst(rest);
  }

  lemma LinesFitStep(s: string, i: nat)
    requires i <= |s| && LinesFit(s, i)
    ensures var e := LineEnd(s[i..]); e < MAX_LINE && (i + e < |s| ==> LinesFit(s, i + e + 1))
  {
  }

  /** Control sequences put anywhere into a trace do not change the pod that is found. */
  lemma InsertionKeepsPod(ps: seq<Piece>)
    requires AllGood(ps) && LinesFit(Whole(ps), 0)
    ensures ScanFrom(Whole(ps), 0) == ScanFrom(Plain(ps), 0)
  {
    assert Whole(ps)[0..] == Whole(ps) && Plain(ps)[0..] == Plain(ps);
    ScanPieces(Whole(ps), 0, Plain(ps), 0, ps);
  }

  // ---- the first line that names a pod -------------------------------------------------

  function Lines(trace: string, i: nat): seq<string>
    requires i <= |trace|
    decreases |trace| - i
  {
    var e := LineEnd(trace[i..]);
    [trace[i..i + e]] + if i + e == |trace| then [] else Lines(trace, i + e + 1)
  }

  predicate FitsWithoutPod(raw: string) { |raw| < 1024 * 1024 && PodOf(raw).None? }

  function LineOutcome(raw: string): Scan
    requires !FitsWithoutPod(raw)
  {
    if |raw| >= 1024 * 1024 then Failed else OnPod(PodOf(raw).value)
  }

  /** The scan stops at the first line that names a pod or does not fit, and reports that line. */
  lemma {:induction false} ScanIsFirstLine(trace: string, i: nat) returns (n: nat)
    requires i <= |trace|
    ensures var ls := Lines(trace, i);
            && n <= |ls|
            && (forall k | 0 <= k < n :: FitsWithoutPod(ls[k]))
            && (n < |ls| ==> !FitsWithoutPod(ls[n]))
            && ScanFrom(trace, i) == if n == |ls| then NoPod else LineOutcome(ls[n])
    decreases |trace| - i
  {
    hide PodOf, LineEnd, Lines, ScanFrom;
    LinesStep(trace, i);
    var e := LineEnd(trace[i..]);
    var raw := trace[i..i + e];
    if !FitsWithoutPod(raw) {
      n := 0;
    } else if i + e == |trace| {
      n := 1;
    } else {
      n := ScanIsFirstLine(trace, i + e + 1);
      assert Lines(trace, i)[1..] == Lines(trace, i + e + 1);
      n := n + 1;
    }
  }

  lemma LinesStep(trace: string, i: nat)
    requires i <= |trace|
    ensures var e := LineEnd(trace[i..]);
            var raw := trace[i..i + e];
            && Lines(trace, i) == [raw] + (if i + e == |trace| then [] else Lines(trace, i + e + 1))
            && ScanFrom(trace, i) ==
               if !FitsWithoutPod(raw) then LineOutcome(raw)
               else if i + e == |trace| then NoPod else ScanFrom(trace, i + e + 1)
  {
    hide PodOf, LineEnd;
  }

  // ---- what the runner's line says ---------------------------------------------------------

  const BEFORE := "Running on "
  const AFTER := " via "

  /** The runner's phrase about the pod stands at i. */
  predicate PodAt(line: string, i: nat, pod: string)
    requires i <= |line|
  {
    pod != "" && All(NONSPACE, pod) && At(BEFORE + (pod + AFTER), line, i)
  }

  lemma PhraseRun(line: string, i: nat)
    requires i <= |line|
    ensures var o := Run(RUNNER_LINE, line, i, map[]);
            if !At(BEFORE, line, i) then o.Miss? else
            var a := i + |BEFORE|;
            a <= |line| &&
            var e := Span(NONSPACE, line, a);
            if a < e && At(AFTER, line, e) then o == Hit(e + |AFTER|, map[1 := line[a..e]]) else o.Miss?
  {
    hide Run, Span;
    assert Run(RUNNER_LINE, line, i, map[]) ==
           if WordAt(BEFORE, false, line, i) then Run(RUNNER_LINE.next, line, i + |BEFORE|, map[]) else Miss
    by { RunnerHead(line, i); }
    if At(BEFORE, line, i) {
      AtFits(BEFORE, line, i);
      var a := i + |BEFORE|;
      GroupThenWord(1, NONSPACE, AFTER, Accept, line, a, map[]);
      var e := Span(NONSPACE, line, a);
      if a < e && At(AFTER, line, e) {
        AtFits(AFTER, line, e);
        RunAccept(line, e + |AFTER|, map[1 := line[a..e]]);
      }
    }
  }

  lemma RunnerHead(line: string, i: nat)
    requires i <= |line|
    ensures Run(RUNNER_LINE, line, i, map[]) ==
            if WordAt(BEFORE, false, line, i) then Run(RUNNER_LINE.next, line, i + |BEFORE|, map[]) else Miss
  {
  }

  lemma PhraseIsThere(line: string, i: nat, e: nat)
    requires i <= |line| && At(BEFORE, line, i) && i + |BEFORE| < e == Span(NONSPACE, line, i + |BEFORE|)
    requires At(AFTER, line, e)
    ensures PodAt(line, i, line[i + |BEFORE|..e])
  {
    hide At;
    var a := i + |BEFORE|;
    var pod := line[a..e];
    AtCut(line, a, e);
    assert a + |pod| == e;
    AtCat(pod, AFTER, line, a);
    AtCat(BEFORE, pod + AFTER, line, i);
    assert All(NONSPACE, pod);
  }

  lemma PhraseIsRead(line: string, i: nat, pod: string)
    requires i <= |line| && PodAt(line, i, pod)
    ensures At(BEFORE, line, i) && i + |BEFORE| <= |line|
    ensures var a := i + |BEFORE|; var e := Span(NONSPACE, line, a);
            e == a + |pod| && line[a..e] == pod && At(AFTER, line, e)
  {
    hide At, Span, All;
    var a := i + |BEFORE|;
    AtCat(BEFORE, pod + AFTER, line, i);
    AtFits(BEFORE, line, i);
    AtCat(pod, AFTER, line, a);
    RunThenWord(NONSPACE, line, a, pod, AFTER);
  }

  /** The pattern matches where, and only where, the phrase stands, and captures the pod. */
  lemma PhraseMatches(line: string, i: nat)
    requires i <= |line|
    ensures var o := Run(RUNNER_LINE, line, i, map[]);
            && (o.Hit? ==> 1 in o.caps && PodAt(line, i, o.caps[1]))
            && forall pod | PodAt(line, i, pod) :: o.Hit? && o.caps == map[1 := pod]
  {
    hide *;
    PhraseRun(line, i);
    if At(BEFORE, line, i) {
      var e := Span(NONSPACE, line, i + |BEFORE|);
      if i + |BEFORE| < e && At(AFTER, line, e) {
        PhraseIsThere(line, i, e);
      }
    }
    forall pod | PodAt(line, i, pod)
      ensures var o := Run(RUNNER_LINE, line, i, map[]); o.Hit? && o.caps == map[1 := pod]
    {
      PhraseIsRead(line, i, pod);
      PodIsNotEmpty(line, i, pod);
    }
  }

  lemma PodIsNotEmpty(line: string, i: nat, pod: string)
    requires i <= |line| && PodAt(line, i, pod)
    ensures |pod| > 0
  {
  }

  ghost predicate FirstPodAt(line: string, i: nat, pod: string) {
    i <= |line| && PodAt(line, i, pod) && forall t, p | 0 <= t < i :: !PodAt(line, t, p)
  }

  /** A line names the pod of the first phrase in it, and none exactly when it holds no phrase. */
  lemma FindPodIff(line: string, pod: string)
    ensures FindPod(line) == Some(pod) <==> exists i: nat :: FirstPodAt(line, i, pod)
    ensures FindPod(line).None? <==> forall i: nat, p | i <= |line| :: !PodAt(line, i, p)
  {
    hide Run, PodAt;
    var f := Find(RUNNER_LINE, line);
    if f.Found? {
      PhraseMatches(line, f.start);
    }
    forall t, p | 0 <= t <= |line| && PodAt(line, t, p)
      ensures f.Found? && f.start <= t && (t == f.start ==> f.caps == map[1 := p])
    {
      PhraseMatches(line, t);
    }
    assert f.Found? ==> FirstPodAt(line, f.start, f.caps[1]);
  }
}
