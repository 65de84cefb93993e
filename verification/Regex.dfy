/** The part of Go's regexp package that the bot's patterns use, with its
    leftmost-first meaning: at each start, from left to right, alternatives are
    tried in written order and repetitions as long as possible first, and the
    first way to finish the whole pattern wins. */
module Regex {
  import opened Text

  datatype Class =
    | Only(cs: set<char>)
    | Except(cs: set<char>)
    | Between(lo: char, hi: char)
    | Either(a: Class, b: Class)
  {
    predicate Has(c: char) {
      match this
      case Only(cs) => c in cs
      case Except(cs) => c !in cs
      case Between(lo, hi) => lo <= c <= hi
      case Either(a, b) => a.Has(c) || b.Has(c)
    }
  }

  datatype Re =
    | Start                         // ^
    | Finish                        // $
    | Word(w: string, fold: bool)   // literal text; fold is (?i), w in lower case
    | One(c: Class)                 // [c]
    | Many(c: Class)                // [c]*
    | Plus(c: Class)                // [c]+
    | Empty
    | Cat(a: Re, b: Re)
    | Alt(a: Re, b: Re)             // a|b, and a? as Alt(a, Empty)
    | Group(n: nat, r: Re)          // the n-th capturing group

  /** A pattern in progress: what is still to be matched, in order. */
  datatype Prog = Accept | Then(r: Re, next: Prog) | Close(n: nat, from: nat, next: Prog)

  type Caps = map<nat, string>

  datatype Outcome = Miss | Hit(end: nat, caps: Caps)

  datatype Found = NotFound | Found(start: nat, end: nat, caps: Caps)

  function Size(r: Re): nat {
    match r
    case Cat(a, b) => 2 + Size(a) + Size(b)
    case Alt(a, b) => 2 + Size(a) + Size(b)
    case Group(_, r) => 3 + Size(r)
    case _ => 1
  }

  function Weight(k: Prog): nat {
    match k
    case Accept => 0
    case Then(r, k) => Size(r) + 1 + Weight(k)
    case Close(_, _, k) => 1 + Weight(k)
  }

  predicate WordAt(w: string, fold: bool, s: string, i: nat) {
    i + |w| <= |s| && (if fold then LowerAll(s[i..i + |w|]) == w else s[i..i + |w|] == w)
  }

  /** Backtracking match of k on s from position i. */
  function Run(k: Prog, s: string, i: nat, caps: Caps): (o: Outcome)
    requires i <= |s|
    ensures o.Hit? ==> i <= o.end <= |s|
    decreases |s| - i, Weight(k)
  {
    match k
    case Accept => Hit(i, caps)
    case Close(n, from, k) => Run(k, s, i, caps[n := if from <= i then s[from..i] else ""])
    case Then(r, k) =>
      match r
      case Start => if i == 0 then Run(k, s, i, caps) else Miss
      case Finish => if i == |s| then Run(k, s, i, caps) else Miss
      case Word(w, fold) => if WordAt(w, fold, s, i) then Run(k, s, i + |w|, caps) else Miss
      case One(c) => if i < |s| && c.Has(s[i]) then Run(k, s, i + 1, caps) else Miss
      case Plus(c) => if i < |s| && c.Has(s[i]) then Run(Then(Many(c), k), s, i + 1, caps) else Miss
      case Many(c) =>
        var longer := if i < |s| && c.Has(s[i]) then Run(Then(r, k), s, i + 1, caps) else Miss;
        if longer.Hit? then longer else Run(k, s, i, caps)
      case Empty => Run(k, s, i, caps)
      case Cat(a, b) =>
        var rest := Then(b, k);
        assert Weight(rest) == Size(b) + 1 + Weight(k);
        Run(Then(a, rest), s, i, caps)
      case Alt(a, b) =>
        var first := Run(Then(a, k), s, i, caps);
        if first.Hit? then first else Run(Then(b, k), s, i, caps)
      case Group(n, r) =>
        var rest := Close(n, i, k);
        assert Weight(rest) == 1 + Weight(k);
        Run(Then(r, rest), s, i, caps)
  }

  /** FindStringSubmatch: the leftmost start at which k matches. */
  function Search(k: Prog, s: string, i: nat): (f: Found)
    requires i <= |s|
    ensures f.Found? ==> i <= f.start <= f.end <= |s| && Run(k, s, f.start, map[]) == Hit(f.end, f.caps)
    ensures f.Found? ==> forall t | i <= t < f.start :: Run(k, s, t, map[]).Miss?
    ensures f.NotFound? ==> forall t | i <= t <= |s| :: Run(k, s, t, map[]).Miss?
    decreases |s| - i
  {
    match Run(k, s, i, map[])
    case Hit(end, caps) => Found(i, end, caps)
    case Miss => if i < |s| then Search(k, s, i + 1) else NotFound
  }

  function Find(k: Prog, s: string): Found { Search(k, s, 0) }

  lemma {:induction false} SearchFrom(k: Prog, s: string, i: nat, at: nat)
    requires i <= at <= |s|
    requires forall t | i <= t < at :: Run(k, s, t, map[]).Miss?
    ensures Search(k, s, i) == Search(k, s, at)
    decreases at - i
  {
    if i < at {
      SearchFrom(k, s, i + 1, at);
    }
  }

  /** The end of the run of class-c characters that begins at i. */
  function Span(c: Class, s: string, i: nat): (j: nat)
    requires i <= |s|
    ensures i <= j <= |s|
    ensures forall t | i <= t < j :: c.Has(s[t])
    ensures j == |s| || !c.Has(s[j])
    decreases |s| - i
  {
    if i < |s| && c.Has(s[i]) then Span(c, s, i + 1) else i
  }

  lemma {:induction false} SpanIs(c: Class, s: string, i: nat, j: nat)
    requires i <= j <= |s|
    requires forall t | i <= t < j :: c.Has(s[t])
    requires j == |s| || !c.Has(s[j])
    ensures Span(c, s, i) == j
    decreases j - i
  {
    if i < j {
      SpanIs(c, s, i + 1, j);
    }
  }

  /** When the rest of the pattern fails inside the run, a greedy star stands for the whole run. */
  lemma {:induction false} ManyTakesAll(c: Class, k: Prog, s: string, i: nat, caps: Caps)
    requires i <= |s|
    requires forall t | i <= t < Span(c, s, i) :: Run(k, s, t, caps).Miss?
    ensures Run(Then(Many(c), k), s, i, caps) == Run(k, s, Span(c, s, i), caps)
    decreases |s| - i
  {
    if i < |s| && c.Has(s[i]) {
      ManyTakesAll(c, k, s, i + 1, caps);
    }
  }

  lemma PlusTakesAll(c: Class, k: Prog, s: string, i: nat, caps: Caps)
    requires i < |s| && c.Has(s[i])
    requires forall t | i < t < Span(c, s, i) :: Run(k, s, t, caps).Miss?
    ensures Run(Then(Plus(c), k), s, i, caps) == Run(k, s, Span(c, s, i), caps)
  {
    ManyTakesAll(c, k, s, i + 1, caps);
  }

  /** (\c+) followed by literal text that cannot begin with a c. */
  lemma GroupThenWord(n: nat, c: Class, w: string, k: Prog, s: string, i: nat, caps: Caps)
    requires i <= |s| && w != "" && !c.Has(w[0])
    ensures var j := Span(c, s, i);
            Run(Then(Group(n, Plus(c)), Then(Word(w, false), k)), s, i, caps) ==
            if i < j && WordAt(w, false, s, j) then Run(k, s, j + |w|, caps[n := s[i..j]]) else Miss
  {
    var word := Then(Word(w, false), k);
    var close := Close(n, i, word);
    assert Run(Then(Group(n, Plus(c)), word), s, i, caps) == Run(Then(Plus(c), close), s, i, caps);
    if i < |s| && c.Has(s[i]) {
      forall t | i < t < Span(c, s, i)
        ensures Run(close, s, t, caps).Miss?
      {
        assert Run(close, s, t, caps) == Run(word, s, t, caps[n := s[i..t]]);
        if t + |w| <= |s| {
          assert s[t..t + |w|][0] == s[t];
        }
      }
      PlusTakesAll(c, close, s, i, caps);
      var j := Span(c, s, i);
      assert Run(close, s, j, caps) == Run(word, s, j, caps[n := s[i..j]]);
    }
  }

  lemma WordFits(w: string, s: string, i: nat)
    requires WordAt(w, false, s, i)
    ensures i + |w| <= |s|
  {
  }

  lemma RunAccept(s: string, i: nat, caps: Caps)
    requires i <= |s|
    ensures Run(Accept, s, i, caps) == Hit(i, caps)
  {
  }

  /** The text w stands at i. */
  predicate At(w: string, s: string, i: nat) { WordAt(w, false, s, i) }

  lemma AtFits(w: string, s: string, i: nat)
    requires At(w, s, i)
    ensures i + |w| <= |s|
  {
  }

  lemma AtCat(w: string, rest: string, s: string, i: nat)
    ensures At(w + rest, s, i) <==> At(w, s, i) && At(rest, s, i + |w|)
  {
    var j, k := i + |w|, i + |w| + |rest|;
    assert k == i + |w + rest|;
    if k <= |s| {
      assert s[i..k] == s[i..j] + s[j..k];
      assert (w + rest)[..|w|] == w && (w + rest)[|w|..] == rest;
      assert s[i..k][..|w|] == s[i..j] && s[i..k][|w|..] == s[j..k];
    }
  }

  lemma AtCut(s: string, i: nat, j: nat)
    requires i <= j <= |s|
    ensures At(s[i..j], s, i)
  {
  }

  predicate All(c: Class, s: string) { forall i | 0 <= i < |s| :: c.Has(s[i]) }

  /** A run of class-c characters x, stopped by the text w. */
  lemma RunThenWord(c: Class, s: string, a: nat, x: string, w: string)
    requires a <= |s| && All(c, x) && w != "" && !c.Has(w[0]) && At(x, s, a) && At(w, s, a + |x|)
    ensures a + |x| + |w| <= |s| && Span(c, s, a) == a + |x| && s[a..a + |x|] == x
  {
    forall t | a <= t < a + |x|
      ensures c.Has(s[t])
    {
      assert s[t] == s[a..a + |x|][t - a];
    }
    assert s[a + |x|] == s[a + |x|..a + |x| + |w|][0];
    SpanIs(c, s, a, a + |x|);
  }
}
