/** ASCII text: case folding, white space, lines and decimal numerals, as the Go
    standard library treats them. */
module Text {
  datatype Option<+T> = None | Some(value: T)

  predicate Contains(s: string, sub: string) {
    exists i | 0 <= i <= |s| :: sub <= s[i..]
  }

  lemma ContainsMiddle(a: string, sub: string, b: string)
    ensures Contains(a + sub + b, sub)
  {
    assert (a + sub + b)[|a|..] == sub + b;
  }

  // ---- letter case ----------------------------------------------------------

  function Lower(c: char): char {
    if 'A' <= c <= 'Z' then (c as int + 32) as char else c
  }

  function LowerAll(s: string): (r: string)
    ensures |r| == |s|
    ensures forall i | 0 <= i < |s| :: r[i] == Lower(s[i])
  {
    seq(|s|, i requires 0 <= i < |s| => Lower(s[i]))
  }

  /** Capital letters, and they alone, fold to their small letters. */
  lemma LettersFold(k: nat)
    requires k < 26
    ensures Lower(('A' as int + k) as char) == ('a' as int + k) as char == Lower(('a' as int + k) as char)
    ensures forall c | !('A' <= c <= 'Z') :: Lower(c) == c
  {
  }

  // ---- white space ----------------------------------------------------------

  /** The ASCII part of unicode.IsSpace, which strings.TrimSpace removes. */
  predicate IsTrimSpace(c: char) {
    c in {'\t', '\n', '\U{0B}', '\U{0C}', '\r', ' '}
  }

  lemma TrimSpacesAre(c: char)
    ensures IsTrimSpace(c) <==> c == ' ' || c == '\t' || c == '\n' || c == '\r' || c == '\U{0B}' || c == '\U{0C}'
  {
  }

  function TrimLeft(s: string): (r: string)
    ensures r == "" || !IsTrimSpace(r[0])
    ensures |r| <= |s| && r == s[|s| - |r|..]
    ensures forall i | 0 <= i < |s| - |r| :: IsTrimSpace(s[i])
  {
    if s != "" && IsTrimSpace(s[0]) then TrimLeft(s[1..]) else s
  }

  function TrimRight(s: string): (r: string)
    ensures r == "" || !IsTrimSpace(r[|r| - 1])
    ensures r <= s
    ensures forall i | |r| <= i < |s| :: IsTrimSpace(s[i])
  {
    if s != "" && IsTrimSpace(s[|s| - 1]) then TrimRight(s[..|s| - 1]) else s
  }

  function TrimSpace(s: string): (r: string)
    ensures r == "" || (!IsTrimSpace(r[0]) && !IsTrimSpace(r[|r| - 1]))
  {
    TrimRight(TrimLeft(s))
  }

  predicate AllTrimSpace(s: string) {
    forall c | c in s :: IsTrimSpace(c)
  }

  lemma {:induction false} TrimLeftPadded(a: string, x: string)
    requires AllTrimSpace(a) && (x == "" || !IsTrimSpace(x[0]))
    ensures TrimLeft(a + x) == x
  {
    if a == "" {
      assert a + x == x;
    } else {
      assert (a + x)[0] == a[0];
      assert (a + x)[1..] == a[1..] + x;
      TrimLeftPadded(a[1..], x);
    }
  }

  lemma {:induction false} TrimRightPadded(x: string, b: string)
    requires AllTrimSpace(b) && (x == "" || !IsTrimSpace(x[|x| - 1]))
    ensures TrimRight(x + b) == x
  {
    if b == "" {
      assert x + b == x;
    } else {
      assert (x + b)[|x + b| - 1] == b[|b| - 1];
      assert (x + b)[..|x + b| - 1] == x + b[..|b| - 1];
      TrimRightPadded(x, b[..|b| - 1]);
    }
  }

  lemma TrimPadded(a: string, w: string, b: string)
    requires AllTrimSpace(a) && AllTrimSpace(b)
    requires w != "" && !IsTrimSpace(w[0]) && !IsTrimSpace(w[|w| - 1])
    ensures TrimSpace(a + w + b) == w
  {
    assert a + w + b == a + (w + b);
    TrimLeftPadded(a, w + b);
    TrimRightPadded(w, b);
  }

  lemma TrimBlank(s: string)
    requires AllTrimSpace(s)
    ensures TrimSpace(s) == ""
  {
    assert s + "" == s;
    TrimLeftPadded(s, "");
  }

  // ---- lines ----------------------------------------------------------------

  function LineEnd(s: string): (e: nat)
    ensures e <= |s| && '\n' !in s[..e]
    ensures e < |s| ==> s[e] == '\n'
  {
    if s == "" || s[0] == '\n' then 0 else 1 + LineEnd(s[1..])
  }

  lemma {:induction false} LineEndIs(a: string, tail: string)
    requires '\n' !in a && (tail == "" || tail[0] == '\n')
    ensures LineEnd(a + tail) == |a|
  {
    if a != "" {
      assert (a + tail)[1..] == a[1..] + tail;
      LineEndIs(a[1..], tail);
    }
  }

  // ---- decimal numerals -----------------------------------------------------

  predicate IsDigit(c: char) { '0' <= c <= '9' }

  predicate AllDigits(s: string) { forall c | c in s :: IsDigit(c) }

  function Digit(n: nat): (c: char)
    requires n < 10
    ensures IsDigit(c)
  {
    (n + '0' as int) as char
  }

  /** fmt's %d of a non-negative integer. */
  function Dec(n: nat): (s: string)
    ensures s != "" && AllDigits(s)
  {
    if n < 10 then [Digit(n)] else Dec(n / 10) + [Digit(n % 10)]
  }

  /** fmt's %d. */
  function DecInt(n: int): string {
    if n < 0 then "-" + Dec(-n) else Dec(n)
  }

  function Value(s: string): nat
    requires AllDigits(s)
  {
    if s == "" then 0
    else
      assert s[|s| - 1] in s;
      Value(s[..|s| - 1]) * 10 + (s[|s| - 1] as int - '0' as int)
  }

  lemma {:induction false} ValueDec(n: nat)
    ensures Value(Dec(n)) == n
  {
    if n >= 10 {
      ValueDec(n / 10);
      var s := Dec(n);
      assert s[..|s| - 1] == Dec(n / 10);
    }
  }

  lemma DecInjective(a: nat, b: nat)
    requires Dec(a) == Dec(b)
    ensures a == b
  {
    ValueDec(a);
    ValueDec(b);
  }

  const MAX_INT64: int := 0x7fff_ffff_ffff_ffff
  const MIN_INT64: int := -0x8000_0000_0000_0000

  function Concat(parts: seq<string>): string {
    if parts == [] then "" else Concat(parts[..|parts| - 1]) + parts[|parts| - 1]
  }

  lemma {:induction false} ConcatCat(a: seq<string>, b: seq<string>)
    ensures Concat(a + b) == Concat(a) + Concat(b)
    ensures Concat([]) == "" && forall x :: Concat([x]) == x
    decreases |b|
  {
    forall x
      ensures Concat([x]) == x
    {
      assert [x][..0] == [];
    }
    if b == [] {
      assert a + b == a;
    } else {
      assert (a + b)[..|a + b| - 1] == a + b[..|b| - 1];
      ConcatCat(a, b[..|b| - 1]);
    }
  }

  lemma ConcatSnoc(parts: seq<string>, x: string)
    ensures Concat(parts + [x]) == Concat(parts) + x
  {
    assert (parts + [x])[..|parts|] == parts;
  }

  /** What strconv.ParseInt(s, 10, 64) returns: the value and whether err is nil.
      Out of range, the value is the nearest int64; on bad syntax it is 0. */
  datatype ParsedInt = ParsedInt(value: int, ok: bool)

  function ParseInt(s: string): ParsedInt {
    var neg := s != "" && s[0] == '-';
    var digits := if s != "" && (s[0] == '-' || s[0] == '+') then s[1..] else s;
    if digits == "" || !AllDigits(digits) then ParsedInt(0, false)
    else
      var v: int := if neg then 0 - Value(digits) else Value(digits);
      if v > MAX_INT64 then ParsedInt(MAX_INT64, false)
      else if v < MIN_INT64 then ParsedInt(MIN_INT64, false)
      else ParsedInt(v, true)
  }

  /** Digits that are too many for an int64 read as the greatest, with an error. */
  lemma ParseIntOfDigits(s: string)
    requires s != "" && AllDigits(s)
    ensures ParseInt(s) ==
            if Value(s) <= 0x7fff_ffff_ffff_ffff then ParsedInt(Value(s), true)
            else ParsedInt(0x7fff_ffff_ffff_ffff, false)
  {
    assert s[0] in s;
  }

  /** Every int64 survives printing and parsing. */
  lemma ParseIntOfDec(n: int)
    requires MIN_INT64 <= n <= MAX_INT64
    ensures ParseInt(DecInt(n)) == ParsedInt(n, true)
  {
    if n < 0 {
      ValueDec(-n);
      assert DecInt(n)[1..] == Dec(-n);
    } else {
      ValueDec(n);
      assert IsDigit(Dec(n)[0]);
    }
  }
}
