/** internal/report/report.go: figures as text. */
module Figures {
  import opened Text

  const UINT64: nat := 0x1_0000_0000_0000_0000

  type uint64 = n: nat | n < UINT64

  /** The verbs %.1f and %.0f, whose rounding is left to them. */
  datatype Decimals = Decimals(one: real -> string, none: real -> string)

  const DASH := "\U{2014}"

  function Pad2(n: nat): string { if n < 10 then "0" + Dec(n) else Dec(n) }

  /** Of whole seconds. */
  function HumanDuration(d: nat): string {
    if d < 60 then Dec(d) + "s"
    else if d < 3600 then Dec(d / 60) + "m " + Pad2(d % 60) + "s"
    else Dec(d / 3600) + "h " + Pad2(d % 3600 / 60) + "m"
  }

  function CpuTime(seconds: real, f: Decimals): string { f.one(seconds) + " s" }

  /** int64(c*1000 + 0.5) drops the fraction, toward zero. */
  function Cores(c: real): string {
    if c == 0.0 then DASH else
    var m := c * 1000.0 + 0.5;
    DecInt(if m >= 0.0 then m.Floor else -((-m).Floor)) + "m"
  }

  function Throttle(ratio: real, warnRatio: real, f: Decimals): string {
    var pct := f.none(ratio * 100.0) + "%";
    if warnRatio > 0.0 && ratio >= warnRatio then "**" + pct + "** \U{26A0}\U{FE0F}" else pct
  }

  // ---- bytes --------------------------------------------------------------------------

  const UNITS := "KMGTPE"

  function Pow1024(e: nat): nat { if e == 0 then 1 else 1024 * Pow1024(e - 1) }

  /** The power of 1024 in which n is written: n has a unit's worth of it, and less than the next. */
  predicate IsUnit(n: nat, e: nat) { Pow1024(e) <= n < Pow1024(e + 1) }

  lemma {:induction false} PowMonotone(a: nat, b: nat)
    requires a <= b
    ensures Pow1024(a) <= Pow1024(b)
    decreases b - a
  {
    if a < b {
      PowMonotone(a, b - 1);
    }
  }

  lemma OneUnit(n: nat, e: nat, f: nat)
    requires IsUnit(n, e) && IsUnit(n, f)
    ensures e == f
  {
    if e < f {
      PowMonotone(e + 1, f);
    } else if f < e {
      PowMonotone(f + 1, e);
    }
  }

  /** Six letters are enough for 64 bits. */
  lemma UnitsSuffice(n: uint64, e: nat)
    requires IsUnit(n, e)
    ensures e <= |UNITS|
  {
    assert Pow1024(7) > UINT64 by {
      assert Pow1024(1) == 1024 && Pow1024(2) == 1024 * 1024 && Pow1024(3) == 1024 * 1024 * 1024;
      assert Pow1024(4) == 1024 * Pow1024(3) && Pow1024(5) == 1024 * Pow1024(4) && Pow1024(6) == 1024 * Pow1024(5);
    }
    if e > |UNITS| {
      PowMonotone(7, e);
    }
  }

  function UnitOf(n: nat): (e: nat)
    requires n > 0
    ensures IsUnit(n, e)
  {
    if n < 1024 then
      assert Pow1024(0) == 1 && Pow1024(1) == 1024;
      0
    else
      var e := UnitOf(n / 1024);
      assert Pow1024(e) <= n / 1024 < Pow1024(e + 1);
      assert Pow1024(e + 1) == 1024 * Pow1024(e) && Pow1024(e + 2) == 1024 * Pow1024(e + 1);
      e + 1
  }

  function HumanBytes(n: uint64, f: Decimals): string {
    if n < 1024 then Dec(n) + " B" else
    var e := UnitOf(n);
    UnitsSuffice(n, e);
    f.one(n as real / Pow1024(e) as real) + " " + [UNITS[e - 1]] + "iB"
  }

  /** The loop of humanBytes; div never overflows and exp never leaves the letters. */
  method HumanBytesLoop(n: uint64, f: Decimals) returns (s: string)
    ensures s == HumanBytes(n, f)
  {
    if n < 1024 {
      return Dec(n) + " B";
    }
    var div: uint64, exp := 1024, 0;
    var v := n / 1024;
    assert Pow1024(0) == 1 && Pow1024(1) == 1024;
    while v >= 1024
      invariant v > 0 && div == Pow1024(exp + 1) && Covers(n, div, v)
    {
      CoversMore(n, div, v);
      div, exp, v := div * 1024, exp + 1, v / 1024;
    }
    CoversUnit(n, exp + 1, v);
    OneUnit(n, exp + 1, UnitOf(n));
    UnitsSuffice(n, exp + 1);
    return f.one(n as real / div as real) + " " + [UNITS[exp]] + "iB";
  }

  /** v is n / div. */
  predicate Covers(n: nat, div: nat, v: nat) { div * v <= n < div * v + div }

  lemma Times(a: nat, x: nat, y: nat)
    requires x <= y
    ensures a * x <= a * y
  {
    assert a * y == a * x + a * (y - x);
  }

  lemma CoversMore(n: nat, div: nat, v: nat)
    requires div > 0 && v >= 1024 && Covers(n, div, v)
    ensures Covers(n, div * 1024, v / 1024) && v / 1024 > 0 && div * 1024 <= n
  {
    var w, r := v / 1024, v % 1024;
    assert div * v == div * (1024 * w) + div * r;
    assert div * (1024 * w) == (div * 1024) * w;
    assert div * r + div == div * (r + 1);
    Times(div, r + 1, 1024);
    Times(div, 1024, v);
  }

  lemma CoversUnit(n: nat, e: nat, v: nat)
    requires 0 < v < 1024 && Covers(n, Pow1024(e), v)
    ensures IsUnit(n, e)
  {
    var div := Pow1024(e);
    assert div * v + div == div * (v + 1);
    Times(div, 1, v);
    Times(div, v + 1, 1024);
  }

  function OptBytes(n: uint64, f: Decimals): string { if n == 0 then DASH else HumanBytes(n, f) }

  // ---- what the texts say -----------------------------------------------------------------

  lemma Pad2Reads(n: nat)
    requires n < 60
    ensures |Pad2(n)| == 2 && AllDigits(Pad2(n)) && Value(Pad2(n)) == n
  {
    ValueDec(n);
    if n < 10 {
      assert Dec(n) == [Digit(n)];
      var s := Pad2(n);
      assert s == ['0', Digit(n)] && s[..1] == ['0'] && s[..1][..0] == [];
    } else {
      assert Dec(n / 10) == [Digit(n / 10)];
    }
  }

  /** A duration reads as its seconds up to an hour, and as its whole minutes from there. */
  lemma DurationReads(d: nat) returns (h: nat, m: nat, s: nat)
    ensures d == 3600 * h + 60 * m + s && m < 60 && s < 60
    ensures HumanDuration(d) ==
            if d < 60 then Dec(s) + "s"
            else if d < 3600 then Dec(m) + "m " + Pad2(s) + "s"
            else Dec(h) + "h " + Pad2(m) + "m"
  {
    hide Dec, Pad2;
    h, m, s := d / 3600, d % 3600 / 60, d % 3600 % 60;
    assert d % 3600 == 60 * m + s;
    assert d % 60 == s;
  }

  /** Cores read as the nearest whole millicores, and as a dash only when there are none. */
  lemma CoresRead(c: real)
    requires c > 0.0
    ensures exists m: nat :: m as real - 0.5 <= c * 1000.0 < m as real + 0.5 && Cores(c) == Dec(m) + "m"
    ensures Cores(0.0) == "\U{2014}"
  {
    var m := (c * 1000.0 + 0.5).Floor;
    assert Cores(c) == Dec(m) + "m";
  }

  /** The letters are those of the powers of 1024 that they stand for. */
  lemma BytesRead(n: uint64, f: Decimals) returns (e: nat)
    ensures n < 1024 ==> HumanBytes(n, f) == Dec(n) + " B"
    ensures n >= 1024 ==>
              && 1 <= e <= 6 && Pow1024(e) <= n < 1024 * Pow1024(e)
              && var letter := ['K', 'M', 'G', 'T', 'P', 'E'][e - 1];
                 HumanBytes(n, f) == f.one(n as real / Pow1024(e) as real) + " " + [letter] + "iB"
    ensures OptBytes(0, f) == "\U{2014}" && (n > 0 ==> OptBytes(n, f) == HumanBytes(n, f))
    ensures Pow1024(0) == 1 && forall k: nat :: Pow1024(k + 1) == 1024 * Pow1024(k)
  {
    e := 0;
    assert Pow1024(0 + 1) == 1024;
    if n >= 1024 {
      e := UnitOf(n);
      UnitsSuffice(n, e);
    }
  }
}
