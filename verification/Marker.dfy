/** internal/report/marker.go: the marker that makes a note recognisable and, when it is
    signed, pins the note's pipeline and merge request. */
module Marker {
  import opened Text
  import opened Regex

  const PREFIX := "<!-- ci-resources-bot"
  const MARKER := "<!-- ci-resources-bot -->"

  /** Keyed hash of a text in lower-case hexadecimal: HMAC-SHA256 of RFC 2104, not looked into. */
  type Mac = (string, string) -> string

  const DIGITS := Between('0', '9')
  const HEX := Either(DIGITS, Between('a', 'f'))

  predicate IsHex(s: string) { s != "" && All(HEX, s) }

  ghost predicate HexMac(mac: Mac) { forall key, text :: IsHex(mac(key, text)) }

  function SignedText(p: int, m: int): string { "p=" + DecInt(p) + ";m=" + DecInt(m) }

  function MarkerText(p: string, m: string, sig: string): string {
    PREFIX + " p=" + p + " m=" + m + " sig=" + sig + " -->"
  }

  function SignedMarker(p: int, m: int, key: string, mac: Mac): string {
    MarkerText(DecInt(p), DecInt(m), mac(key, SignedText(p, m)))
  }

  const AFTER_SIG: Prog := Then(Word(" -->", false), Accept)
  const AFTER_M: Prog := Then(Word(" sig=", false), Then(Group(3, Plus(HEX)), AFTER_SIG))
  const AFTER_P: Prog := Then(Word(" m=", false), Then(Group(2, Plus(DIGITS)), AFTER_M))
  const SIGNED: Prog := Then(Word(PREFIX + " p=", false), Then(Group(1, Plus(DIGITS)), AFTER_P))

  function ParseSigned(body: string, key: string, mac: Mac): Option<(int, int)> {
    match Find(SIGNED, body)
    case NotFound => None
    case Found(_, _, caps) =>
      if 1 in caps && 2 in caps && 3 in caps then
        var p := ParseInt(caps[1]).value;
        var m := ParseInt(caps[2]).value;
        if caps[3] == mac(key, SignedText(p, m)) then Some((p, m)) else None
      else None
  }

  /** A marker text with digits and a hexadecimal signature stands at i. */
  predicate MarkerAt(s: string, i: nat, p: string, m: string, sig: string)
    requires i <= |s|
  {
    && p != "" && All(DIGITS, p)
    && m != "" && All(DIGITS, m)
    && IsHex(sig)
    && At(MarkerText(p, m, sig), s, i)
  }

  /** The marker text, written out, and what stands in its fields. */
  lemma MarkerTextIs(p: string, m: string, sig: string, s: string, i: nat)
    requires i <= |s|
    ensures MarkerText(p, m, sig) == "<!-- ci-resources-bot" + " p=" + p + " m=" + m + " sig=" + sig + " -->"
    ensures MarkerAt(s, i, p, m, sig) <==>
              && i + |MarkerText(p, m, sig)| <= |s| && s[i..i + |MarkerText(p, m, sig)|] == MarkerText(p, m, sig)
              && p != "" && m != "" && sig != ""
              && (forall k | 0 <= k < |p| :: '0' <= p[k] <= '9')
              && (forall k | 0 <= k < |m| :: '0' <= m[k] <= '9')
              && (forall k | 0 <= k < |sig| :: '0' <= sig[k] <= '9' || 'a' <= sig[k] <= 'f')
  {
    hide MarkerText;
    MarkerTextUnfolds(p, m, sig);
    forall k | 0 <= k < |sig|
      ensures HEX.Has(sig[k]) <==> '0' <= sig[k] <= '9' || 'a' <= sig[k] <= 'f'
    {
      HexAre(sig[k]);
    }
  }

  lemma HexAre(c: char)
    ensures HEX.Has(c) <==> '0' <= c <= '9' || 'a' <= c <= 'f'
  {
  }

  lemma MarkerTextUnfolds(p: string, m: string, sig: string)
    ensures MarkerText(p, m, sig) == "<!-- ci-resources-bot" + " p=" + p + " m=" + m + " sig=" + sig + " -->"
  {
  }

  /** The text under the signature names the pipeline first. */
  lemma SignedTextIs(p: nat, m: nat)
    ensures SignedText(p, m) == "p=" + Dec(p) + ";m=" + Dec(m)
  {
    hide Dec;
  }

  // ---- the pattern and the text it stands for ------------------------------------

  datatype Fields = Fields(p: string, m: string, sig: string, end: nat)

  /** What stands after "p=" at a, read by runs of characters. */
  function ReadFields(s: string, a: nat): Option<Fields>
    requires a <= |s|
  {
    var b := Span(DIGITS, s, a);
    if a == b || !WordAt(" m=", false, s, b) then None else
    var c := Span(DIGITS, s, b + 3);
    if b + 3 == c || !WordAt(" sig=", false, s, c) then None else
    var d := Span(HEX, s, c + 5);
    if c + 5 == d || !WordAt(" -->", false, s, d) then None else
    Some(Fields(s[a..b], s[b + 3..c], s[c + 5..d], d + 4))
  }

  lemma FieldsRun(s: string, a: nat)
    requires a <= |s|
    ensures Run(SIGNED.next, s, a, map[]) ==
            match ReadFields(s, a)
            case None => Miss
            case Some(f) => Hit(f.end, map[1 := f.p, 2 := f.m, 3 := f.sig])
  {
    hide Span, Run, WordAt;
    var b := Span(DIGITS, s, a);
    GroupThenWord(1, DIGITS, " m=", AFTER_P.next, s, a, map[]);
    if a < b && WordAt(" m=", false, s, b) {
      WordFits(" m=", s, b);
      GroupThenWord(2, DIGITS, " sig=", AFTER_M.next, s, b + 3, map[1 := s[a..b]]);
      var c := Span(DIGITS, s, b + 3);
      if b + 3 < c && WordAt(" sig=", false, s, c) {
        WordFits(" sig=", s, c);
        GroupThenWord(3, HEX, " -->", Accept, s, c + 5, map[1 := s[a..b], 2 := s[b + 3..c]]);
        var d := Span(HEX, s, c + 5);
        if c + 5 < d && WordAt(" -->", false, s, d) {
          WordFits(" -->", s, d);
          RunAccept(s, d + 4, map[1 := s[a..b], 2 := s[b + 3..c], 3 := s[c + 5..d]]);
        }
      }
    }
  }

  function FieldsText(p: string, m: string, sig: string): string {
    p + " m=" + m + " sig=" + sig + " -->"
  }

  predicate GoodFields(p: string, m: string, sig: string) {
    p != "" && All(DIGITS, p) && m != "" && All(DIGITS, m) && IsHex(sig)
  }

  /** Fields and separators in one text, or one after the other. */
  lemma FieldsApart(s: string, a: nat, p: string, w1: string, m: string, w2: string, g: string, w3: string)
    ensures At(p + (w1 + (m + (w2 + (g + w3)))), s, a) <==>
            var b := a + |p| + |w1|; var c := b + |m| + |w2|;
            At(p, s, a) && At(w1, s, a + |p|) && At(m, s, b) && At(w2, s, b + |m|) && At(g, s, c) && At(w3, s, c + |g|)
  {
    hide At;
    var b := a + |p| + |w1|;
    AtCat(p, w1 + (m + (w2 + (g + w3))), s, a);
    AtCat(w1, m + (w2 + (g + w3)), s, a + |p|);
    AtCat(m, w2 + (g + w3), s, b);
    AtCat(w2, g + w3, s, b + |m|);
    AtCat(g, w3, s, b + |m| + |w2|);
  }

  lemma FieldsTextNested(p: string, m: string, sig: string)
    ensures FieldsText(p, m, sig) == p + (" m=" + (m + (" sig=" + (sig + " -->"))))
  {
  }

  lemma FieldsReadAreGood(s: string, a: nat)
    requires a <= |s| && ReadFields(s, a).Some?
    ensures var f := ReadFields(s, a).value; GoodFields(f.p, f.m, f.sig)
  {
    hide Span, WordAt, Class.Has;
  }

  lemma FieldsReadAreText(s: string, a: nat)
    requires a <= |s| && ReadFields(s, a).Some?
    ensures var f := ReadFields(s, a).value; At(FieldsText(f.p, f.m, f.sig), s, a)
  {
    hide Span, FieldsText, DIGITS, HEX, Class.Has;
    var f := ReadFields(s, a).value;
    var b := Span(DIGITS, s, a);
    var c := Span(DIGITS, s, b + 3);
    var d := Span(HEX, s, c + 5);
    AtCut(s, a, b);
    AtCut(s, b + 3, c);
    AtCut(s, c + 5, d);
    FieldsTextNested(f.p, f.m, f.sig);
    FieldsApart(s, a, f.p, " m=", f.m, " sig=", f.sig, " -->");
  }

  lemma TextReadsAsFields(s: string, a: nat, p: string, m: string, sig: string)
    requires a <= |s| && GoodFields(p, m, sig) && At(FieldsText(p, m, sig), s, a)
    ensures ReadFields(s, a) == Some(Fields(p, m, sig, a + |p| + 3 + |m| + 5 + |sig| + 4))
  {
    hide Span, WordAt, FieldsText;
    FieldsTextNested(p, m, sig);
    FieldsApart(s, a, p, " m=", m, " sig=", sig, " -->");
    AtFits(" m=", s, a + |p|);
    RunThenWord(DIGITS, s, a, p, " m=");
    RunThenWord(DIGITS, s, a + |p| + 3, m, " sig=");
    RunThenWord(HEX, s, a + |p| + 3 + |m| + 5, sig, " -->");
  }

  lemma PrefixThere(s: string, i: nat)
    requires i <= |s|
    ensures Run(SIGNED, s, i, map[]) ==
            if WordAt(PREFIX + " p=", false, s, i) then Run(SIGNED.next, s, i + |PREFIX + " p="|, map[]) else Miss
  {
  }

  /** The pattern matches where, and only where, a marker text stands, and reads its fields. */
  lemma MatchIsMarker(s: string, i: nat)
    requires i <= |s|
    ensures Run(SIGNED, s, i, map[]).Hit? ==> ReadsMarker(s, i, Run(SIGNED, s, i, map[]).caps)
    ensures forall p, m, sig | MarkerAt(s, i, p, m, sig) ::
              Run(SIGNED, s, i, map[]).Hit? && Run(SIGNED, s, i, map[]).caps == map[1 := p, 2 := m, 3 := sig]
  {
    hide Run, WordAt, ReadFields;
    PrefixThere(s, i);
    var head := PREFIX + " p=";
    var a := i + |head|;
    if WordAt(head, false, s, i) {
      WordFits(head, s, i);
      FieldsRun(s, a);
      if ReadFields(s, a).Some? {
        FieldsReadAreGood(s, a);
        FieldsReadAreText(s, a);
        var f := ReadFields(s, a).value;
        HeadAndFields(s, i, f.p, f.m, f.sig);
      }
    }
    forall p, m, sig | MarkerAt(s, i, p, m, sig)
      ensures At(head, s, i) && a <= |s| && exists e :: ReadFields(s, a) == Some(Fields(p, m, sig, e))
    {
      HeadAndFields(s, i, p, m, sig);
      AtFits(head, s, i);
      TextReadsAsFields(s, a, p, m, sig);
    }
  }

  predicate ReadsMarker(s: string, i: nat, caps: Caps)
    requires i <= |s|
  {
    caps.Keys == {1, 2, 3} && MarkerAt(s, i, caps[1], caps[2], caps[3])
  }

  lemma HeadAndFields(s: string, i: nat, p: string, m: string, sig: string)
    ensures At(MarkerText(p, m, sig), s, i) <==>
            At(PREFIX + " p=", s, i) && At(FieldsText(p, m, sig), s, i + |PREFIX + " p="|)
  {
    var head := PREFIX + " p=";
    assert MarkerText(p, m, sig) == head + FieldsText(p, m, sig);
    AtCat(head, FieldsText(p, m, sig), s, i);
  }

  // ---- round trip and soundness ---------------------------------------------------

  lemma DigitsOnly(n: nat)
    ensures Dec(n) != "" && All(DIGITS, Dec(n))
  {
    var s := Dec(n);
    forall i | 0 <= i < |s|
      ensures DIGITS.Has(s[i])
    {
      assert IsDigit(s[i]);
    }
  }

  /** A body that begins with a marker text for p and m is accepted for exactly the right signature. */
  lemma ParseMarkerFirst(p: nat, m: nat, sig: string, rest: string, key: string, mac: Mac)
    requires p <= MAX_INT64 && m <= MAX_INT64 && IsHex(sig)
    ensures ParseSigned(MarkerText(Dec(p), Dec(m), sig) + rest, key, mac) ==
            if sig == mac(key, SignedText(p, m)) then Some((p, m)) else None
  {
    hide Run, MarkerText, Dec, SignedText, IsHex, All;
    var text := MarkerText(Dec(p), Dec(m), sig);
    var body := text + rest;
    DigitsOnly(p);
    DigitsOnly(m);
    assert At(text, body, 0) by { AtCat(text, rest, body, 0); AtCut(body, 0, |body|); assert body[0..|body|] == body; }
    MatchIsMarker(body, 0);
    assert MarkerAt(body, 0, Dec(p), Dec(m), sig);
    var o := Run(SIGNED, body, 0, map[]);
    assert Find(SIGNED, body) == Found(0, o.end, o.caps);
    ParseIntOfDec(p);
    ParseIntOfDec(m);
  }

  /** The round trip: whatever follows it, a signed marker at the head of a body reads back. */
  lemma SignedMarkerRoundTrip(p: nat, m: nat, rest: string, key: string, mac: Mac)
    requires p <= MAX_INT64 && m <= MAX_INT64 && HexMac(mac)
    ensures ParseSigned(SignedMarker(p, m, key, mac) + rest, key, mac) == Some((p, m))
  {
    ParseMarkerFirst(p, m, mac(key, SignedText(p, m)), rest, key, mac);
  }

  /** Acceptance is sound: the first marker text of the body carries the signature of the pair
      that is returned, and its numerals read as that pair. */
  lemma AcceptedMarkerIsSigned(body: string, key: string, mac: Mac)
    returns (i: nat, p: string, m: string)
    requires ParseSigned(body, key, mac).Some?
    ensures i <= |body|
    ensures var (pipeline, mr) := ParseSigned(body, key, mac).value;
            && MarkerAt(body, i, p, m, mac(key, SignedText(pipeline, mr)))
            && ParseInt(p).value == pipeline && ParseInt(m).value == mr
    ensures forall t, p', m', sig | 0 <= t < i :: !MarkerAt(body, t, p', m', sig)
  {
    hide Run, MarkerAt;
    var f := Find(SIGNED, body);
    i, p, m := f.start, f.caps[1], f.caps[2];
    MatchIsMarker(body, i);
    forall t, p', m', sig | 0 <= t < i
      ensures !MarkerAt(body, t, p', m', sig)
    {
      MatchIsMarker(body, t);
    }
  }

  /** The first marker text of the body. */
  ghost predicate FirstMarker(body: string, i: nat, p: string, m: string, sig: string) {
    && i <= |body| && MarkerAt(body, i, p, m, sig)
    && forall t, p', m', sig' | 0 <= t < i :: !MarkerAt(body, t, p', m', sig')
  }

  /** The first marker text of the body is for that pair and signed with the key. */
  ghost predicate Pins(body: string, pipeline: int, mr: int, key: string, mac: Mac) {
    exists i: nat, p, m ::
      && FirstMarker(body, i, p, m, mac(key, SignedText(pipeline, mr)))
      && ParseInt(p).value == pipeline && ParseInt(m).value == mr
  }

  /** A body is accepted for a pair if and only if its first marker text pins the pair. */
  lemma AcceptedIffPinned(body: string, pipeline: int, mr: int, key: string, mac: Mac)
    ensures ParseSigned(body, key, mac) == Some((pipeline, mr)) <==> Pins(body, pipeline, mr, key, mac)
  {
    hide MarkerAt, Run;
    if ParseSigned(body, key, mac) == Some((pipeline, mr)) {
      var i, p, m := AcceptedMarkerIsSigned(body, key, mac);
      assert FirstMarker(body, i, p, m, mac(key, SignedText(pipeline, mr)));
    }
    if Pins(body, pipeline, mr, key, mac) {
      var i: nat, p, m :| FirstMarker(body, i, p, m, mac(key, SignedText(pipeline, mr))) &&
                          ParseInt(p).value == pipeline && ParseInt(m).value == mr;
      FirstMarkerDecides(body, i, p, m, mac(key, SignedText(pipeline, mr)), key, mac);
    }
  }

  lemma FirstMarkerDecides(body: string, i: nat, p: string, m: string, sig: string, key: string, mac: Mac)
    requires FirstMarker(body, i, p, m, sig)
    ensures ParseSigned(body, key, mac) ==
            var pair := (ParseInt(p).value, ParseInt(m).value);
            if sig == mac(key, SignedText(pair.0, pair.1)) then Some(pair) else None
  {
    hide MarkerAt, Run;
    MatchIsMarker(body, i);
    forall t | 0 <= t < i
      ensures Run(SIGNED, body, t, map[]).Miss?
    {
      MatchIsMarker(body, t);
    }
    var o := Run(SIGNED, body, i, map[]);
    assert Find(SIGNED, body) == Found(i, o.end, o.caps);
  }

  lemma MarkerHasPrefix(s: string, i: nat, p: string, m: string, sig: string)
    requires i <= |s| && MarkerAt(s, i, p, m, sig)
    ensures Contains(s, PREFIX)
  {
    var text := MarkerText(p, m, sig);
    assert PREFIX <= text;
    assert s[i..][..|PREFIX|] == s[i..i + |text|][..|PREFIX|];
  }

  /** A body without the prefix carries no signed marker. */
  lemma NoPrefixNoMarker(body: string, key: string, mac: Mac)
    requires !Contains(body, PREFIX)
    ensures ParseSigned(body, key, mac).None?
  {
    if ParseSigned(body, key, mac).Some? {
      var i, p, m := AcceptedMarkerIsSigned(body, key, mac);
      var (pipeline, mr) := ParseSigned(body, key, mac).value;
      MarkerHasPrefix(body, i, p, m, mac(key, SignedText(pipeline, mr)));
    }
  }

  // ---- the signed text ---------------------------------------------------------------

  lemma DecIntInjective(a: int, b: int)
    requires DecInt(a) == DecInt(b)
    ensures a == b
  {
    if a < 0 || b < 0 {
      assert a < 0 ==> DecInt(a)[0] == '-' && DecInt(a)[1..] == Dec(-a);
      assert b < 0 ==> DecInt(b)[0] == '-' && DecInt(b)[1..] == Dec(-b);
      assert a >= 0 ==> IsDigit(DecInt(a)[0]);
      assert b >= 0 ==> IsDigit(DecInt(b)[0]);
      DecInjective(-a, -b);
    } else {
      DecInjective(a, b);
    }
  }

  lemma NoSemicolon(a: int)
    ensures ';' !in DecInt(a)
  {
    if a < 0 {
      assert forall c | c in Dec(-a) :: IsDigit(c);
    } else {
      assert forall c | c in Dec(a) :: IsDigit(c);
    }
  }

  lemma SameSplit(a: string, b: string, a': string, b': string)
    requires ';' !in a && ';' !in a' && a + ";" + b == a' + ";" + b'
    ensures a == a' && b == b'
  {
    var s := a + ";" + b;
    assert s[|a|] == ';' && s[|a'|] == ';';
    assert forall i | 0 <= i < |a| :: s[i] == a[i] && a[i] in a;
    assert forall i | 0 <= i < |a'| :: s[i] == a'[i] && a'[i] in a';
    assert |a| == |a'|;
    assert s[..|a|] == a && s[..|a|] == a';
    assert s[|a| + 1..] == b && s[|a| + 1..] == b';
  }

  /** The text that is signed determines the pair: no two pairs share a signature by construction. */
  lemma SignedTextInjective(p: int, m: int, p': int, m': int)
    requires SignedText(p, m) == SignedText(p', m')
    ensures p == p' && m == m'
  {
    NoSemicolon(p);
    NoSemicolon(p');
    var a, a' := "p=" + DecInt(p), "p=" + DecInt(p');
    var b, b' := "m=" + DecInt(m), "m=" + DecInt(m');
    assert SignedText(p, m) == a + ";" + b;
    assert SignedText(p', m') == a' + ";" + b';
    SameSplit(a, b, a', b');
    assert a[2..] == DecInt(p) && a'[2..] == DecInt(p');
    assert b[2..] == DecInt(m) && b'[2..] == DecInt(m');
    DecIntInjective(p, p');
    DecIntInjective(m, m');
  }
}
