/** Texts that are no command, by how they begin. */
module CommandReject {
  import opened Text
  import opened Regex
  import opened Command

  /** The line that is parsed begins like the body. */
  lemma FirstLineBegins(body: string, w: string)
    requires w != "" && w <= body && '\n' !in w
    requires !IsTrimSpace(w[0]) && !IsTrimSpace(w[|w| - 1])
    ensures w <= FirstNonEmptyLine(body) <= body
  {
    var e := LineEnd(body);
    assert forall i | 0 <= i < |w| :: body[i] == w[i] && w[i] in w;
    var line := body[..e];
    assert line[0] == w[0] && line[|w| - 1] == w[|w| - 1];
    assert TrimLeft(line) == line;
    var r := TrimRight(line);
    assert |w| <= |r|;
  }

  lemma FirstToken(s: string)
    requires s != "" && NONSPACE.Has(s[0])
    ensures Fields(s, 0) != [] && Fields(s, 0)[0] == s[..Span(NONSPACE, s, 0)] && Span(NONSPACE, s, 0) > 0
  {
    assert Span(SPACE, s, 0) == 0;
    assert s[0..Span(NONSPACE, s, 0)] == s[..Span(NONSPACE, s, 0)];
  }

  predicate IsVerb(v: string) { v in {"help", "details", "advise"} }

  lemma NoVerbNoTokens(ts: seq<string>)
    requires ts != [] && !IsVerb(LowerAll(ts[0]))
    ensures ParseTokens(ts).None?
  {
    hide LowerAll;
  }

  lemma NoVerbNoCommand(body: string)
    requires var s := FirstNonEmptyLine(body); s != "" && !IsVerb(LowerAll(s[..Span(NONSPACE, s, 0)]))
    ensures Parse(body).None?
  {
    hide Fields, Parse, Span, ParseTokens, LowerAll;
    var s := FirstNonEmptyLine(body);
    assert NONSPACE.Has(s[0]);
    ParseIsTokenRule(body);
    FirstToken(s);
    NoVerbNoTokens(Fields(s, 0));
  }

  /** No verb begins with another letter. */
  lemma RejectByFirstChar(body: string)
    requires body != "" && !IsTrimSpace(body[0]) && Lower(body[0]) !in {'h', 'd', 'a'}
    ensures Parse(body).None?
  {
    FirstLineBegins(body, [body[0]]);
    var s := FirstNonEmptyLine(body);
    assert s[0] == body[0];
    FirstToken(s);
    var v := LowerAll(s[..Span(NONSPACE, s, 0)]);
    assert v[0] == Lower(body[0]);
    NoVerbNoCommand(body);
  }

  lemma RejectByFirstWord(body: string, w: string)
    requires w != "" && (forall c | c in w :: NONSPACE.Has(c)) && !IsTrimSpace(w[0]) && !IsTrimSpace(w[|w| - 1])
    requires w + " " <= body && !IsVerb(LowerAll(w))
    ensures Parse(body).None?
  {
    hide IsVerb, LowerAll, Parse, FirstNonEmptyLine, Span;
    assert w <= w + " ";
    FirstLineBegins(body, w);
    FirstWordIs(FirstNonEmptyLine(body), body, w);
    NoVerbNoCommand(body);
  }

  lemma FirstWordIs(s: string, body: string, w: string)
    requires w <= s <= body && w + " " <= body && forall c | c in w :: NONSPACE.Has(c)
    ensures Span(NONSPACE, s, 0) == |w| && s[..|w|] == w
  {
    assert forall i | 0 <= i < |w| :: s[i] == w[i] && w[i] in w;
    assert |s| > |w| ==> s[|w|] == body[|w|] == (w + " ")[|w|] == ' ';
    SpanIs(NONSPACE, s, 0, |w|);
  }
}
