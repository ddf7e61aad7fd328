/** Tagged token text: a token list joined with single spaces, in which a value is
    found with the regular expression `<T>(.*?)</T>` (the first match, the group
    ending at the nearest closing tag, `.` not matching a newline) and the group is
    split on whitespace. A list of sections `<T> body </T>` serialised this way
    gives every section's body back, and a tag that was not written gives
    nothing. */
module TagText {
  import opened Wrappers
  import opened PyStr
  import Seqs

  function Open(tag: string): string {
    "<" + tag + ">"
  }

  function Close(tag: string): string {
    "</" + tag + ">"
  }

  /** Where the lazy group `(.*?)` in front of `close` ends, scanning `s` from its
      start: the first index at which `close` begins, provided no newline comes
      before it. */
  function LazyEnd(s: string, close: string): (r: Option<nat>)
    ensures r.Some? ==> r.value <= |s| && close <= s[r.value..]
    ensures r.Some? ==> NoEndBefore(s, close, r.value)
  {
    if close <= s then Some(0)
    else if s == [] || s[0] == '\n' then None
    else match LazyEnd(s[1..], close) {
      case None => None
      case Some(j) =>
        LazyEndShift(s, close, j);
        Some(j + 1)
    }
  }

  /** The lazy group of `s` ends one character later than that of `s[1..]`
      when `s` does not start with `close` or a newline. */
  /** No line break and no match of `close` starts before index `j`. */
  predicate NoEndBefore(s: string, close: string, j: nat)
    requires j <= |s|
  {
    forall i {:trigger s[i..]} | 0 <= i < j :: s[i] != '\n' && !(close <= s[i..])
  }

  lemma LazyEndShift(s: string, close: string, j: nat)
    requires s != [] && s[0] != '\n' && !(close <= s)
    requires j <= |s| - 1 && close <= s[1..][j..]
    requires NoEndBefore(s[1..], close, j)
    ensures close <= s[j + 1..]
    ensures NoEndBefore(s, close, j + 1)
  {
    assert s[j + 1..] == s[1..][j..];
    forall i | 1 <= i < j + 1
      ensures s[i] != '\n' && !(close <= s[i..])
    {
      assert s[i] == s[1..][i - 1] && s[i..] == s[1..][i - 1..];
    }
  }

  /** `re.search(open + '(.*?)' + close, text)`: the group of the leftmost match. */
  function Search(text: string, open: string, close: string): Option<string>
    decreases |text|
  {
    if open <= text && LazyEnd(text[|open|..], close).Some? then
      Some(text[|open|..][..LazyEnd(text[|open|..], close).value])
    else if text == [] then None
    else Search(text[1..], open, close)
  }

  /** `extract(tag)` of `from_tokens`: the whitespace-separated words of the first
      `<tag>…</tag>` group of `text`, or `[]` when there is none. */
  function Extract(text: string, tag: string): seq<string> {
    match Search(text, Open(tag), Close(tag))
    case Some(g) => Split(g)
    case None => []
  }

  /** A tag name: capitals, digits and underscores. */
  predicate IsName(t: string) {
    t != [] && forall i | 0 <= i < |t| :: 'A' <= t[i] <= 'Z' || '0' <= t[i] <= '9' || t[i] == '_'
  }

  /** A token that may stand inside a section: not empty, no whitespace, no `<`. */
  predicate PlainToken(t: string) {
    t != [] && NoSpace(t) && forall i | 0 <= i < |t| :: t[i] != '<'
  }

  predicate PlainTokens(ts: seq<string>) {
    forall i | 0 <= i < |ts| :: PlainToken(ts[i])
  }

  datatype Section = Section(tag: string, body: seq<string>)

  function SectionTokens(s: Section): (r: seq<string>)
    ensures |r| == |s.body| + 2
  {
    [Open(s.tag)] + s.body + [Close(s.tag)]
  }

  /** The token list of consecutive sections. */
  function Tokens(secs: seq<Section>): seq<string> {
    if secs == [] then [] else SectionTokens(secs[0]) + Tokens(secs[1..])
  }

  /** The first body token of the second section sits just after the first
      section and the second section's opening tag. */
  lemma SecondBodyAt(secs: seq<Section>)
    requires |secs| >= 2 && secs[1].body != []
    ensures var n := |secs[0].body| + 3;
      n < |Tokens(secs)| && Tokens(secs)[n] == secs[1].body[0]
  {
    var rest := secs[1..];
    assert Tokens(secs) == SectionTokens(secs[0]) + Tokens(rest);
    assert Tokens(rest) == SectionTokens(secs[1]) + Tokens(rest[1..]);
    assert SectionTokens(secs[1])[1] == secs[1].body[0];
  }

  predicate SectionOk(s: Section) {
    IsName(s.tag) && PlainTokens(s.body)
  }

  predicate WellFormed(secs: seq<Section>) {
    (forall i | 0 <= i < |secs| :: SectionOk(secs[i]))
    && forall i, j | 0 <= i < j < |secs| :: secs[i].tag != secs[j].tag
  }

  // ---------------------------------------------------------------- search steps

  /** Positions where `open` cannot start may be skipped. */
  lemma {:induction false} SearchSkip(p: string, x: string, open: string, close: string)
    requires open != []
    requires forall i | 0 <= i < |p| :: !(open <= (p + x)[i..])
    ensures Search(p + x, open, close) == Search(x, open, close)
  {
    if p != [] {
      assert (p + x)[0..] == p + x;
      assert (p + x)[1..] == p[1..] + x;
      forall i | 0 <= i < |p[1..]|
        ensures !(open <= (p[1..] + x)[i..])
      {
        assert (p[1..] + x)[i..] == (p + x)[i + 1..];
      }
      SearchSkip(p[1..], x, open, close);
    }
  }

  /** The lazy group ends at the first `close` when the text before it holds neither
      a newline nor the first character of `close`. */
  lemma {:induction false} LazyFound(s: string, close: string, z: string)
    requires close != [] && Avoids(s, close[0])
    ensures LazyEnd(s + close + z, close) == Some(|s|)
  {
    if s == [] {
      assert s + close + z == close + z;
    } else {
      LazyFound(s[1..], close, z);
      LazyFoundCons(s, close, z);
    }
  }

  /** Neither a line break nor `c` occurs in `s`. */
  predicate Avoids(s: string, c: char) {
    forall i | 0 <= i < |s| :: s[i] != '\n' && s[i] != c
  }

  lemma LazyFoundCons(s: string, close: string, z: string)
    requires close != [] && s != [] && s[0] != '\n' && s[0] != close[0]
    requires LazyEnd(s[1..] + close + z, close) == Some(|s| - 1)
    ensures LazyEnd(s + close + z, close) == Some(|s|)
  {
    Seqs.ConsTail(s, close);
    Seqs.ConsTail(s + close, z);
    LazyEndCons(s + close + z, close, |s| - 1);
  }

  /** A first character that is neither a line break nor the start of `close`
      only moves the end one place on. */
  lemma LazyEndCons(t: string, close: string, j: nat)
    requires close != [] && t != [] && t[0] != '\n' && t[0] != close[0]
    requires LazyEnd(t[1..], close) == Some(j)
    ensures LazyEnd(t, close) == Some(j + 1)
  {
    assert !(close <= t);
  }


  lemma OpenNotPrefixOfOpen(t: string, u: string, x: string)
    requires IsName(t) && IsName(u) && t != u
    ensures !(Open(t) <= Open(u) + x)
  {
    var o, w := Open(t), Open(u) + x;
    if |t| < |u| {
      assert o[|t| + 1] == '>' && w[|t| + 1] == u[|t|];
    } else if |t| > |u| {
      assert w[|u| + 1] == '>' && o[|u| + 1] == t[|u|];
    } else {
      var i :| 0 <= i < |t| && t[i] != u[i];
      assert o[i + 1] == t[i] && w[i + 1] == u[i];
    }
  }

  lemma OpenNotPrefixOfClose(t: string, u: string, x: string)
    requires IsName(t)
    ensures !(Open(t) <= Close(u) + x)
  {
    assert Open(t)[1] == t[0];
    assert (Close(u) + x)[1] == '/';
  }

  /** A token other than the opening tag of `t`, with no `<` except as the first
      character of a tag of another name. */
  ghost predicate Skippable(tok: string, t: string) {
    || (forall i | 0 <= i < |tok| :: tok[i] != '<')
    || (exists u | IsName(u) && u != t :: tok == Open(u))
    || (exists u :: tok == Close(u) && IsName(u))
  }

  /** The search passes over a space and a token that cannot open `t`. */
  lemma SkipToken(tok: string, x: string, t: string, close: string)
    requires IsName(t) && Skippable(tok, t)
    ensures Search(" " + tok + x, Open(t), close) == Search(x, Open(t), close)
  {
    var p := " " + tok;
    assert p + x == " " + tok + x;
    forall i | 0 <= i < |p|
      ensures !(Open(t) <= (p + x)[i..])
    {
      if i == 0 {
        assert (p + x)[0] == ' ';
      } else {
        assert (p + x)[i..] == tok[i - 1..] + x;
        SkipAt(tok, x, t, i - 1);
      }
    }
    SearchSkip(p, x, Open(t), close);
  }

  /** No opening tag of `t` starts inside a token that cannot open `t`. */
  lemma SkipAt(tok: string, x: string, t: string, i: nat)
    requires IsName(t) && Skippable(tok, t) && i < |tok|
    ensures !(Open(t) <= tok[i..] + x)
  {
    assert (tok[i..] + x)[0] == tok[i];
    if forall j | 0 <= j < |tok| :: tok[j] != '<' {
    } else if exists u | IsName(u) && u != t :: tok == Open(u) {
      var u :| IsName(u) && u != t && tok == Open(u);
      if i == 0 {
        assert tok[i..] == tok;
        OpenNotPrefixOfOpen(t, u, x);
      } else {
        assert tok[i] != '<';
      }
    } else {
      var u :| tok == Close(u) && IsName(u);
      if i == 0 {
        assert tok[i..] == tok;
        OpenNotPrefixOfClose(t, u, x);
      } else {
        assert tok[i] != '<';
      }
    }
  }

  lemma {:induction false} SkipTokens(ts: seq<string>, x: string, t: string, close: string)
    requires IsName(t) && forall i | 0 <= i < |ts| :: Skippable(ts[i], t)
    ensures Search(SpaceLed(ts) + x, Open(t), close) == Search(x, Open(t), close)
  {
    if ts == [] {
      assert SpaceLed(ts) + x == x;
    } else {
      assert SpaceLed(ts) + x == " " + ts[0] + (SpaceLed(ts[1..]) + x);
      SkipToken(ts[0], SpaceLed(ts[1..]) + x, t, close);
      SkipTokens(ts[1..], x, t, close);
    }
  }

  lemma PlainSkippable(ts: seq<string>, t: string)
    requires PlainTokens(ts)
    ensures forall i | 0 <= i < |ts| :: Skippable(ts[i], t)
  {
  }

  /** The space-led text of a section: `" <T>"`, the body, `" </T>"`. */
  lemma SectionText(s: Section)
    ensures SpaceLed(SectionTokens(s)) == " " + Open(s.tag) + SpaceLed(s.body) + " " + Close(s.tag)
  {
    SpaceLedAppend([Open(s.tag)] + s.body, [Close(s.tag)]);
    SpaceLedAppend([Open(s.tag)], s.body);
    assert SpaceLed([Close(s.tag)]) == " " + Close(s.tag);
    assert SpaceLed([Open(s.tag)]) == " " + Open(s.tag);
  }

  /** The search passes over a whole section with another tag. */
  lemma SkipSection(s: Section, x: string, t: string)
    requires IsName(t) && SectionOk(s) && s.tag != t
    ensures Search(SpaceLed(SectionTokens(s)) + x, Open(t), Close(t)) == Search(x, Open(t), Close(t))
  {
    SectionText(s);
    var rest := " " + Close(s.tag) + x;
    assert SpaceLed(SectionTokens(s)) + x == " " + Open(s.tag) + (SpaceLed(s.body) + rest);
    assert Skippable(Open(s.tag), t);
    SkipToken(Open(s.tag), SpaceLed(s.body) + rest, t, Close(t));
    PlainSkippable(s.body, t);
    SkipTokens(s.body, rest, t, Close(t));
    assert Skippable(Close(s.tag), t);
    assert rest == " " + Close(s.tag) + x;
    SkipToken(Close(s.tag), x, t, Close(t));
  }

  lemma {:induction false} SkipSections(secs: seq<Section>, x: string, t: string)
    requires IsName(t) && forall i | 0 <= i < |secs| :: SectionOk(secs[i]) && secs[i].tag != t
    ensures Search(SpaceLed(Tokens(secs)) + x, Open(t), Close(t)) == Search(x, Open(t), Close(t))
  {
    if secs == [] {
      assert SpaceLed(Tokens(secs)) + x == x;
    } else {
      SpaceLedAppend(SectionTokens(secs[0]), Tokens(secs[1..]));
      assert SpaceLed(Tokens(secs)) + x == SpaceLed(SectionTokens(secs[0])) + (SpaceLed(Tokens(secs[1..])) + x);
      SkipSection(secs[0], SpaceLed(Tokens(secs[1..])) + x, t);
      SkipSections(secs[1..], x, t);
    }
  }

  /** A section's opening tag starts the match, whose group is the body's
      space-led text and one more space. */
  lemma FindSection(s: Section, x: string)
    requires SectionOk(s)
    ensures Search(SpaceLed(SectionTokens(s)) + x, Open(s.tag), Close(s.tag)) == Some(SpaceLed(s.body) + " ")
  {
    SectionText(s);
    var inner := SpaceLed(s.body) + " ";
    assert SpaceLed(SectionTokens(s)) + x == " " + Open(s.tag) + inner + Close(s.tag) + x;
    InnerPlain(s.body);
    SearchHere(Open(s.tag), inner, Close(s.tag), x);
  }

  /** After a space, an opening pattern followed by a run without newline or `<`
      and the closing pattern is the first match; the run is its group. */
  lemma SearchHere(o: string, inner: string, c: string, x: string)
    requires o != [] && o[0] == '<' && c != [] && c[0] == '<' && OpenRun(inner)
    ensures Search(" " + o + inner + c + x, o, c) == Some(inner)
  {
    var tail := inner + c + x;
    var rest := o + tail;
    assert " " + o + inner + c + x == " " + rest;
    SearchSpace(rest, o, c);
    LazyFound(inner, c, x);
    assert inner + c + x == tail;
    SearchMatchAt(o, tail, c, |inner|);
    assert tail[..|inner|] == inner;
  }

  lemma SearchMatchAt(o: string, tail: string, c: string, j: nat)
    requires LazyEnd(tail, c) == Some(j)
    ensures Search(o + tail, o, c) == Some(tail[..j])
  {
    assert (o + tail)[..|o|] == o;
    assert (o + tail)[|o|..] == tail;
  }

  /** A leading space cannot start a pattern that begins with `<`. */
  lemma SearchSpace(r: string, o: string, c: string)
    requires o != [] && o[0] == '<'
    ensures Search(" " + r, o, c) == Search(r, o, c)
  {
    assert (" " + r)[0] == ' ';
    assert (" " + r)[1..] == r;
  }

  /** Text in which the lazy group cannot stop early or fail: no newline, no `<`. */
  predicate OpenRun(s: string) {
    forall i | 0 <= i < |s| :: s[i] != '\n' && s[i] != '<'
  }

  /** The space-led text of plain tokens, with a trailing space, is such a run. */
  lemma {:induction false} InnerPlain(ts: seq<string>)
    requires PlainTokens(ts)
    ensures OpenRun(SpaceLed(ts) + " ")
  {
    if ts == [] {
      assert SpaceLed(ts) + " " == " ";
    } else {
      InnerPlain(ts[1..]);
      var inner := SpaceLed(ts) + " ";
      var tail := SpaceLed(ts[1..]) + " ";
      var w := ts[0];
      assert inner == " " + w + tail;
      assert PlainToken(w);
      forall i | 0 <= i < |inner|
        ensures inner[i] != '\n' && inner[i] != '<'
      {
        if i == 0 {
          assert inner[i] == ' ';
        } else if i <= |w| {
          assert inner[i] == w[i - 1];
          assert !IsSpace(w[i - 1]);
        } else {
          assert inner[i] == tail[i - 1 - |w|];
        }
      }
    }
  }

  lemma {:induction false} TokensAppend(a: seq<Section>, b: seq<Section>)
    ensures Tokens(a + b) == Tokens(a) + Tokens(b)
  {
    if a == [] {
      assert a + b == b;
    } else {
      assert (a + b)[1..] == a[1..] + b;
      TokensAppend(a[1..], b);
    }
  }

  /** Searching the `' '.join` of a token list finds what searching its space-led
      text finds: the extra leading space cannot start a tag. */
  lemma SearchJoin(ts: seq<string>, t: string)
    requires IsName(t)
    ensures Search(Join(ts), Open(t), Close(t)) == Search(SpaceLed(ts), Open(t), Close(t))
  {
    if ts != [] {
      SpaceLedIsJoin(ts);
      var j := Join(ts);
      assert (" " + j)[0] == ' ';
      assert (" " + j)[1..] == j;
    }
  }

  // ---------------------------------------------------------------- the two results

  /** Extracting the tag of section `k` from the joined tokens of well-formed
      sections gives back exactly that section's body. */
  lemma ExtractSection(secs: seq<Section>, k: nat)
    requires WellFormed(secs) && k < |secs|
    ensures Extract(Join(Tokens(secs)), secs[k].tag) == secs[k].body
  {
    var s := secs[k];
    SearchJoin(Tokens(secs), s.tag);
    SearchSection(secs, k);
    SplitSpaceLed(s.body);
  }

  /** The first match for the tag of section `k` is that section's own text. */
  lemma SearchSection(secs: seq<Section>, k: nat)
    requires WellFormed(secs) && k < |secs|
    ensures Search(SpaceLed(Tokens(secs)), Open(secs[k].tag), Close(secs[k].tag))
         == Some(SpaceLed(secs[k].body) + " ")
  {
    var s := secs[k];
    var pre, post := secs[..k], secs[k + 1..];
    var x := SpaceLed(SectionTokens(s)) + SpaceLed(Tokens(post));
    SpaceLedAround(secs, k);
    assert forall i | 0 <= i < |pre| :: SectionOk(pre[i]) && pre[i].tag != s.tag by {
      assert forall i | 0 <= i < |pre| :: pre[i] == secs[i];
    }
    SkipSections(pre, x, s.tag);
    FindSection(s, SpaceLed(Tokens(post)));
  }

  /** The space-led text of the sections is that of the sections before `k`, of
      section `k`, and of the sections after it, in a row. */
  lemma SpaceLedAround(secs: seq<Section>, k: nat)
    requires k < |secs|
    ensures SpaceLed(Tokens(secs))
         == SpaceLed(Tokens(secs[..k])) + (SpaceLed(SectionTokens(secs[k])) + SpaceLed(Tokens(secs[k + 1..])))
  {
    var mid := SectionTokens(secs[k]) + Tokens(secs[k + 1..]);
    TokensAround(secs, k);
    SpaceLedAppend(Tokens(secs[..k]), mid);
    SpaceLedAppend(SectionTokens(secs[k]), Tokens(secs[k + 1..]));
  }

  /** The tokens of the sections are those before `k`, those of section `k`
      and those after it. */
  lemma TokensAround(secs: seq<Section>, k: nat)
    requires k < |secs|
    ensures Tokens(secs) == Tokens(secs[..k]) + (SectionTokens(secs[k]) + Tokens(secs[k + 1..]))
  {
    var s := secs[k];
    var pre, post := secs[..k], secs[k + 1..];
    assert secs == pre + ([s] + post);
    TokensAppend(pre, [s] + post);
    TokensAppend([s], post);
    assert Tokens([s]) == SectionTokens(s) + Tokens([]);
  }

  /** A tag that no section carries is not found: `extract` gives `[]`. */
  lemma ExtractAbsent(secs: seq<Section>, t: string)
    requires IsName(t) && forall i | 0 <= i < |secs| :: SectionOk(secs[i]) && secs[i].tag != t
    ensures Extract(Join(Tokens(secs)), t) == []
  {
    SearchJoin(Tokens(secs), t);
    SkipSections(secs, "", t);
    assert SpaceLed(Tokens(secs)) + "" == SpaceLed(Tokens(secs));
  }
}
