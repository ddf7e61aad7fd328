/** The Python `str` operations the backend relies on, over `string` (a sequence of
    code points): `isspace`, `strip`, `split()`, `splitlines`, `' '.join`, `''.join`
    and `replace`. */
module PyStr {

  /** `c.isspace()`: the ASCII blanks and separators 9-13 and 28-32, and the
      Unicode spaces 0x85, 0xA0, 0x1680, 0x2000-0x200A, 0x2028, 0x2029, 0x202F,
      0x205F and 0x3000. */
  predicate IsSpace(c: char) {
    var n := c as int;
    (9 <= n <= 13) || (28 <= n <= 32) || n == 0x85 || n == 0xA0 || n == 0x1680
    || (0x2000 <= n <= 0x200A) || n == 0x2028 || n == 0x2029 || n == 0x202F
    || n == 0x205F || n == 0x3000
  }

  /** The characters at which `str.splitlines` breaks a line. Every one of them is
      also a space. */
  predicate IsLineBreak(c: char)
    ensures IsLineBreak(c) ==> IsSpace(c)
  {
    var n := c as int;
    (10 <= n <= 13) || (28 <= n <= 30) || n == 0x85 || n == 0x2028 || n == 0x2029
  }

  predicate NoLineBreak(s: string) {
    forall i | 0 <= i < |s| :: !IsLineBreak(s[i])
  }

  predicate NoSpace(s: string) {
    forall i | 0 <= i < |s| :: !IsSpace(s[i])
  }

  function LStrip(s: string): (r: string)
    ensures |r| <= |s| && r == s[|s| - |r|..]
    ensures r == [] || !IsSpace(r[0])
  {
    if s != [] && IsSpace(s[0]) then LStrip(s[1..]) else s
  }

  function RStrip(s: string): (r: string)
    ensures |r| <= |s| && r == s[..|r|]
    ensures r == [] || !IsSpace(r[|r| - 1])
  {
    if s != [] && IsSpace(s[|s| - 1]) then RStrip(s[..|s| - 1]) else s
  }

  /** `s.strip()` */
  function Strip(s: string): string {
    RStrip(LStrip(s))
  }

  /** A stripped string starts and ends with a character that is not a space. */
  lemma StripEnds(s: string)
    ensures Strip(s) == [] || (!IsSpace(Strip(s)[0]) && !IsSpace(Strip(s)[|Strip(s)| - 1]))
  {
    var l := LStrip(s);
    if Strip(s) != [] {
      assert Strip(s)[0] == l[0];
    }
  }

  lemma StripUnchanged(s: string)
    requires s == [] || (!IsSpace(s[0]) && !IsSpace(s[|s| - 1]))
    ensures Strip(s) == s
  {
  }

  /** The longest prefix of `s` without a space. */
  function Word(s: string): (w: string)
    ensures w <= s && NoSpace(w)
    ensures |w| < |s| ==> IsSpace(s[|w|])
    ensures s != [] && !IsSpace(s[0]) ==> |w| >= 1
  {
    if s == [] || IsSpace(s[0]) then "" else [s[0]] + Word(s[1..])
  }

  /** `s.split()`: the maximal runs of non-space characters, in order. */
  function Split(s: string): (r: seq<string>)
    ensures forall i | 0 <= i < |r| :: r[i] != [] && NoSpace(r[i])
    decreases |s|
  {
    if s == [] then []
    else if IsSpace(s[0]) then Split(s[1..])
    else
      var w := Word(s);
      [w] + Split(s[|w|..])
  }

  /** `' '.join(ts)` */
  function Join(ts: seq<string>): string {
    if |ts| == 0 then "" else if |ts| == 1 then ts[0] else ts[0] + " " + Join(ts[1..])
  }

  /** `''.join(ts)` */
  function Concat(ts: seq<string>): string {
    if ts == [] then "" else ts[0] + Concat(ts[1..])
  }

  /** Every token preceded by one space: `" t1 t2 ... tn"`. It is `" " + Join(ts)`
      for a non-empty list and composes by plain concatenation. */
  function SpaceLed(ts: seq<string>): string {
    if ts == [] then "" else " " + ts[0] + SpaceLed(ts[1..])
  }

  lemma {:induction false} SpaceLedIsJoin(ts: seq<string>)
    requires ts != []
    ensures SpaceLed(ts) == " " + Join(ts)
  {
    if |ts| > 1 {
      SpaceLedIsJoin(ts[1..]);
    }
  }

  lemma {:induction false} SpaceLedAppend(a: seq<string>, b: seq<string>)
    ensures SpaceLed(a + b) == SpaceLed(a) + SpaceLed(b)
  {
    if a == [] {
      assert a + b == b;
    } else {
      assert (a + b)[1..] == a[1..] + b;
      SpaceLedAppend(a[1..], b);
    }
  }

  /** Splitting the space-led text of space-free, non-empty words, with a space
      after the last one, gives the words back: `str.split` undoes the joining. */
  lemma {:induction false} SplitSpaceLed(ts: seq<string>)
    requires forall i | 0 <= i < |ts| :: ts[i] != [] && NoSpace(ts[i])
    ensures Split(SpaceLed(ts) + " ") == ts
  {
    if ts == [] {
      assert Split(" ") == Split("");
    } else {
      var rest := SpaceLed(ts[1..]) + " ";
      assert SpaceLed(ts) + " " == " " + (ts[0] + rest);
      SplitLeadingWord(ts[0], rest);
      SplitSpaceLed(ts[1..]);
    }
  }

  /** A space, a word, then text starting with a space: the word comes first. */
  lemma SplitLeadingWord(w: string, rest: string)
    requires w != [] && NoSpace(w) && rest != [] && IsSpace(rest[0])
    ensures Split(" " + (w + rest)) == [w] + Split(rest)
  {
    assert (" " + (w + rest))[1..] == w + rest;
    WordOfPrefix(w, rest);
    assert (w + rest)[|w|..] == rest;
  }

  lemma {:induction false} WordOfPrefix(w: string, rest: string)
    requires NoSpace(w) && rest != [] && IsSpace(rest[0])
    ensures Word(w + rest) == w
  {
    if w != [] {
      assert (w + rest)[1..] == w[1..] + rest;
      WordOfPrefix(w[1..], rest);
    }
  }

  lemma {:induction false} ConcatAppend(a: seq<string>, b: seq<string>)
    ensures Concat(a + b) == Concat(a) + Concat(b)
  {
    if a == [] {
      assert a + b == b;
    } else {
      assert (a + b)[1..] == a[1..] + b;
      ConcatAppend(a[1..], b);
    }
  }

  /** The one-character strings of `s`, in order (Python's `list(s)`). */
  function Chars(s: string): (r: seq<string>)
    ensures |r| == |s|
    ensures forall i | 0 <= i < |s| :: r[i] == [s[i]]
  {
    seq(|s|, i requires 0 <= i < |s| => [s[i]])
  }

  lemma {:induction false} ConcatChars(s: string)
    ensures Concat(Chars(s)) == s
  {
    if s != [] {
      assert Chars(s)[1..] == Chars(s[1..]);
      ConcatChars(s[1..]);
    }
  }

  /** `s.replace(pat, rep)`: every non-overlapping occurrence, scanning left to right. */
  function ReplaceAll(s: string, pat: string, rep: string): string
    requires pat != []
    decreases |s|
  {
    if s == [] then []
    else if pat <= s then rep + ReplaceAll(s[|pat|..], pat, rep)
    else [s[0]] + ReplaceAll(s[1..], pat, rep)
  }

  /** Replacing a pattern that occurs only as the suffix of `s + pat` removes it. */
  lemma {:induction false} ReplaceAllSuffix(s: string, pat: string)
    requires pat != [] && forall i | 0 <= i < |s| :: s[i] != pat[0]
    ensures ReplaceAll(s + pat, pat, "") == s
  {
    if s == [] {
      assert pat[|pat|..] == [];
      assert ReplaceAll(pat, pat, "") == "" + ReplaceAll([], pat, "");
    } else {
      assert (s + pat)[0] == s[0];
      assert !(pat <= s + pat);
      assert (s + pat)[1..] == s[1..] + pat;
      ReplaceAllSuffix(s[1..], pat);
    }
  }

  /** The index of the first line break of `s`, or `|s|`. */
  function LineEnd(s: string): (k: nat)
    ensures k <= |s|
    ensures forall i | 0 <= i < k :: !IsLineBreak(s[i])
    ensures k < |s| ==> IsLineBreak(s[k])
  {
    if s == [] || IsLineBreak(s[0]) then 0 else 1 + LineEnd(s[1..])
  }

  /** `s.splitlines()`: the text between line breaks, a `\r\n` pair counting as one
      break, with no empty entry after a final break. */
  function SplitLines(s: string): seq<string>
    decreases |s|
  {
    if s == [] then []
    else
      var k := LineEnd(s);
      if k == |s| then [s]
      else
        var next := if s[k] == '\r' && k + 1 < |s| && s[k + 1] == '\n' then k + 2 else k + 1;
        [s[..k]] + SplitLines(s[next..])
  }

  /** The text of lines each closed by `\n` (the shape of a file written line by line). */
  function Unlines(ls: seq<string>): string {
    if ls == [] then "" else ls[0] + "\n" + Unlines(ls[1..])
  }

  /** `splitlines` undoes `Unlines` when no line holds a line break. */
  lemma {:induction false} SplitLinesUnlines(ls: seq<string>)
    requires forall i | 0 <= i < |ls| :: NoLineBreak(ls[i])
    ensures SplitLines(Unlines(ls)) == ls
  {
    if ls != [] {
      SplitLinesStep(ls[0], Unlines(ls[1..]));
      SplitLinesUnlines(ls[1..]);
    }
  }

  lemma SplitLinesStep(l: string, rest: string)
    requires NoLineBreak(l)
    ensures SplitLines(l + "\n" + rest) == [l] + SplitLines(rest)
  {
    var s := l + "\n" + rest;
    LineEndOf(l, "\n" + rest);
    assert s == l + ("\n" + rest);
    var k := LineEnd(s);
    assert k == |l| && s[k] == '\n';
    assert s[..k] == l;
    assert s[k + 1..] == rest;
  }

  lemma {:induction false} LineEndOf(l: string, rest: string)
    requires NoLineBreak(l)
    requires rest != [] && IsLineBreak(rest[0])
    ensures LineEnd(l + rest) == |l|
  {
    if l != [] {
      assert (l + rest)[1..] == l[1..] + rest;
      LineEndOf(l[1..], rest);
    }
  }

  lemma {:induction false} UnlinesAppend(a: seq<string>, b: seq<string>)
    ensures Unlines(a + b) == Unlines(a) + Unlines(b)
  {
    if a == [] {
      assert a + b == b;
    } else {
      assert (a + b)[1..] == a[1..] + b;
      UnlinesAppend(a[1..], b);
    }
  }

  /** `s.lower()` on ASCII text: capitals become small letters, nothing else
      changes. */
  function Lower(s: string): (r: string)
    ensures |r| == |s|
    ensures forall i | 0 <= i < |s| :: r[i] == if 'A' <= s[i] <= 'Z' then (s[i] as int + 32) as char else s[i]
  {
    seq(|s|, i requires 0 <= i < |s| => if 'A' <= s[i] <= 'Z' then (s[i] as int + 32) as char else s[i])
  }
}
