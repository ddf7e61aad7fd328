/** The constant tables of `org_crystal.py`: the token vocabulary `VOCAB`, the
    Hall numbers `SG_HALL` of the supported space groups and their symmetry
    operations `SG_OPS_TEXT`, with the facts that make them agree: the vocabulary
    holds 140 distinct tokens under the ids 0..139, its space-group tokens are
    exactly `f"{k}_sg"` for the keys of `SG_HALL`, and those are the keys of
    `SG_OPS_TEXT`. */
module Vocab {
  import opened Wrappers
  import opened PyStr
  import opened Decimals
  import opened PyDict

  // ---------------------------------------------------------------- the token blocks

  /** Digits and the two number symbols (ids 0-11). */
  const Symbols: seq<string> :=
    ["0", "1", "2", "3", "4", "5", "6", "7", "8", "9", "-", "."]

  // The SELFIES alphabet (ids 12-80), in five blocks.

  const Selfies1: seq<string> :=
    ["[=C-1]", "[#Branch3]", "[#B]", "[Branch3]", "[#Branch1]", "[Branch2]", "[=Ring3]",
     "[#B-1]", "[#N+1]", "[=N-1]", "[Cl]", "[Branch1]", "[#C+1]", "[O-1]"]

  const Selfies2: seq<string> :=
    ["[S]", "[=P]", "[N-1]", "[#P]", "[=O]", "[O]", "[Ring2]", "[P]", "[#O+1]", "[=Ring1]",
     "[#N]", "[C]", "[F]", "[#S]"]

  const Selfies3: seq<string> :=
    ["[B+1]", "[=C]", "[=C+1]", "[=N]", "[S-1]", "[C-1]", "[O+1]", "[#C-1]", "[Ring1]",
     "[N+1]", "[#S+1]", "[#C]", "[I]", "[=P+1]"]

  const Selfies4: seq<string> :=
    ["[=B+1]", "[Br]", "[#P+1]", "[=S+1]", "[=B]", "[P+1]", "[=Branch1]", "[=P-1]",
     "[C+1]", "[S+1]", "[B-1]", "[Ring3]", "[=Ring2]", "[=B-1]"]

  const Selfies5: seq<string> :=
    ["[=S-1]", "[=Branch3]", "[#S-1]", "[B]", "[=O+1]", "[#P-1]", "[=Branch2]",
     "[#Branch2]", "[=N+1]", "[=S]", "[N]", "[P-1]", "[H]"]

  const Selfies: seq<string> := Selfies1 + Selfies2 + Selfies3 + Selfies4 + Selfies5

  // The space-group tokens (ids 81-106), by number of digits.

  const SgOneDigit: seq<string> :=
    ["1_sg", "2_sg", "4_sg", "5_sg", "7_sg", "9_sg"]

  const SgTwoDigitA: seq<string> :=
    ["13_sg", "14_sg", "15_sg", "18_sg", "19_sg", "20_sg", "29_sg", "33_sg"]

  const SgTwoDigitB: seq<string> :=
    ["43_sg", "56_sg", "60_sg", "61_sg", "76_sg", "86_sg", "88_sg", "96_sg"]

  const SgThreeDigit: seq<string> :=
    ["145_sg", "148_sg", "154_sg", "169_sg"]

  const SgTokens: seq<string> := SgOneDigit + SgTwoDigitA + SgTwoDigitB + SgThreeDigit

  // The opening and closing tags (ids 107-138).

  const Tags1: seq<string> :=
    ["<SELF>", "</SELF>", "<SG>", "</SG>", "<A>", "</A>", "<B>", "</B>", "<C>", "</C>",
     "<ALPHA>", "</ALPHA>", "<BETA>", "</BETA>", "<GAMMA>", "</GAMMA>"]

  const Tags2: seq<string> :=
    ["<X>", "</X>", "<Y>", "</Y>", "<Z>", "</Z>", "<R0>", "</R0>", "<R1>", "</R1>", "<R2>",
     "</R2>", "<LE>", "</LE>", "<LE_HULL>", "</LE_HULL>"]

  const Tags: seq<string> := Tags1 + Tags2

  /** The placeholder token (id 139). */
  const Placeholder: string := "<PH>"

  /** The keys of `VOCAB` in the order the literal lists them; the id of each is
      its position. */
  const VocabTokens: seq<string> := Symbols + Selfies + SgTokens + Tags + [Placeholder]

  /** The items `(ts[0], 0), (ts[1], 1), ...`: a literal that gives each token its
      position as id. */
  function Indexed(ts: seq<string>): (items: seq<(string, int)>)
    ensures |items| == |ts|
    ensures forall i | 0 <= i < |ts| :: items[i] == (ts[i], i)
  {
    seq(|ts|, i requires 0 <= i < |ts| => (ts[i], i))
  }

  /** `VOCAB`, the dictionary its literal builds. */
  function Vocabulary(): Dict<string, int> {
    FromItems(Indexed(VocabTokens))
  }

  // ---------------------------------------------------------------- space-group tables

  /** `SG_HALL`: space-group number to Hall number. */
  const SgHall: map<int, int> := map[
    1 := 1, 2 := 2, 4 := 6, 5 := 9, 7 := 21, 9 := 39, 13 := 72, 14 := 81, 15 := 90,
    18 := 112, 19 := 115, 20 := 116, 29 := 143, 33 := 164, 43 := 212, 56 := 266, 60 := 284,
    61 := 290, 76 := 350, 86 := 362, 88 := 365, 96 := 373, 145 := 432, 148 := 436,
    154 := 443, 169 := 463]

  /** The keys of `SG_HALL` in the order the literal lists them. */
  const SgNumbers: seq<int> :=
    [1, 2, 4, 5, 7, 9, 13, 14, 15, 18, 19, 20, 29, 33, 43, 56, 60, 61, 76, 86, 88, 96,
     145, 148, 154, 169]

  /** The symmetry operations of each space group, in the order `SG_OPS_TEXT`
      numbers them; the text itself is `OpsText` of the list. */
  const SgOps: map<int, seq<string>> := map[
    1 := ["+x,+y,+z"],
    2 := ["-x,-y,-z", "+x,+y,+z"],
    4 := ["+x,+y,+z", "-x,1/2+y,-z"],
    5 := ["-x,+y,-z", "+x,+y,+z", "1/2-x,1/2+y,-z", "1/2+x,1/2+y,+z"],
    7 := ["+x,+y,+z", "+x,-y,1/2+z"],
    9 := ["+x,+y,+z", "+x,-y,1/2+z", "1/2+x,1/2+y,+z", "1/2+x,1/2-y,1/2+z"],
    13 := ["-x,-y,-z", "+x,+y,+z", "-x,+y,1/2-z", "+x,-y,1/2+z"],
    14 := ["-x,-y,-z", "+x,+y,+z", "-x,1/2+y,1/2-z", "+x,1/2-y,1/2+z"],
    15 := ["-x,-y,-z", "+x,+y,+z", "-x,+y,1/2-z", "+x,-y,1/2+z", "1/2-x,1/2-y,-z",
           "1/2+x,1/2+y,+z", "1/2-x,1/2+y,1/2-z", "1/2+x,1/2-y,1/2+z"],
    18 := ["-x,-y,+z", "+x,+y,+z", "1/2-x,1/2+y,-z", "1/2+x,1/2-y,-z"],
    19 := ["+x,+y,+z", "-x,1/2+y,1/2-z", "1/2-x,-y,1/2+z", "1/2+x,1/2-y,-z"],
    20 := ["+x,-y,-z", "+x,+y,+z", "-x,-y,1/2+z", "-x,+y,1/2-z", "1/2+x,1/2-y,-z",
           "1/2+x,1/2+y,+z", "1/2-x,1/2-y,1/2+z", "1/2-x,1/2+y,1/2-z"],
    29 := ["+x,+y,+z", "-x,-y,1/2+z", "1/2+x,-y,+z", "1/2-x,+y,1/2+z"],
    33 := ["+x,+y,+z", "-x,-y,1/2+z", "1/2+x,1/2-y,+z", "1/2-x,1/2+y,1/2+z"],
    43 := ["-x,-y,+z", "+x,+y,+z", "-x,1/2-y,1/2+z", "+x,1/2+y,1/2+z", "1/4-x,1/4+y,1/4+z",
           "1/4+x,1/4-y,1/4+z", "1/4-x,3/4+y,3/4+z", "1/4+x,3/4-y,3/4+z", "1/2-x,-y,1/2+z",
           "1/2+x,+y,1/2+z", "1/2-x,1/2-y,+z", "1/2+x,1/2+y,+z", "3/4-x,1/4+y,3/4+z",
           "3/4+x,1/4-y,3/4+z", "3/4-x,3/4+y,1/4+z", "3/4+x,3/4-y,1/4+z"],
    56 := ["-x,-y,-z", "+x,+y,+z", "-x,1/2+y,1/2-z", "+x,1/2-y,1/2+z", "1/2-x,+y,1/2+z",
           "1/2+x,-y,1/2-z", "1/2-x,1/2-y,+z", "1/2+x,1/2+y,-z"],
    60 := ["-x,-y,-z", "+x,+y,+z", "-x,+y,1/2-z", "+x,-y,1/2+z", "1/2-x,1/2+y,+z",
           "1/2+x,1/2-y,-z", "1/2-x,1/2-y,1/2+z", "1/2+x,1/2+y,1/2-z"],
    61 := ["-x,-y,-z", "+x,+y,+z", "-x,1/2+y,1/2-z", "+x,1/2-y,1/2+z", "1/2-x,-y,1/2+z",
           "1/2+x,+y,1/2-z", "1/2-x,1/2+y,+z", "1/2+x,1/2-y,-z"],
    76 := ["+x,+y,+z", "-y,+x,1/4+z", "-x,-y,1/2+z", "+y,-x,3/4+z"],
    86 := ["-x,-y,-z", "+x,+y,+z", "-y,1/2+x,1/2+z", "+y,1/2-x,1/2-z", "1/2-y,+x,1/2-z",
           "1/2+y,-x,1/2+z", "1/2-x,1/2-y,+z", "1/2+x,1/2+y,-z"],
    88 := ["-x,-y,-z", "+x,+y,+z", "-x,1/2-y,+z", "+x,1/2+y,-z", "1/4-y,1/4+x,1/4-z",
           "1/4+y,1/4-x,1/4+z", "1/4-y,3/4+x,3/4+z", "1/4+y,3/4-x,3/4-z", "1/2-x,-y,1/2+z",
           "1/2+x,+y,1/2-z", "1/2-x,1/2-y,1/2-z", "1/2+x,1/2+y,1/2+z", "3/4-y,1/4+x,1/4+z",
           "3/4+y,1/4-x,1/4-z", "3/4-y,3/4+x,3/4-z", "3/4+y,3/4-x,3/4+z"],
    96 := ["+y,+x,-z", "+x,+y,+z", "-x,-y,1/2+z", "-y,-x,1/2-z", "1/2+y,1/2-x,1/4+z",
           "1/2+x,1/2-y,1/4-z", "1/2-x,1/2+y,3/4-z", "1/2-y,1/2+x,3/4+z"],
    145 := ["+x,+y,+z", "-x+y,-x,1/3+z", "-y,+x-y,2/3+z"],
    148 := ["-x,-y,-z", "-x+y,-x,+z", "-y,+x-y,+z", "+y,-x+y,-z", "+x-y,+x,-z", "+x,+y,+z",
            "1/3-x,2/3-y,2/3-z", "1/3-x+y,2/3-x,2/3+z", "1/3-y,2/3+x-y,2/3+z",
            "1/3+y,2/3-x+y,2/3-z", "1/3+x-y,2/3+x,2/3-z", "1/3+x,2/3+y,2/3+z",
            "2/3-x,1/3-y,1/3-z", "2/3-x+y,1/3-x,1/3+z", "2/3-y,1/3+x-y,1/3+z",
            "2/3+y,1/3-x+y,1/3-z", "2/3+x-y,1/3+x,1/3-z", "2/3+x,1/3+y,1/3+z"],
    154 := ["+y,+x,-z", "+x,+y,+z", "-x+y,-x,1/3+z", "+x-y,-y,1/3-z", "-x,-x+y,2/3-z",
            "-y,+x-y,2/3+z"],
    169 := ["+x,+y,+z", "+x-y,+x,1/6+z", "-y,+x-y,1/3+z", "-x,-y,1/2+z", "-x+y,-x,2/3+z",
            "+y,-x+y,5/6+z"]]

  /** `SG_OPS_TEXT[k]`: every operation on a line of its own after a newline,
      numbered from 1: `"\n1 op1\n2 op2..."`. */
  function OpsText(ops: seq<string>): string {
    NumberedFrom(ops, 1)
  }

  function NumberedFrom(ops: seq<string>, n: int): string {
    if ops == [] then "" else "\n" + IntToString(n) + " " + ops[0] + NumberedFrom(ops[1..], n + 1)
  }

  /** `f"{k}_sg"`, the token of space group `k`. */
  function SgToken(k: int): string {
    IntToString(k) + "_sg"
  }

  // ---------------------------------------------------------------- distinct tokens

  predicate NoDups(s: seq<string>) {
    forall i, j | 0 <= i < j < |s| :: s[i] != s[j]
  }

  /** No token of `a` is a token of `b`. */
  predicate Apart(a: seq<string>, b: seq<string>) {
    forall i, j | 0 <= i < |a| && 0 <= j < |b| :: a[i] != b[j]
  }

  lemma NoDupsAppend(a: seq<string>, b: seq<string>)
    requires NoDups(a) && NoDups(b) && Apart(a, b)
    ensures NoDups(a + b)
  {
    forall i, j | 0 <= i < j < |a + b|
      ensures (a + b)[i] != (a + b)[j]
    {
      if i >= |a| {
        assert (a + b)[i] == b[i - |a|] && (a + b)[j] == b[j - |a|];
      } else if j >= |a| {
        assert (a + b)[j] == b[j - |a|];
      }
    }
  }

  lemma ApartAppend(a: seq<string>, b: seq<string>, c: seq<string>)
    requires Apart(a, c) && Apart(b, c)
    ensures Apart(a + b, c)
  {
    forall i, j | 0 <= i < |a + b| && 0 <= j < |c|
      ensures (a + b)[i] != c[j]
    {
      if i >= |a| {
        assert (a + b)[i] == b[i - |a|];
      }
    }
  }

  /** What tells the four kinds of token apart: one character (0), a bracketed
      SELFIES symbol (1), a tag (2), anything else, such as a space-group token (3). */
  function Kind(t: string): nat {
    if |t| <= 1 then 0 else if t[0] == '[' then 1 else if t[0] == '<' then 2 else 3
  }

  predicate KindsIn(s: seq<string>, ks: set<nat>) {
    forall i | 0 <= i < |s| :: Kind(s[i]) in ks
  }

  lemma KindsAppend(a: seq<string>, b: seq<string>, ks: set<nat>)
    requires KindsIn(a, ks) && KindsIn(b, ks)
    ensures KindsIn(a + b, ks)
  {
    forall i | 0 <= i < |a + b|
      ensures Kind((a + b)[i]) in ks
    {
      if i >= |a| {
        assert (a + b)[i] == b[i - |a|];
      }
    }
  }

  lemma KindsApart(a: seq<string>, b: seq<string>, ka: set<nat>, kb: set<nat>)
    requires KindsIn(a, ka) && KindsIn(b, kb) && ka * kb == {}
    ensures Apart(a, b)
  {
    forall i, j | 0 <= i < |a| && 0 <= j < |b|
      ensures a[i] != b[j]
    {
      assert Kind(a[i]) in ka && Kind(b[j]) in kb;
      assert Kind(a[i]) !in ka * kb;
    }
  }

  lemma SymbolsKind() ensures KindsIn(Symbols, {0}) {}
  lemma SgTokensKind() ensures KindsIn(SgTokens, {3}) {}
  lemma TagsKind() ensures KindsIn(Tags + [Placeholder], {2}) {}

  lemma SelfiesKind()
    ensures KindsIn(Selfies, {1})
  {
    Selfies1Block(); Selfies2Block(); Selfies3Block(); Selfies4Block(); Selfies5Block();
    KindsAppend(Selfies1, Selfies2, {1});
    KindsAppend(Selfies1 + Selfies2, Selfies3, {1});
    KindsAppend(Selfies1 + Selfies2 + Selfies3, Selfies4, {1});
    KindsAppend(Selfies1 + Selfies2 + Selfies3 + Selfies4, Selfies5, {1});
  }

  lemma SymbolsDistinct() ensures NoDups(Symbols) {}
  lemma Selfies1Block() ensures NoDups(Selfies1) && KindsIn(Selfies1, {1}) {}
  lemma Selfies2Block() ensures NoDups(Selfies2) && KindsIn(Selfies2, {1}) {}
  lemma Selfies3Block() ensures NoDups(Selfies3) && KindsIn(Selfies3, {1}) {}
  lemma Selfies4Block() ensures NoDups(Selfies4) && KindsIn(Selfies4, {1}) {}
  lemma Selfies5Block() ensures NoDups(Selfies5) && KindsIn(Selfies5, {1}) {}
  lemma Selfies12Apart() ensures Apart(Selfies1, Selfies2) {}
  lemma Selfies13Apart() ensures Apart(Selfies1, Selfies3) {}
  lemma Selfies14Apart() ensures Apart(Selfies1, Selfies4) {}
  lemma Selfies15Apart() ensures Apart(Selfies1, Selfies5) {}
  lemma Selfies23Apart() ensures Apart(Selfies2, Selfies3) {}
  lemma Selfies24Apart() ensures Apart(Selfies2, Selfies4) {}
  lemma Selfies25Apart() ensures Apart(Selfies2, Selfies5) {}
  lemma Selfies34Apart() ensures Apart(Selfies3, Selfies4) {}
  lemma Selfies35Apart() ensures Apart(Selfies3, Selfies5) {}
  lemma Selfies45Apart() ensures Apart(Selfies4, Selfies5) {}
  lemma Tags1Distinct() ensures NoDups(Tags1) {}
  lemma Tags2Distinct() ensures NoDups(Tags2) {}
  lemma TagsApart() ensures Apart(Tags1, Tags2) && Apart(Tags, [Placeholder]) {}

  lemma SelfiesDistinct()
    ensures NoDups(Selfies)
  {
    Selfies1Block(); Selfies2Block(); Selfies3Block(); Selfies4Block(); Selfies5Block();
    Selfies12Apart(); Selfies13Apart(); Selfies14Apart(); Selfies15Apart(); Selfies23Apart();
    Selfies24Apart(); Selfies25Apart(); Selfies34Apart(); Selfies35Apart(); Selfies45Apart();
    var s12 := Selfies1 + Selfies2;
    NoDupsAppend(Selfies1, Selfies2);
    ApartAppend(Selfies1, Selfies2, Selfies3);
    NoDupsAppend(s12, Selfies3);
    ApartAppend(Selfies1, Selfies2, Selfies4);
    ApartAppend(s12, Selfies3, Selfies4);
    NoDupsAppend(s12 + Selfies3, Selfies4);
    ApartAppend(Selfies1, Selfies2, Selfies5);
    ApartAppend(s12, Selfies3, Selfies5);
    ApartAppend(s12 + Selfies3, Selfies4, Selfies5);
    NoDupsAppend(s12 + Selfies3 + Selfies4, Selfies5);
  }

  lemma TagsDistinct()
    ensures NoDups(Tags + [Placeholder])
  {
    Tags1Distinct(); Tags2Distinct(); TagsApart();
    NoDupsAppend(Tags1, Tags2);
    NoDupsAppend(Tags, [Placeholder]);
  }

  // ---------------------------------------------------------------- space-group tokens

  lemma SgTokenTwoDigits(k: int)
    requires 10 <= k < 100
    ensures SgToken(k) == [DigitChar(k / 10), DigitChar(k % 10), '_', 's', 'g']
  {
    assert NatToString(k) == NatToString(k / 10) + [DigitChar(k % 10)];
  }

  lemma SgTwoDigitIs(k: int, t: string)
    requires 10 <= k < 100 && t == [DigitChar(k / 10), DigitChar(k % 10), '_', 's', 'g']
    ensures SgToken(k) == t
  {
    SgTokenTwoDigits(k);
  }

  lemma SgTokenThreeDigits(k: int)
    requires 100 <= k < 1000
    ensures SgToken(k) == [DigitChar(k / 100), DigitChar(k / 10 % 10), DigitChar(k % 10), '_', 's', 'g']
  {
    assert NatToString(k) == NatToString(k / 10) + [DigitChar(k % 10)];
    assert NatToString(k / 10) == NatToString(k / 100) + [DigitChar(k / 10 % 10)];
  }

  lemma SgOneDigitSpelled()
    ensures forall i | 0 <= i < 6 :: SgOneDigit[i] == SgToken(SgNumbers[i])
  {
  }

  lemma SgThreeDigitIs(k: int, t: string)
    requires 100 <= k < 1000 && t == [DigitChar(k / 100), DigitChar(k / 10 % 10), DigitChar(k % 10), '_', 's', 'g']
    ensures SgToken(k) == t
  {
    SgTokenThreeDigits(k);
  }

  lemma SgTwoDigitASpelled()
    ensures forall i | 0 <= i < 8 :: SgTwoDigitA[i] == SgToken(SgNumbers[6 + i])
  {
    SgTwoDigitALow();
    SgTwoDigitAHigh();
  }

  lemma SgTwoDigitALow()
    ensures forall i | 0 <= i < 4 :: SgTwoDigitA[i] == SgToken(SgNumbers[6 + i])
  {
    SgTwoDigitIs(13, "13_sg"); SgTwoDigitIs(14, "14_sg"); SgTwoDigitIs(15, "15_sg"); SgTwoDigitIs(18, "18_sg");
  }

  lemma SgTwoDigitAHigh()
    ensures forall i | 4 <= i < 8 :: SgTwoDigitA[i] == SgToken(SgNumbers[6 + i])
  {
    SgTwoDigitIs(19, "19_sg"); SgTwoDigitIs(20, "20_sg"); SgTwoDigitIs(29, "29_sg"); SgTwoDigitIs(33, "33_sg");
  }

  lemma SgTwoDigitBSpelled()
    ensures forall i | 0 <= i < 8 :: SgTwoDigitB[i] == SgToken(SgNumbers[14 + i])
  {
    SgTwoDigitBLow();
    SgTwoDigitBHigh();
  }

  lemma SgTwoDigitBLow()
    ensures forall i | 0 <= i < 4 :: SgTwoDigitB[i] == SgToken(SgNumbers[14 + i])
  {
    SgTwoDigitIs(43, "43_sg"); SgTwoDigitIs(56, "56_sg"); SgTwoDigitIs(60, "60_sg"); SgTwoDigitIs(61, "61_sg");
  }

  lemma SgTwoDigitBHigh()
    ensures forall i | 4 <= i < 8 :: SgTwoDigitB[i] == SgToken(SgNumbers[14 + i])
  {
    SgTwoDigitIs(76, "76_sg"); SgTwoDigitIs(86, "86_sg"); SgTwoDigitIs(88, "88_sg"); SgTwoDigitIs(96, "96_sg");
  }

  lemma SgThreeDigitSpelled()
    ensures forall i | 0 <= i < 4 :: SgThreeDigit[i] == SgToken(SgNumbers[22 + i])
  {
    SgThreeDigitLow();
    SgThreeDigitHigh();
  }

  lemma SgThreeDigitLow()
    ensures forall i | 0 <= i < 2 :: SgThreeDigit[i] == SgToken(SgNumbers[22 + i])
  {
    SgThreeDigitIs(145, "145_sg"); SgThreeDigitIs(148, "148_sg");
  }

  lemma SgThreeDigitHigh()
    ensures forall i | 2 <= i < 4 :: SgThreeDigit[i] == SgToken(SgNumbers[22 + i])
  {
    SgThreeDigitIs(154, "154_sg"); SgThreeDigitIs(169, "169_sg");
  }

  /** The space-group tokens of `VOCAB` are `f"{k}_sg"` for the keys of `SG_HALL`,
      in the same order. */
  lemma SgTokensSpelled()
    ensures |SgTokens| == |SgNumbers|
    ensures forall i | 0 <= i < |SgTokens| :: SgTokens[i] == SgToken(SgNumbers[i])
  {
    SgOneDigitSpelled();
    SgTwoDigitASpelled();
    SgTwoDigitBSpelled();
    SgThreeDigitSpelled();
    forall i | 0 <= i < |SgTokens|
      ensures SgTokens[i] == SgToken(SgNumbers[i])
    {
      if i < 6 {
        assert SgTokens[i] == SgOneDigit[i];
      } else if i < 14 {
        assert SgTokens[i] == SgTwoDigitA[i - 6];
      } else if i < 22 {
        assert SgTokens[i] == SgTwoDigitB[i - 14];
      } else {
        assert SgTokens[i] == SgThreeDigit[i - 22];
      }
    }
  }

  /** Two space groups never share a token: `int(t.replace('_sg', ''))` tells them
      apart. */
  lemma SgTokenInjective(a: int, b: int)
    requires SgToken(a) == SgToken(b)
    ensures a == b
  {
    var sa, sb := IntToString(a), IntToString(b);
    assert sa == SgToken(a)[..|sa|];
    assert sb == SgToken(b)[..|sb|];
    ParseIntOfString(a);
    ParseIntOfString(b);
  }

  /** The kind of every space-group token, whatever the number. */
  lemma SgTokenKind(k: int)
    ensures Kind(SgToken(k)) == 3
  {
    var s := IntToString(k);
    assert SgToken(k)[0] == s[0];
  }

  lemma SgNumbersIncreasing()
    ensures forall i, j | 0 <= i < j < |SgNumbers| :: SgNumbers[i] < SgNumbers[j]
  {
  }

  lemma SgTokensDistinct()
    ensures NoDups(SgTokens)
  {
    SgTokensSpelled();
    SgNumbersIncreasing();
    forall i, j | 0 <= i < j < |SgTokens|
      ensures SgTokens[i] != SgTokens[j]
    {
      if SgTokens[i] == SgTokens[j] {
        SgTokenInjective(SgNumbers[i], SgNumbers[j]);
        assert false;
      }
    }
  }

  /** `SG_HALL` and `SG_OPS_TEXT` cover the same space groups, those of `SgNumbers`. */
  lemma SgTablesAgree()
    ensures SgHall.Keys == SgOps.Keys
    ensures forall k :: k in SgHall <==> k in SgNumbers
  {
  }

  // ---------------------------------------------------------------- the vocabulary

  /** `VOCAB` holds 140 distinct tokens. */
  lemma VocabDistinct()
    ensures |VocabTokens| == 140
    ensures NoDups(VocabTokens)
  {
    SymbolsDistinct();
    SelfiesDistinct();
    SgTokensDistinct();
    TagsDistinct();
    SymbolsKind();
    SelfiesKind();
    SgTokensKind();
    TagsKind();
    var a := Symbols + Selfies;
    KindsApart(Symbols, Selfies, {0}, {1});
    NoDupsAppend(Symbols, Selfies);
    KindsAppend(Symbols, Selfies, {0, 1});
    KindsApart(a, SgTokens, {0, 1}, {3});
    NoDupsAppend(a, SgTokens);
    KindsAppend(a, SgTokens, {0, 1, 3});
    KindsApart(a + SgTokens, Tags + [Placeholder], {0, 1, 3}, {2});
    NoDupsAppend(a + SgTokens, Tags + [Placeholder]);
    assert VocabTokens == (a + SgTokens) + (Tags + [Placeholder]);
  }

  /** A literal that numbers distinct tokens by position builds a dictionary with
      exactly those items: every token reads as its position, and no id is used
      twice. */
  lemma IndexedDict(ts: seq<string>)
    requires NoDups(ts)
    ensures FromItems(Indexed(ts)) == Indexed(ts)
    ensures UniqueKeys(Indexed(ts)) && UniqueValues(Indexed(ts))
    ensures forall i | 0 <= i < |ts| :: Get(Indexed(ts), ts[i]) == Some(i)
    ensures forall t :: HasKey(Indexed(ts), t) <==> t in ts
  {
    var d := Indexed(ts);
    assert UniqueKeys(d);
    FromDistinctItems(d);
    forall i | 0 <= i < |ts|
      ensures Get(d, ts[i]) == Some(i)
    {
      GetAt(d, i);
    }
    forall t
      ensures HasKey(d, t) <==> t in ts
    {
      if t in ts {
        var i :| 0 <= i < |ts| && ts[i] == t;
        assert d[i].0 == t;
      }
    }
  }

  /** `VOCAB` maps its 140 tokens to the distinct ids 0..139, token `i` to `i`, and
      knows no other token. */
  lemma VocabTable()
    ensures Vocabulary() == Indexed(VocabTokens) && |Vocabulary()| == 140
    ensures UniqueKeys(Vocabulary()) && UniqueValues(Vocabulary())
    ensures forall i | 0 <= i < 140 :: Get(Vocabulary(), VocabTokens[i]) == Some(i)
    ensures forall t :: HasKey(Vocabulary(), t) <==> t in VocabTokens
  {
    VocabDistinct();
    IndexedDict(VocabTokens);
  }

  /** In a literal that numbers distinct tokens by position, a token is found
      exactly when it is listed, and then at its own position. */
  lemma IndexedGet(ts: seq<string>, t: string)
    requires NoDups(ts)
    ensures Get(Indexed(ts), t).Some? <==> t in ts
    ensures Get(Indexed(ts), t).Some? ==> 0 <= Get(Indexed(ts), t).value < |ts| && ts[Get(Indexed(ts), t).value] == t
  {
    var d := Indexed(ts);
    IndexedDict(ts);
    if Get(d, t).Some? {
      var j :| 0 <= j < |d| && d[j] == (t, Get(d, t).value);
      assert d[j] == (ts[j], j);
    }
  }

  /** Looking a token up in `VOCAB` finds it exactly when it is one of the 140
      tokens, and then gives its position. */
  lemma VocabLookup(t: string)
    ensures Get(Vocabulary(), t).Some? <==> t in VocabTokens
    ensures Get(Vocabulary(), t).Some? ==>
              0 <= Get(Vocabulary(), t).value < |VocabTokens| && VocabTokens[Get(Vocabulary(), t).value] == t
  {
    VocabDistinct();
    IndexedDict(VocabTokens);
    IndexedGet(VocabTokens, t);
  }

  /** A token of another kind than those of a block is not in the block. */
  lemma NotOfKinds(s: seq<string>, ks: set<nat>, t: string)
    requires KindsIn(s, ks) && Kind(t) !in ks
    ensures t !in s
  {
  }

  /** The space-group tokens in `VOCAB` are exactly `f"{k}_sg"` for the keys of
      `SG_HALL`. */
  lemma SgTokenInVocab(k: int)
    ensures SgToken(k) in VocabTokens <==> k in SgHall
  {
    SgTokensSpelled();
    SgTablesAgree();
    var t := SgToken(k);
    SgTokenKind(k);
    SymbolsKind();
    SelfiesKind();
    TagsKind();
    NotOfKinds(Symbols, {0}, t);
    NotOfKinds(Selfies, {1}, t);
    NotOfKinds(Tags + [Placeholder], {2}, t);
    assert VocabTokens == Symbols + Selfies + SgTokens + (Tags + [Placeholder]);
    assert t in VocabTokens <==> t in SgTokens;
    if k in SgHall {
      var i :| 0 <= i < |SgNumbers| && SgNumbers[i] == k;
      assert SgTokens[i] == t;
    }
    if t in SgTokens {
      var i :| 0 <= i < |SgTokens| && SgTokens[i] == t;
      SgTokenInjective(SgNumbers[i], k);
    }
  }
}
