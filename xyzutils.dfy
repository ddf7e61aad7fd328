/** `xyz_utils.py`: `parse_xyz`, which reads the molecule of an upload in XYZ
    format (an optional atom count and comment line, then one atom per line:
    element symbol and three Cartesian coordinates). */
module XyzUtils {
  import opened Wrappers
  import opened PyStr
  import opened Decimals
  import Seqs

  /** `(atom_types, coords)`: two parallel lists. */
  datatype Molecule = Molecule(types: seq<string>, coords: seq<Vec3>)

  /** The exceptions `parse_xyz` lets through. */
  datatype XyzError =
    | NoLines                       // `lines[0]` on a text with no non-blank line
    | BadCoordinate(line: string)   // `float(...)` on a coordinate field

  /** `[ln.strip() for ln in lines if ln.strip()]`: every line stripped, the
      blank ones dropped, the order kept. */
  function NonBlank(ls: seq<string>): (r: seq<string>)
    ensures |r| <= |ls|
    ensures AllTrimmed(r)
  {
    if ls == [] then []
    else
      var rest := NonBlank(ls[..|ls| - 1]);
      var s := Strip(ls[|ls| - 1]);
      if s != [] then
        StripEnds(ls[|ls| - 1]);
        TrimmedSnoc(rest, s);
        rest + [s]
      else rest
  }

  /** A line with no whitespace at either end and something in between. */
  predicate Trimmed(s: string) {
    s != [] && !IsSpace(s[0]) && !IsSpace(s[|s| - 1])
  }

  /** Every line of `ls` is `Trimmed`. */
  predicate AllTrimmed(ls: seq<string>) {
    forall i | 0 <= i < |ls| :: Trimmed(ls[i])
  }

  lemma TrimmedSnoc(ls: seq<string>, s: string)
    requires AllTrimmed(ls) && Trimmed(s)
    ensures AllTrimmed(ls + [s])
  {
    forall i | 0 <= i < |ls| + 1
      ensures Trimmed((ls + [s])[i])
    {
      if i < |ls| {
        assert (ls + [s])[i] == ls[i];
      }
    }
  }

  /** The lines of the text that `parse_xyz` looks at. */
  function KeptLines(text: string): seq<string> {
    NonBlank(SplitLines(Strip(text)))
  }

  /** An index as Python's slicing normalises it for a sequence of length `len`:
      a negative index counts from the end, and the result is clamped to
      `[0, len]`. */
  function SliceBound(i: int, len: nat): (r: nat)
    ensures r <= len
  {
    if i < 0 then (if i + len < 0 then 0 else i + len)
    else if i > len then len
    else i
  }

  /** `s[a:b]` */
  function PySlice<T>(s: seq<T>, a: int, b: int): seq<T> {
    var lo := SliceBound(a, |s|);
    var hi := SliceBound(b, |s|);
    if lo < hi then s[lo..hi] else []
  }

  /** The candidate data lines: `lines[2:2+n]` when the first line is an
      integer `n`, otherwise all lines. */
  function DataLines(lines: seq<string>): seq<string>
    requires lines != []
  {
    match ParseInt(lines[0]) {
      case Some(n) => PySlice(lines, 2, 2 + n)
      case None => lines
    }
  }

  /** The four fields of a data line that are read: the element symbol and
      the three coordinates as written. */
  datatype AtomRow = AtomRow(symbol: string, x: string, y: string, z: string)

  /** `parts[0]`, `parts[1]`, `parts[2]`, `parts[3]`: fields past the fourth
      are never looked at. */
  function RowOf(parts: seq<string>): AtomRow
    requires |parts| >= 4
  {
    AtomRow(parts[0], parts[1], parts[2], parts[3])
  }

  /** `[float(parts[1]), float(parts[2]), float(parts[3])]`, `None` when one of
      them is not a number. */
  function Coords(row: AtomRow): Option<Vec3> {
    var x := ParseFloat(row.x);
    var y := ParseFloat(row.y);
    var z := ParseFloat(row.z);
    if x.Some? && y.Some? && z.Some? then Some(Vec3(x.value, y.value, z.value)) else None
  }

  /** The loop over the data lines: a line of fewer than four fields is
      skipped, any other adds its first field and its coordinates, and the first
      line whose coordinates do not parse raises. */
  function ParseRows(ls: seq<string>): (r: Result<Molecule, XyzError>)
    ensures r.Success? ==> |r.value.types| == |r.value.coords| <= |ls|
  {
    if ls == [] then Success(Molecule([], []))
    else match ParseRows(ls[..|ls| - 1]) {
      case Failure(e) => Failure(e)
      case Success(m) =>
        var parts := Split(ls[|ls| - 1]);
        if |parts| < 4 then Success(m)
        else
          var row := RowOf(parts);
          match Coords(row) {
            case None => Failure(BadCoordinate(ls[|ls| - 1]))
            case Some(v) => Success(Molecule(m.types + [row.symbol], m.coords + [v]))
          }
    }
  }

  /** `parse_xyz(text)` */
  function ParseXyz(text: string): (r: Result<Molecule, XyzError>)
    ensures r.Success? ==> |r.value.types| == |r.value.coords|
  {
    var lines := KeptLines(text);
    if lines == [] then Failure(NoLines) else ParseRows(DataLines(lines))
  }

  /** `parse_xyz`: the header test, then the loop that appends to the two
      lists. */
  method ParseXyzLines(text: string) returns (r: Result<Molecule, XyzError>)
    ensures r == ParseXyz(text)
  {
    var lines := KeptLines(text);
    if |lines| == 0 {
      return Failure(NoLines);
    }
    var data := ReadHeader(lines);
    r := ReadAtoms(data);
  }

  /** The header test of `parse_xyz`: a first line that is an integer `n`
      gives the lines `lines[2:2+n]`, any other first line all lines. */
  method ReadHeader(lines: seq<string>) returns (data: seq<string>)
    requires lines != []
    ensures data == DataLines(lines)
  {
    var n := ParseInt(lines[0]);
    if n.Some? {
      data := PySlice(lines, 2, 2 + n.value);
    } else {
      data := lines;
    }
  }

  /** The loop of `parse_xyz` over the data lines, appending to the atom
      types and the coordinates. */
  method ReadAtoms(data: seq<string>) returns (r: Result<Molecule, XyzError>)
    ensures r == ParseRows(data)
  {
    var types: seq<string> := [];
    var coords: seq<Vec3> := [];
    for i := 0 to |data|
      invariant ParseRows(data[..i]) == Success(Molecule(types, coords))
    {
      ParseRowsNext(data, i, Molecule(types, coords));
      var parts := Split(data[i]);
      if |parts| >= 4 {
        var c := Coords(RowOf(parts));
        if c.None? {
          return Failure(BadCoordinate(data[i]));
        }
        types := types + [parts[0]];
        coords := coords + [c.value];
      }
    }
    assert data[..|data|] == data;
    return Success(Molecule(types, coords));
  }

  // ---------------------------------------------------------------- properties

  /** One more turn of the loop after turns that did not raise: a short line
      is skipped, a line with coordinates that do not parse ends the loop
      with its exception, any other line adds one atom. */
  lemma ParseRowsNext(ls: seq<string>, i: nat, m: Molecule)
    requires i < |ls| && ParseRows(ls[..i]) == Success(m)
    ensures var parts := Split(ls[i]);
      && (|parts| < 4 ==> ParseRows(ls[..i + 1]) == Success(m))
      && (|parts| >= 4 && Coords(RowOf(parts)).None? ==> ParseRows(ls) == Failure(BadCoordinate(ls[i])))
      && (|parts| >= 4 && Coords(RowOf(parts)).Some? ==>
            ParseRows(ls[..i + 1]) == Success(Molecule(m.types + [parts[0]], m.coords + [Coords(RowOf(parts)).value])))
  {
    assert ls[..i + 1][..i] == ls[..i];
    assert ls[..i + 1][i] == ls[i];
    var parts := Split(ls[i]);
    if |parts| >= 4 && Coords(RowOf(parts)).None? {
      ParseRowsFailed(ls, i + 1);
    }
  }

  /** Once a prefix of the data lines raises, the whole loop raises the same. */
  lemma {:induction false} ParseRowsFailed(ls: seq<string>, i: nat)
    requires i <= |ls| && ParseRows(ls[..i]).Failure?
    ensures ParseRows(ls) == ParseRows(ls[..i])
    decreases |ls| - i
  {
    if i < |ls| {
      assert ls[..i + 1][..i] == ls[..i];
      ParseRowsFailed(ls, i + 1);
    } else {
      assert ls[..i] == ls;
    }
  }

  /** The field lists of the lines with at least four fields, in order: the
      lines that make atoms. */
  function AtomRows(ls: seq<string>): seq<AtomRow> {
    if ls == [] then []
    else
      var parts := Split(ls[|ls| - 1]);
      if |parts| < 4 then AtomRows(ls[..|ls| - 1]) else AtomRows(ls[..|ls| - 1]) + [RowOf(parts)]
  }

  /** Every row has numeric coordinates. */
  predicate AllNumeric(rows: seq<AtomRow>) {
    forall i | 0 <= i < |rows| :: Coords(rows[i]).Some?
  }

  lemma AllNumericSnoc(rows: seq<AtomRow>, row: AtomRow)
    ensures AllNumeric(rows + [row]) <==> AllNumeric(rows) && Coords(row).Some?
  {
    if AllNumeric(rows + [row]) {
      AllNumericInit(rows, row);
    }
    if AllNumeric(rows) && Coords(row).Some? {
      AllNumericExtend(rows, row);
    }
  }

  lemma AllNumericInit(rows: seq<AtomRow>, row: AtomRow)
    requires AllNumeric(rows + [row])
    ensures AllNumeric(rows) && Coords(row).Some?
  {
    var all := rows + [row];
    forall i | 0 <= i < |rows|
      ensures Coords(rows[i]).Some?
    {
      assert all[i] == rows[i];
    }
    assert all[|rows|] == row;
  }

  lemma AllNumericExtend(rows: seq<AtomRow>, row: AtomRow)
    requires AllNumeric(rows) && Coords(row).Some?
    ensures AllNumeric(rows + [row])
  {
    var all := rows + [row];
    forall i | 0 <= i < |all|
      ensures Coords(all[i]).Some?
    {
      if i < |rows| {
        assert all[i] == rows[i];
      } else {
        assert all[i] == row;
      }
    }
  }

  /** The loop succeeds exactly when every line of four or more fields has
      numeric coordinates. */
  lemma {:induction false} ParseRowsSucceeds(ls: seq<string>)
    ensures ParseRows(ls).Success? <==> AllNumeric(AtomRows(ls))
  {
    if ls != [] {
      var init := ls[..|ls| - 1];
      ParseRowsSucceeds(init);
      var parts := Split(ls[|ls| - 1]);
      if |parts| >= 4 {
        var row := RowOf(parts);
        assert ParseRows(ls).Success? <==> ParseRows(init).Success? && Coords(row).Some?;
        assert AllNumeric(AtomRows(ls)) <==> AllNumeric(AtomRows(init)) && Coords(row).Some? by {
          assert AtomRows(ls) == AtomRows(init) + [row];
          AllNumericSnoc(AtomRows(init), row);
        }
      } else {
        assert ParseRows(ls).Success? <==> ParseRows(init).Success?;
        assert AtomRows(ls) == AtomRows(init);
      }
    }
  }

  /** Atom `i` of `m` is row `i`: its symbol and its parsed coordinates. */
  predicate AtomsOf(m: Molecule, rows: seq<AtomRow>) {
    && |m.types| == |m.coords| == |rows|
    && forall i | 0 <= i < |rows| :: m.types[i] == rows[i].symbol && Some(m.coords[i]) == Coords(rows[i])
  }

  lemma AtomsOfSnoc(m: Molecule, rows: seq<AtomRow>, row: AtomRow, v: Vec3)
    requires AtomsOf(m, rows) && Coords(row) == Some(v)
    ensures AtomsOf(Molecule(m.types + [row.symbol], m.coords + [v]), rows + [row])
  {
    var m' := Molecule(m.types + [row.symbol], m.coords + [v]);
    var all := rows + [row];
    forall i | 0 <= i < |all|
      ensures m'.types[i] == all[i].symbol && Some(m'.coords[i]) == Coords(all[i])
    {
      if i < |rows| {
        assert all[i] == rows[i] && m'.types[i] == m.types[i] && m'.coords[i] == m.coords[i];
      } else {
        assert all[i] == row && m'.types[i] == row.symbol && m'.coords[i] == v;
      }
    }
  }

  /** On success atom `i` is the first field of the `i`-th line of four or
      more fields, and its coordinates are that line's second to fourth
      fields. */
  lemma {:induction false} ParseRowsAtoms(ls: seq<string>)
    requires ParseRows(ls).Success?
    ensures AtomsOf(ParseRows(ls).value, AtomRows(ls))
  {
    if ls != [] {
      var init := ls[..|ls| - 1];
      ParseRowsAtoms(init);
      var parts := Split(ls[|ls| - 1]);
      if |parts| >= 4 {
        var row := RowOf(parts);
        assert AtomRows(ls) == AtomRows(init) + [row];
        AtomsOfSnoc(ParseRows(init).value, AtomRows(init), row, Coords(row).value);
      } else {
        assert AtomRows(ls) == AtomRows(init);
      }
    }
  }

  /** With a count `n >= 0` in the first line, the data are the lines after the
      count and the comment, at most `n` of them; with a negative count Python
      counts the slice's end from the back once `2 + n` is negative. */
  lemma HeaderData(lines: seq<string>, n: int)
    requires lines != [] && ParseInt(lines[0]) == Some(n)
    ensures n >= 0 ==> DataLines(lines) == lines[Min(2, |lines|)..Min(2 + n, |lines|)]
    ensures n >= 0 ==> |DataLines(lines)| <= n
    ensures -2 <= n < 0 ==> DataLines(lines) == []
    ensures n < -2 ==> DataLines(lines) == if |lines| + 2 + n > 2 then lines[2..|lines| + 2 + n] else []
  {
  }

  function Min(a: int, b: int): int {
    if a < b then a else b
  }

  /** Without a count in the first line every kept line is a candidate. */
  lemma NoHeaderData(lines: seq<string>)
    requires lines != [] && ParseInt(lines[0]).None?
    ensures DataLines(lines) == lines
  {
  }

  /** A count `n >= 0` bounds the number of atoms, and neither the count line
      nor the comment line is ever read as an atom. */
  lemma HeaderBoundsAtoms(text: string, n: int)
    requires KeptLines(text) != [] && ParseInt(KeptLines(text)[0]) == Some(n) && n >= 0
    requires ParseXyz(text).Success?
    ensures |ParseXyz(text).value.types| <= n
    ensures ParseXyz(text) == ParseRows(KeptLines(text)[Min(2, |KeptLines(text)|)..Min(2 + n, |KeptLines(text)|)])
  {
    HeaderData(KeptLines(text), n);
  }

  /** A text with nothing but whitespace raises at `lines[0]`. */
  lemma BlankTextFails(text: string)
    requires Strip(text) == []
    ensures ParseXyz(text) == Failure(NoLines)
  {
  }

  /** The kept lines of one line: the stripped line, unless it is blank. */
  function KeptOf(l: string): seq<string> {
    if Strip(l) != [] then [Strip(l)] else []
  }

  /** One more line contributes itself stripped, or nothing when it is blank. */
  lemma NonBlankSnoc(ls: seq<string>, l: string)
    ensures NonBlank(ls + [l]) == NonBlank(ls) + KeptOf(l)
  {
    Seqs.SnocParts(ls, l);
  }

  /** The line filter keeps input order: the kept lines of two runs of lines
      are those of the first run followed by those of the second. */
  lemma {:induction false} NonBlankAppend(ls: seq<string>, ms: seq<string>)
    ensures NonBlank(ls + ms) == NonBlank(ls) + NonBlank(ms)
    decreases |ms|
  {
    if ms == [] {
      assert ls + ms == ls;
    } else {
      var init := ms[..|ms| - 1];
      var last := ms[|ms| - 1];
      assert ls + ms == (ls + init) + [last] by {
        Seqs.InitLast(ms);
        Seqs.SnocAssoc(ls, init, last);
      }
      assert NonBlank(ms) == NonBlank(init) + KeptOf(last) by {
        Seqs.InitLast(ms);
        NonBlankSnoc(init, last);
      }
      calc {
        NonBlank(ls + ms);
        NonBlank((ls + init) + [last]);
        { NonBlankSnoc(ls + init, last); }
        NonBlank(ls + init) + KeptOf(last);
        { NonBlankAppend(ls, init); }
        (NonBlank(ls) + NonBlank(init)) + KeptOf(last);
        NonBlank(ls) + NonBlank(ms);
      }
    }
  }

  /** Some line of `ls` strips to `s`. */
  predicate StripsTo(ls: seq<string>, s: string) {
    exists i | 0 <= i < |ls| :: Strip(ls[i]) == s
  }

  /** Every non-blank line is kept, stripped. */
  lemma {:induction false} NonBlankKeeps(ls: seq<string>, i: nat)
    requires i < |ls| && Strip(ls[i]) != []
    ensures Strip(ls[i]) in NonBlank(ls)
  {
    var init := ls[..|ls| - 1];
    Seqs.InitLast(ls);
    NonBlankSnoc(init, ls[|ls| - 1]);
    if i < |init| {
      NonBlankKeeps(init, i);
      assert init[i] == ls[i];
    }
  }

  /** A line of the first `|ls| - 1` lines is a line of `ls`. */
  lemma StripsToInit(ls: seq<string>, s: string)
    requires ls != [] && StripsTo(ls[..|ls| - 1], s)
    ensures StripsTo(ls, s)
  {
    var i :| 0 <= i < |ls| - 1 && Strip(ls[..|ls| - 1][i]) == s;
    assert ls[..|ls| - 1][i] == ls[i];
  }

  /** Every kept line is a non-blank input line, stripped. */
  lemma {:induction false} NonBlankFrom(ls: seq<string>, s: string)
    requires s in NonBlank(ls)
    ensures s != [] && StripsTo(ls, s)
  {
    var init := ls[..|ls| - 1];
    var last := ls[|ls| - 1];
    Seqs.InitLast(ls);
    NonBlankSnoc(init, last);
    if s in NonBlank(init) {
      NonBlankFrom(init, s);
      StripsToInit(ls, s);
    } else {
      assert Strip(ls[|ls| - 1]) == s;
    }
  }

  /** What is kept: a string is a kept line exactly when it is not empty and
      some input line strips to it. */
  lemma NonBlankMembers(ls: seq<string>, s: string)
    ensures s in NonBlank(ls) <==> s != [] && StripsTo(ls, s)
  {
    if s in NonBlank(ls) {
      NonBlankFrom(ls, s);
    } else if s != [] && StripsTo(ls, s) {
      var i :| 0 <= i < |ls| && Strip(ls[i]) == s;
      NonBlankKeeps(ls, i);
    }
  }

  /** A text whose lines are all blank raises at `lines[0]`, and only such
      lines leave nothing to read. */
  lemma BlankLinesDropped(ls: seq<string>)
    ensures NonBlank(ls) == [] <==> forall i | 0 <= i < |ls| :: Strip(ls[i]) == []
  {
    if NonBlank(ls) == [] {
      forall i | 0 <= i < |ls|
        ensures Strip(ls[i]) == []
      {
        NonBlankMembers(ls, Strip(ls[i]));
      }
    } else {
      NonBlankMembers(ls, NonBlank(ls)[0]);
    }
  }

}
