/** `org_crystal.py`: a molecular crystal as a tagged token list and back, its
    encoding to vocabulary ids, its custom properties, and the layout of its CIF
    text. Numbers are exact decimals; the geometry that turns lattice parameters
    and rotations into fractional coordinates is not part of this model, so the
    CIF writer takes those coordinates as an input. */
module OrgCrystal {
  import opened Wrappers
  import opened PyStr
  import opened Decimals
  import opened PyDict
  import opened PyJson
  import opened TagText
  import opened Vocab
  import opened Seqs

  /** `abs_cap(val, max_abs_val=1)`, `max(min(val, m), -m)`. */
  function AbsCap(v: real, m: real := 1.0): (r: real)
    ensures 0.0 <= m ==> -m <= r <= m
    ensures -m <= v <= m ==> r == v
    ensures 0.0 <= m < v ==> r == m
    ensures v < -m <= 0.0 ==> r == -m
    ensures m < 0.0 ==> r == -m
  {
    var lo := if v < m then v else m;
    if lo > -m then lo else -m
  }

  /** The exceptions the core raises, by cause. */
  datatype Error =
    | MissingSpaceGroup            // `extract('SG')[0]` on an empty list
    | BadSpaceGroup(token: string) // `int(...)` of the space-group token
    | BadNumber(tag: string)       // `float(''.join(extract(tag)))`
    | MissingKey(key: string)      // `lattice_params[key]`
    | TooFewValues                 // `com_frac[index]`, `rod[index]`
    | UnknownToken(token: string)  // `vocab[t]`
    | UnknownId(id: int)           // `id2tok[i]`
    | MoleculeNotSet               // `to_cif_string` before `set_molecule`
    | UnknownSpaceGroup(sg: int)   // `SG_OPS_TEXT[space_group]`

  /** `[f(x) for x in xs]` where `f` may raise: the results in order, or the error
      of the first element that raises. */
  function Collect<A, B>(xs: seq<A>, f: A -> Result<B, Error>): (r: Result<seq<B>, Error>)
    ensures r.Success? <==> forall i | 0 <= i < |xs| :: f(xs[i]).Success?
    ensures r.Success? ==> |r.value| == |xs| && forall i | 0 <= i < |xs| :: f(xs[i]) == Success(r.value[i])
    ensures r.Failure? ==> exists i | 0 <= i < |xs| ::
              f(xs[i]) == Failure(r.error) && forall j | 0 <= j < i :: f(xs[j]).Success?
  {
    if xs == [] then Success([])
    else
      var init := xs[..|xs| - 1];
      assert forall i | 0 <= i < |init| :: init[i] == xs[i];
      match Collect(init, f) {
        case Failure(e) => Failure(e)
        case Success(vs) =>
          match f(xs[|xs| - 1]) {
            case Failure(e) => Failure(e)
            case Success(v) => Success(vs + [v])
          }
      }
  }

  /** Every element succeeding gives their results. */
  lemma CollectAll<A, B>(xs: seq<A>, f: A -> Result<B, Error>, vs: seq<B>)
    requires |vs| == |xs| && forall i | 0 <= i < |xs| :: f(xs[i]) == Success(vs[i])
    ensures Collect(xs, f) == Success(vs)
  {
    var r := Collect(xs, f);
    assert r.Success?;
    assert forall i | 0 <= i < |xs| :: r.value[i] == vs[i];
    assert r.value == vs;
  }

  /** The first element that raises decides the error. */
  lemma CollectFirstFailure<A, B>(xs: seq<A>, f: A -> Result<B, Error>, i: nat)
    requires i < |xs| && f(xs[i]).Failure? && forall j | 0 <= j < i :: f(xs[j]).Success?
    ensures Collect(xs, f) == Failure(f(xs[i]).error)
  {
    var r := Collect(xs, f);
    var k :| 0 <= k < |xs| && f(xs[k]) == Failure(r.error) && forall j | 0 <= j < k :: f(xs[j]).Success?;
    assert k == i;
  }

  /** One more element: its result is appended, or its error is the error of the
      whole list. */
  lemma CollectStep<A, B>(xs: seq<A>, f: A -> Result<B, Error>, i: nat)
    requires i < |xs| && Collect(xs[..i], f).Success?
    ensures f(xs[i]).Success? ==> Collect(xs[..i + 1], f) == Success(Collect(xs[..i], f).value + [f(xs[i]).value])
    ensures f(xs[i]).Failure? ==> Collect(xs, f) == Failure(f(xs[i]).error)
  {
    assert xs[..i + 1][..i] == xs[..i];
    if f(xs[i]).Failure? {
      assert forall j | 0 <= j < i :: xs[..i][j] == xs[j];
      CollectFirstFailure(xs, f, i);
    }
  }

  // ---------------------------------------------------------------- section layout

  const LatticeTags: seq<string> := ["A", "B", "C", "ALPHA", "BETA", "GAMMA"]
  const LatticeKeys: seq<string> := ["a", "b", "c", "alpha", "beta", "gamma"]
  const LatticePrecisions: seq<nat> := [2, 2, 2, 1, 1, 1]
  const CenterTags: seq<string> := ["X", "Y", "Z"]
  const RotationTags: seq<string> := ["R0", "R1", "R2"]
  const CenterPrecisions: seq<nat> := [3, 3, 3]
  const RotationPrecisions: seq<nat> := [2, 2, 2]
  const PropertyTags: seq<string> := ["LE", "LE_HULL"]

  /** The tags of the sections of a crystal, in the order they are written. */
  const SectionTags: seq<string> := ["SELF", "SG"] + LatticeTags + CenterTags + RotationTags

  /** The numeric sections `<T> c1 c2 ... </T>` of values `vs`, each spelled one
      character per token at its precision. */
  function NumberSections(tags: seq<string>, vs: seq<Decimal>, ps: seq<nat>): (r: seq<Section>)
    requires |tags| == |vs| == |ps|
    ensures |r| == |tags|
  {
    seq(|vs|, i requires 0 <= i < |vs| => Section(tags[i], SplitNumeric(vs[i], ps[i])))
  }

  /** The sections `get_crystal_tokens` writes: SELF, SG, the six lattice
      parameters, the three centre coordinates and the three rotation
      components. */
  function CrystalSections(sg: int, lattice: seq<Decimal>, com: seq<Decimal>, rod: seq<Decimal>,
                           selfies: seq<string>): seq<Section>
    requires |lattice| == 6 && |com| == 3 && |rod| == 3
  {
    [Section("SELF", selfies), Section("SG", [SgToken(sg)])]
    + NumberSections(LatticeTags, lattice, LatticePrecisions)
    + NumberSections(CenterTags, com, CenterPrecisions)
    + NumberSections(RotationTags, rod, RotationPrecisions)
  }

  /** `lattice_params[key]` */
  function LookupKey(lattice: Dict<string, Decimal>, key: string): Result<Decimal, Error> {
    match Get(lattice, key)
    case None => Failure(MissingKey(key))
    case Some(v) => Success(v)
  }

  /** The lattice parameters read in the order of `keys`. */
  function KeyLookup(lattice: Dict<string, Decimal>): string -> Result<Decimal, Error> {
    k => LookupKey(lattice, k)
  }

  function LatticeValues(lattice: Dict<string, Decimal>, keys: seq<string>): Result<seq<Decimal>, Error> {
    Collect(keys, KeyLookup(lattice))
  }

  lemma LatticeValuesStep(lattice: Dict<string, Decimal>, keys: seq<string>, i: nat)
    requires i < |keys| && LatticeValues(lattice, keys[..i]).Success?
    ensures LookupKey(lattice, keys[i]).Success? ==>
              LatticeValues(lattice, keys[..i + 1])
              == Success(LatticeValues(lattice, keys[..i]).value + [LookupKey(lattice, keys[i]).value])
    ensures LookupKey(lattice, keys[i]).Failure? ==> LatticeValues(lattice, keys) == Failure(MissingKey(keys[i]))
  {
    CollectStep(keys, KeyLookup(lattice), i);
  }

  /** The token list of a crystal: its sections one after the other, or the error
      `get_crystal_tokens` raises on a missing lattice key or a short `com_frac` or
      `rod`. */
  function CrystalTokens(sg: int, lattice: Dict<string, Decimal>, com: seq<Decimal>, rod: seq<Decimal>,
                         selfies: seq<string>): Result<seq<string>, Error>
  {
    match LatticeValues(lattice, LatticeKeys) {
      case Failure(e) => Failure(e)
      case Success(lat) =>
        if |com| < 3 || |rod| < 3 then Failure(TooFewValues)
        else Success(Tokens(CrystalSections(sg, lat, com[..3], rod[..3], selfies)))
    }
  }

  // ---------------------------------------------------------------- reading tokens back

  /** `float(''.join(extract(tag)))`: an absent or empty section does not parse. */
  function ReadNumber(text: string, tag: string): (r: Result<Decimal, Error>)
    ensures Extract(text, tag) == [] ==> r == Failure(BadNumber(tag))
  {
    match ParseFloat(Concat(Extract(text, tag)))
    case None => Failure(BadNumber(tag))
    case Some(v) => Success(v)
  }

  function NumberReader(text: string): string -> Result<Decimal, Error> {
    t => ReadNumber(text, t)
  }

  function ReadNumbers(text: string, tags: seq<string>): Result<seq<Decimal>, Error> {
    Collect(tags, NumberReader(text))
  }

  /** `int(extract('SG')[0].replace('_sg', ''))` */
  function ReadSpaceGroup(text: string): Result<int, Error> {
    var words := Extract(text, "SG");
    if words == [] then Failure(MissingSpaceGroup)
    else match ParseInt(ReplaceAll(words[0], "_sg", "")) {
      case None => Failure(BadSpaceGroup(words[0]))
      case Some(sg) => Success(sg)
    }
  }

  /** The optional properties of `keys`: one that is present and parses overwrites
      the property of that name; one that is absent or does not parse is
      skipped. */
  function ReadProperties(text: string, props: Dict<string, Json>, keys: seq<string>): Dict<string, Json> {
    if keys == [] then props
    else
      var init := ReadProperties(text, props, keys[..|keys| - 1]);
      var key := keys[|keys| - 1];
      var words := Extract(text, key);
      if words == [] then init
      else match ParseFloat(Concat(words)) {
        case None => init
        case Some(v) => Set(init, key, Num(v))
      }
  }

  /** `(tag.lower(), value)` for each tag and the value read under it. */
  function LatticeItems(tags: seq<string>, vs: seq<Decimal>): (items: seq<(string, Decimal)>)
    requires |tags| == |vs|
    ensures |items| == |vs| && forall i | 0 <= i < |vs| :: items[i] == (Lower(tags[i]), vs[i])
  {
    seq(|vs|, i requires 0 <= i < |vs| => (Lower(tags[i]), vs[i]))
  }

  /** What `from_tokens` recovers. */
  datatype Parsed = Parsed(sg: int, lattice: Dict<string, Decimal>, com: seq<Decimal>,
                           rod: seq<Decimal>, selfies: seq<string>, properties: Dict<string, Json>)

  function PropertiesOrEmpty(properties: Option<Dict<string, Json>>): Dict<string, Json> {
    if properties.None? then [] else properties.value
  }

  /** `from_tokens(tokens, properties)`: the fields read from the joined tokens, or
      the first error in the order the source reads them (SG, lattice, centre,
      rotation). */
  function ParseTokens(tokens: seq<string>, properties: Option<Dict<string, Json>>): Result<Parsed, Error> {
    var text := Join(tokens);
    Assemble(ReadSpaceGroup(text), ReadNumbers(text, LatticeTags), ReadNumbers(text, CenterTags),
             ReadNumbers(text, RotationTags), text, properties)
  }

  /** The fields read in `from_tokens`, the first error in reading order winning. */
  function Assemble(sg: Result<int, Error>, lat: Result<seq<Decimal>, Error>, com: Result<seq<Decimal>, Error>,
                    rod: Result<seq<Decimal>, Error>, text: string, properties: Option<Dict<string, Json>>)
    : Result<Parsed, Error>
    requires lat.Success? ==> |lat.value| == |LatticeTags|
  {
    match sg {
      case Failure(e) => Failure(e)
      case Success(sg) =>
        match lat {
          case Failure(e) => Failure(e)
          case Success(lat) =>
            match com {
              case Failure(e) => Failure(e)
              case Success(com) =>
                match rod {
                  case Failure(e) => Failure(e)
                  case Success(rod) =>
                    Success(Parsed(sg, FromItems(LatticeItems(LatticeTags, lat)), com, rod, Extract(text, "SELF"),
                                   ReadProperties(text, PropertiesOrEmpty(properties), PropertyTags)))
                }
            }
        }
    }
  }

  // ---------------------------------------------------------------- ids

  /** `vocab[t]` */
  function LookupToken(vocab: Dict<string, int>, t: string): Result<int, Error> {
    match Get(vocab, t)
    case None => Failure(UnknownToken(t))
    case Some(id) => Success(id)
  }

  /** `id2tok[i]` */
  function LookupId(id2tok: Dict<int, string>, id: int): Result<string, Error> {
    match Get(id2tok, id)
    case None => Failure(UnknownId(id))
    case Some(t) => Success(t)
  }

  /** `tokens_to_ids(tokens, vocab)`: `[vocab[t] for t in tokens]`. */
  function TokenLookup(vocab: Dict<string, int>): string -> Result<int, Error> {
    t => LookupToken(vocab, t)
  }

  function TokensToIds(tokens: seq<string>, vocab: Dict<string, int>): Result<seq<int>, Error> {
    Collect(tokens, TokenLookup(vocab))
  }

  function IdLookup(id2tok: Dict<int, string>): int -> Result<string, Error> {
    i => LookupId(id2tok, i)
  }

  /** The token list `from_token_ids` decodes: `[id2tok[i] for i in token_ids]`
      with `id2tok` the inverted vocabulary. */
  function IdsToTokens(ids: seq<int>, vocab: Dict<string, int>): Result<seq<string>, Error> {
    Collect(ids, IdLookup(Invert(vocab)))
  }

  // ---------------------------------------------------------------- CIF text

  /** One `_atom_site` line: label `{sp}{i}`, type, the three fractional
      coordinates at 12 places, and the occupancy. */
  function AtomLine(i: int, sp: string, c: Vec3): string {
    sp + IntToString(i) + AtomFields(sp, c)
  }

  /** The part of an atom line after its label. */
  function AtomFields(sp: string, c: Vec3): string {
    " " + sp + " " + FormatFixed(c.x, 12) + " " + FormatFixed(c.y, 12) + " " + FormatFixed(c.z, 12)
    + " 1.000000000000"
  }

  /** The atom lines of `zip(atom_types, coords_frac)`, numbered from 1. */
  function AtomLines(types: seq<string>, frac: seq<Vec3>): (ls: seq<string>)
    ensures |ls| == if |types| <= |frac| then |types| else |frac|
  {
    AtomLinesUpTo(types, frac, if |types| <= |frac| then |types| else |frac|)
  }

  /** The first `k` atom lines. */
  function AtomLinesUpTo(types: seq<string>, frac: seq<Vec3>, k: nat): (ls: seq<string>)
    requires k <= |types| && k <= |frac|
    ensures |ls| == k
  {
    if k == 0 then [] else AtomLinesUpTo(types, frac, k - 1) + [AtomLine(k, types[k - 1], frac[k - 1])]
  }

  /** Everything `to_cif_string` writes before the atom lines. */
  function CifHeader(sg: int, lat: seq<Decimal>, ops: seq<string>): string
    requires |lat| == 6
  {
    "data_generated\n"
    + "_audit_creation_method generated by MolecularCrystal\n"
    + "_symmetry_Int_Tables_number " + IntToString(sg) + "\n"
    + "_cell_length_a " + Repr(lat[0]) + "\n"
    + "_cell_length_b " + Repr(lat[1]) + "\n"
    + "_cell_length_c " + Repr(lat[2]) + "\n"
    + "_cell_angle_alpha " + Repr(lat[3]) + "\n"
    + "_cell_angle_beta " + Repr(lat[4]) + "\n"
    + "_cell_angle_gamma " + Repr(lat[5]) + "\n"
    + "loop_\n"
    + "_symmetry_equiv_pos_site_id\n"
    + "_symmetry_equiv_pos_as_xyz"
    + RStrip(OpsText(ops)) + "\n"
    + CifAtomHeader
  }

  const CifAtomHeader: string :=
    "loop_\n_atom_site_label\n_atom_site_type_symbol\n_atom_site_fract_x\n_atom_site_fract_y\n"
    + "_atom_site_fract_z\n_atom_site_occupancy\n"

  /** `to_cif_string()` given the fractional coordinates of the atoms: the header,
      one line per atom, and `#END`; or the error it raises first. */
  function CifText(sg: int, lattice: Dict<string, Decimal>, types: Option<seq<string>>,
                   coords: Option<seq<Vec3>>, frac: seq<Vec3>): Result<string, Error>
  {
    if coords.None? || types.None? then Failure(MoleculeNotSet)
    else match LatticeValues(lattice, LatticeKeys) {
      case Failure(e) => Failure(e)
      case Success(lat) =>
        if sg !in SgOps then Failure(UnknownSpaceGroup(sg))
        else Success(CifHeader(sg, lat, SgOps[sg]) + Unlines(AtomLines(types.value, frac)) + "#END\n")
    }
  }

  // ---------------------------------------------------------------- the crystal

  class MolecularCrystal {
    var spaceGroup: int
    var lattice: Dict<string, Decimal>
    var com: seq<Decimal>
    var rod: seq<Decimal>
    var selfies: seq<string>
    var tokens: seq<string>
    var localCoords: Option<seq<Vec3>>
    var atomTypes: Option<seq<string>>
    var properties: Dict<string, Json>

    /** Its dictionaries hold each key once. */
    predicate Valid()
      reads this
    {
      UniqueKeys(lattice) && UniqueKeys(properties)
    }

    /** The object carries what `from_tokens` recovered. */
    predicate Holds(p: Parsed)
      reads this
    {
      spaceGroup == p.sg && lattice == p.lattice && com == p.com && rod == p.rod
      && selfies == p.selfies && properties == p.properties
    }

    /** Stores the fields of a crystal whose token list is already known. */
    constructor (sg: int, lattice: Dict<string, Decimal>, com: seq<Decimal>, rod: seq<Decimal>,
                 selfies: seq<string>, tokens: seq<string>, localCoords: Option<seq<Vec3>>,
                 atomTypes: Option<seq<string>>, properties: Option<Dict<string, Json>>)
      requires UniqueKeys(lattice) && UniqueKeys(PropertiesOrEmpty(properties))
      ensures Valid()
      ensures spaceGroup == sg && this.lattice == lattice && this.com == com && this.rod == rod
      ensures this.selfies == selfies && this.localCoords == localCoords && this.atomTypes == atomTypes
      ensures this.properties == PropertiesOrEmpty(properties) && this.tokens == tokens
    {
      spaceGroup := sg;
      this.lattice := lattice;
      this.com := com;
      this.rod := rod;
      this.selfies := selfies;
      this.tokens := tokens;
      this.localCoords := localCoords;
      this.atomTypes := atomTypes;
      this.properties := PropertiesOrEmpty(properties);
    }

    /** `__init__`: without a token list the tokens are those of the crystal, and
        building them raises `KeyError` for a missing lattice key and `IndexError`
        for a short `com` or `rod`, so no object is made. */
    static method Create(sg: int, lattice: Dict<string, Decimal>, com: seq<Decimal>, rod: seq<Decimal>,
                         selfies: seq<string>, tokens: Option<seq<string>>, localCoords: Option<seq<Vec3>>,
                         atomTypes: Option<seq<string>>, properties: Option<Dict<string, Json>>)
      returns (r: Result<MolecularCrystal, Error>)
      requires UniqueKeys(lattice) && UniqueKeys(PropertiesOrEmpty(properties))
      ensures r.Failure? <==> tokens.None? && CrystalTokens(sg, lattice, com, rod, selfies).Failure?
      ensures r.Failure? ==> r.error == CrystalTokens(sg, lattice, com, rod, selfies).error
      ensures r.Success? ==> fresh(r.value) && r.value.Valid()
      ensures r.Success? ==> r.value.spaceGroup == sg && r.value.lattice == lattice && r.value.com == com
                             && r.value.rod == rod && r.value.selfies == selfies
      ensures r.Success? ==> r.value.localCoords == localCoords && r.value.atomTypes == atomTypes
                             && r.value.properties == PropertiesOrEmpty(properties)
      ensures r.Success? ==> r.value.tokens == if tokens.Some? then tokens.value
                                               else CrystalTokens(sg, lattice, com, rod, selfies).value
    {
      var ts: seq<string>;
      if tokens.None? {
        var built := BuildTokens(sg, lattice, com, rod, selfies);
        if built.Failure? {
          return Failure(built.error);
        }
        ts := built.value;
      } else {
        ts := tokens.value;
      }
      var c := new MolecularCrystal(sg, lattice, com, rod, selfies, ts, localCoords, atomTypes, properties);
      return Success(c);
    }

    /** `get_crystal_tokens()`: builds the token list section by section and stores
        it in `tokens`. */
    method GetCrystalTokens() returns (r: Result<seq<string>, Error>)
      modifies this`tokens
      ensures r == CrystalTokens(spaceGroup, lattice, com, rod, selfies)
      ensures r.Success? ==> tokens == r.value
      ensures r.Failure? ==> tokens == old(tokens)
    {
      r := BuildTokens(spaceGroup, lattice, com, rod, selfies);
      if r.Success? {
        tokens := r.value;
      }
    }

    /** `from_tokens(tokens, properties)`: a new crystal holding what the joined
        tokens spell, the given tokens and no molecule. */
    static method FromTokens(tokens: seq<string>, properties: Option<Dict<string, Json>>)
      returns (r: Result<MolecularCrystal, Error>)
      requires UniqueKeys(PropertiesOrEmpty(properties))
      ensures r.Success? <==> ParseTokens(tokens, properties).Success?
      ensures r.Failure? ==> r.error == ParseTokens(tokens, properties).error
      ensures r.Success? ==> fresh(r.value) && r.value.Valid() && r.value.Holds(ParseTokens(tokens, properties).value)
      ensures r.Success? ==> r.value.tokens == tokens && r.value.localCoords.None? && r.value.atomTypes.None?
    {
      var text := Join(tokens);
      var selfies := Extract(text, "SELF");
      var sg := ReadSpaceGroup(text);
      if sg.Failure? {
        return Failure(sg.error);
      }
      var lp := ReadLattice(text, LatticeTags);
      if lp.Failure? {
        return Failure(lp.error);
      }
      var com := ReadNumberList(text, CenterTags);
      if com.Failure? {
        return Failure(com.error);
      }
      var rod := ReadNumberList(text, RotationTags);
      if rod.Failure? {
        return Failure(rod.error);
      }
      var parsed := ReadPropertyList(text, PropertiesOrEmpty(properties), PropertyTags);
      ReadPropertiesUnique(text, PropertiesOrEmpty(properties), PropertyTags);
      var c := new MolecularCrystal(sg.value, lp.value, com.value, rod.value, selfies, tokens, None, None,
                                    Some(parsed));
      return Success(c);
    }

    /** `from_token_ids(token_ids, vocab, properties)`: the ids decoded through the
        inverted vocabulary (`VOCAB` when none is given), then `from_tokens`. */
    static method FromTokenIds(ids: seq<int>, vocab: Option<Dict<string, int>>, properties: Option<Dict<string, Json>>)
      returns (r: Result<MolecularCrystal, Error>)
      requires UniqueKeys(PropertiesOrEmpty(properties))
      ensures var v := if vocab.None? then Vocabulary() else vocab.value;
        IdsToTokens(ids, v).Failure? ==> r == Failure(IdsToTokens(ids, v).error)
      ensures var v := if vocab.None? then Vocabulary() else vocab.value;
        IdsToTokens(ids, v).Success? ==>
          (r.Success? <==> ParseTokens(IdsToTokens(ids, v).value, properties).Success?)
          && (r.Failure? ==> r.error == ParseTokens(IdsToTokens(ids, v).value, properties).error)
          && (r.Success? ==> fresh(r.value) && r.value.tokens == IdsToTokens(ids, v).value
                             && r.value.Holds(ParseTokens(IdsToTokens(ids, v).value, properties).value))
    {
      var v := if vocab.None? then Vocabulary() else vocab.value;
      var tokens := IdsToTokens(ids, v);
      if tokens.Failure? {
        return Failure(tokens.error);
      }
      r := FromTokens(tokens.value, properties);
    }

    /** `set_property(name, value)` */
    method SetProperty(name: string, value: Json)
      requires Valid()
      modifies this`properties
      ensures Valid()
      ensures properties == Set(old(properties), name, value)
      ensures GetProperty(name, value) == value && Get(properties, name) == Some(value)
      ensures forall k | k != name :: Get(properties, k) == Get(old(properties), k)
    {
      SetUnique(properties, name, value);
      forall k {
        GetSet(properties, name, value, k);
      }
      properties := Set(properties, name, value);
    }

    /** `get_property(name, default)` */
    function GetProperty(name: string, default: Json): (r: Json)
      reads this
      ensures HasKey(properties, name) ==> Get(properties, name) == Some(r)
      ensures !HasKey(properties, name) ==> r == default
    {
      GetOr(properties, name, default)
    }

    /** `set_molecule(local_coords, atom_types)` */
    method SetMolecule(coords: seq<Vec3>, types: seq<string>)
      modifies this`localCoords, this`atomTypes
      ensures localCoords == Some(coords) && atomTypes == Some(types)
    {
      localCoords := Some(coords);
      atomTypes := Some(types);
    }

    /** `get_token_ids()`: the stored tokens encoded with `VOCAB`. */
    function GetTokenIds(): (r: Result<seq<int>, Error>)
      reads this
      ensures r.Success? <==> forall i | 0 <= i < |tokens| :: tokens[i] in VocabTokens
      ensures r.Success? ==>
                (|r.value| == |tokens|
                 && forall i | 0 <= i < |tokens| :: 0 <= r.value[i] < |VocabTokens| && VocabTokens[r.value[i]] == tokens[i])
    {
      EncodeWithVocab(tokens);
      TokensToIds(tokens, Vocabulary())
    }

    /** `to_cif_string()`, given the fractional coordinates of the atoms: one row
        per row of the local coordinates. */
    method ToCifString(frac: seq<Vec3>) returns (r: Result<string, Error>)
      requires localCoords.Some? ==> |frac| == |localCoords.value|
      ensures r == CifText(spaceGroup, lattice, atomTypes, localCoords, frac)
    {
      r := WriteCif(spaceGroup, lattice, atomTypes, localCoords, frac);
    }
  }

  /** `[float(''.join(extract(tag))) for tag in tags]`, stopping at the first
      that raises. */
  method ReadNumberList(text: string, tags: seq<string>) returns (r: Result<seq<Decimal>, Error>)
    ensures r == ReadNumbers(text, tags)
  {
    var vs: seq<Decimal> := [];
    CollectNone(tags, NumberReader(text));
    for i := 0 to |tags|
      invariant ReadNumbers(text, tags[..i]) == Success(vs)
    {
      var v := ReadNumber(text, tags[i]);
      ReadNumbersStep(text, tags, i);
      if v.Failure? {
        return Failure(v.error);
      }
      vs := vs + [v.value];
    }
    TakeAll(tags);
    return Success(vs);
  }

  /** The lattice loop of `from_tokens`: `lp[tag.lower()] = float(...)` for each
      tag in turn. */
  method ReadLattice(text: string, tags: seq<string>) returns (r: Result<Dict<string, Decimal>, Error>)
    ensures ReadNumbers(text, tags).Failure? ==> r == Failure(ReadNumbers(text, tags).error)
    ensures ReadNumbers(text, tags).Success? ==> r == Success(FromItems(LatticeItems(tags, ReadNumbers(text, tags).value)))
  {
    var lp: Dict<string, Decimal> := [];
    ghost var vs: seq<Decimal> := [];
    TakeNone(tags);
    CollectNone(tags, NumberReader(text));
    for i := 0 to |tags|
      invariant |vs| == i
      invariant ReadNumbers(text, tags[..i]) == Success(vs)
      invariant lp == FromItems(LatticeItems(tags[..i], vs))
    {
      var v := ReadNumber(text, tags[i]);
      ReadNumbersStep(text, tags, i);
      if v.Failure? {
        return Failure(v.error);
      }
      LatticeItemsSnoc(tags, vs, v.value, i);
      lp := Set(lp, Lower(tags[i]), v.value);
      vs := vs + [v.value];
    }
    TakeAll(tags);
    return Success(lp);
  }

  /** The property loop of `from_tokens`. */
  method ReadPropertyList(text: string, props: Dict<string, Json>, keys: seq<string>) returns (r: Dict<string, Json>)
    ensures r == ReadProperties(text, props, keys)
  {
    r := props;
    TakeNone(keys);
    for i := 0 to |keys|
      invariant r == ReadProperties(text, props, keys[..i])
    {
      TakeSnoc(keys, i);
      var words := Extract(text, keys[i]);
      if words != [] {
        var v := ParseFloat(Concat(words));
        if v.Some? {
          r := Set(r, keys[i], Num(v.value));
        }
      }
    }
    TakeAll(keys);
  }

  /** `to_cif_string()` after the geometry: the header, one line per atom, `#END`. */
  method WriteCif(sg: int, lattice: Dict<string, Decimal>, types: Option<seq<string>>, coords: Option<seq<Vec3>>,
                  frac: seq<Vec3>) returns (r: Result<string, Error>)
    ensures r == CifText(sg, lattice, types, coords, frac)
  {
    if coords.None? || types.None? {
      return Failure(MoleculeNotSet);
    }
    var lat := LatticeValues(lattice, LatticeKeys);
    if lat.Failure? {
      return Failure(lat.error);
    }
    if sg !in SgOps {
      return Failure(UnknownSpaceGroup(sg));
    }
    var l := lat.value;
    var buf := "data_generated\n";
    buf := buf + "_audit_creation_method generated by MolecularCrystal\n";
    buf := buf + "_symmetry_Int_Tables_number " + IntToString(sg) + "\n";
    buf := buf + "_cell_length_a " + Repr(l[0]) + "\n";
    buf := buf + "_cell_length_b " + Repr(l[1]) + "\n";
    buf := buf + "_cell_length_c " + Repr(l[2]) + "\n";
    buf := buf + "_cell_angle_alpha " + Repr(l[3]) + "\n";
    buf := buf + "_cell_angle_beta " + Repr(l[4]) + "\n";
    buf := buf + "_cell_angle_gamma " + Repr(l[5]) + "\n";
    buf := buf + "loop_\n";
    buf := buf + "_symmetry_equiv_pos_site_id\n";
    buf := buf + "_symmetry_equiv_pos_as_xyz";
    buf := buf + RStrip(OpsText(SgOps[sg])) + "\n";
    buf := buf + CifAtomHeader;
    ghost var header := buf;
    assert header == CifHeader(sg, l, SgOps[sg]);
    var ts, fs := types.value, frac;
    var n := if |ts| <= |fs| then |ts| else |fs|;
    AppendNil(header);
    for i := 0 to n
      invariant buf == header + Unlines(AtomLinesUpTo(ts, fs, i))
    {
      UnlinesAppend(AtomLinesUpTo(ts, fs, i), [AtomLine(i + 1, ts[i], fs[i])]);
      AppendAssoc(header, Unlines(AtomLinesUpTo(ts, fs, i)), Unlines([AtomLine(i + 1, ts[i], fs[i])]));
      UnlinesOne(AtomLine(i + 1, ts[i], fs[i]));
      buf := buf + (AtomLine(i + 1, ts[i], fs[i]) + "\n");
    }
    buf := buf + "#END\n";
    return Success(buf);
  }

  /** The body of `get_crystal_tokens`: SELF, SG, then the lattice, centre and
      rotation sections appended in turn. */
  method BuildTokens(spaceGroup: int, lattice: Dict<string, Decimal>, com: seq<Decimal>, rod: seq<Decimal>,
                     selfies: seq<string>) returns (r: Result<seq<string>, Error>)
    ensures r == CrystalTokens(spaceGroup, lattice, com, rod, selfies)
  {
    var ts := [] + ([Open("SELF")] + selfies + [Close("SELF")]);
    ts := ts + [Open("SG"), SgToken(spaceGroup), Close("SG")];
    var head := [Section("SELF", selfies), Section("SG", [SgToken(spaceGroup)])];
    HeadTokens(selfies, SgToken(spaceGroup));
    var withLattice := AppendLattice(ts, lattice, LatticeTags, LatticeKeys, LatticePrecisions);
    if withLattice.Failure? {
      return Failure(withLattice.error);
    }
    if |com| < 3 || |rod| < 3 {
      return Failure(TooFewValues);
    }
    ghost var lat := LatticeValues(lattice, LatticeKeys).value;
    TokensAppend(head, NumberSections(LatticeTags, lat, LatticePrecisions));
    ghost var secs := head + NumberSections(LatticeTags, lat, LatticePrecisions);
    ts := AppendNumbers(withLattice.value, CenterTags, com[..3], CenterPrecisions);
    TokensAppend(secs, NumberSections(CenterTags, com[..3], CenterPrecisions));
    secs := secs + NumberSections(CenterTags, com[..3], CenterPrecisions);
    ts := AppendNumbers(ts, RotationTags, rod[..3], RotationPrecisions);
    TokensAppend(secs, NumberSections(RotationTags, rod[..3], RotationPrecisions));
  return Success(ts);
  }

  /** The lattice part of `get_crystal_tokens`: for each `(tag, key, prec)` in turn,
      `lattice_params[key]` spelled inside its tag at its precision. */
  method AppendLattice(ts: seq<string>, lattice: Dict<string, Decimal>, tags: seq<string>, keys: seq<string>,
                       ps: seq<nat>) returns (r: Result<seq<string>, Error>)
    requires |tags| == |keys| == |ps|
    ensures LatticeValues(lattice, keys).Failure? ==> r == Failure(LatticeValues(lattice, keys).error)
    ensures LatticeValues(lattice, keys).Success? ==>
              r == Success(ts + Tokens(NumberSections(tags, LatticeValues(lattice, keys).value, ps)))
  {
    var acc := ts;
    ghost var lat: seq<Decimal> := [];
    TakeNone(tags);
    TakeNone(ps);
    AppendNil(ts);
    CollectNone(keys, KeyLookup(lattice));
    for i := 0 to |keys|
      invariant |lat| == i
      invariant LatticeValues(lattice, keys[..i]) == Success(lat)
      invariant acc == ts + Tokens(NumberSections(tags[..i], lat, ps[..i]))
    {
      var v := LookupKey(lattice, keys[i]);
      LatticeValuesStep(lattice, keys, i);
      if v.Failure? {
        return Failure(v.error);
      }
      AppendNumber([], tags, lat, v.value, ps, i);
      NilAppend(NumberSections(tags[..i + 1], lat + [v.value], ps[..i + 1]));
      NilAppend(NumberSections(tags[..i], lat, ps[..i]));
      AppendAssoc(ts, Tokens(NumberSections(tags[..i], lat, ps[..i])),
                  [Open(tags[i])] + SplitNumeric(v.value, ps[i]) + [Close(tags[i])]);
      acc := acc + ([Open(tags[i])] + SplitNumeric(v.value, ps[i]) + [Close(tags[i])]);
      lat := lat + [v.value];
    }
    TakeAll(keys);
    TakeAll(tags);
    TakeAll(ps);
    return Success(acc);
  }

  /** `tokens += [f'<{tag}>'] + split_numeric(v, precision=p) + [f'</{tag}>']` for
      each tag, value and precision in turn. */
  method AppendNumbers(ts: seq<string>, tags: seq<string>, vs: seq<Decimal>, ps: seq<nat>)
    returns (r: seq<string>)
    requires |tags| == |vs| == |ps|
    ensures r == ts + Tokens(NumberSections(tags, vs, ps))
  {
    r := ts;
    TakeNone(tags);
    TakeNone(vs);
    TakeNone(ps);
    AppendNil(ts);
    for i := 0 to |vs|
      invariant r == ts + Tokens(NumberSections(tags[..i], vs[..i], ps[..i]))
    {
      TakeSnoc(vs, i);
      AppendNumber([], tags, vs[..i], vs[i], ps, i);
      NilAppend(NumberSections(tags[..i + 1], vs[..i] + [vs[i]], ps[..i + 1]));
      NilAppend(NumberSections(tags[..i], vs[..i], ps[..i]));
      AppendAssoc(ts, Tokens(NumberSections(tags[..i], vs[..i], ps[..i])),
                  [Open(tags[i])] + SplitNumeric(vs[i], ps[i]) + [Close(tags[i])]);
      r := r + ([Open(tags[i])] + SplitNumeric(vs[i], ps[i]) + [Close(tags[i])]);
    }
    TakeAll(tags);
    TakeAll(vs);
    TakeAll(ps);
  }

  /** The SELF and SG sections written first. */
  lemma HeadTokens(selfies: seq<string>, sgToken: string)
    ensures [] + ([Open("SELF")] + selfies + [Close("SELF")]) + [Open("SG"), sgToken, Close("SG")]
         == Tokens([Section("SELF", selfies), Section("SG", [sgToken])])
  {
    var secs := [Section("SELF", selfies), Section("SG", [sgToken])];
    assert Tokens(secs[1..]) == SectionTokens(secs[1]) + Tokens([]);
  }

  /** No values, no sections. */
  lemma NoNumbers(prefix: seq<Section>, tags: seq<string>, ps: seq<nat>)
    ensures prefix + NumberSections(tags[..0], [], ps[..0]) == prefix
  {
    TakeNone(tags);
    TakeNone(ps);
    AppendNil(prefix);
  }

  /** One more numeric section appends its tokens. */
  lemma AppendNumber(prefix: seq<Section>, tags: seq<string>, vs: seq<Decimal>, v: Decimal,
                     ps: seq<nat>, i: nat)
    requires |vs| == i < |tags| == |ps|
    ensures Tokens(prefix + NumberSections(tags[..i + 1], vs + [v], ps[..i + 1]))
         == Tokens(prefix + NumberSections(tags[..i], vs, ps[..i]))
            + ([Open(tags[i])] + SplitNumeric(v, ps[i]) + [Close(tags[i])])
  {
    var s := Section(tags[i], SplitNumeric(v, ps[i]));
    var front := NumberSections(tags[..i], vs, ps[..i]);
    NumberSectionsSnoc(tags, vs, v, ps, i);
    SnocAssoc(prefix, front, s);
    AppendSection(prefix + front, s);
  }

  /** The sections of one more number are those before it and its own. */
  lemma NumberSectionsSnoc(tags: seq<string>, vs: seq<Decimal>, v: Decimal, ps: seq<nat>, i: nat)
    requires |vs| == i < |tags| == |ps|
    ensures NumberSections(tags[..i + 1], vs + [v], ps[..i + 1])
         == NumberSections(tags[..i], vs, ps[..i]) + [Section(tags[i], SplitNumeric(v, ps[i]))]
  {
    var a := NumberSections(tags[..i + 1], vs + [v], ps[..i + 1]);
    var b := NumberSections(tags[..i], vs, ps[..i]) + [Section(tags[i], SplitNumeric(v, ps[i]))];
    forall j | 0 <= j < i + 1
      ensures a[j] == b[j]
    {
      if j < i {
        assert (vs + [v])[j] == vs[j];
      }
    }
  }

  lemma AppendSection(secs: seq<Section>, s: Section)
    ensures Tokens(secs + [s]) == Tokens(secs) + SectionTokens(s)
  {
    TokensAppend(secs, [s]);
    assert Tokens([s]) == SectionTokens(s) by {
      assert Tokens([s]) == SectionTokens(s) + Tokens([]);
    }
  }

  lemma ReadNumbersStep(text: string, tags: seq<string>, i: nat)
    requires i < |tags| && ReadNumbers(text, tags[..i]).Success?
    ensures ReadNumber(text, tags[i]).Success? ==>
              ReadNumbers(text, tags[..i + 1]) == Success(ReadNumbers(text, tags[..i]).value + [ReadNumber(text, tags[i]).value])
    ensures ReadNumber(text, tags[i]).Failure? ==> ReadNumbers(text, tags) == Failure(BadNumber(tags[i]))
  {
    CollectStep(tags, NumberReader(text), i);
  }

  lemma CollectNone<A, B>(xs: seq<A>, f: A -> Result<B, Error>)
    ensures Collect(xs[..0], f) == Success([])
  {
    TakeNone(xs);
  }

  lemma LatticeItemsSnoc(tags: seq<string>, vs: seq<Decimal>, v: Decimal, i: nat)
    requires |vs| == i < |tags|
    ensures FromItems(LatticeItems(tags[..i + 1], vs + [v])) == Set(FromItems(LatticeItems(tags[..i], vs)), Lower(tags[i]), v)
  {
    var items := LatticeItems(tags[..i + 1], vs + [v]);
    LatticeItemsPrefix(tags, vs, v, i);
    FromItemsSnoc(items);
  }

  lemma LatticeItemsPrefix(tags: seq<string>, vs: seq<Decimal>, v: Decimal, i: nat)
    requires |vs| == i < |tags|
    ensures var items := LatticeItems(tags[..i + 1], vs + [v]);
      items[..i] == LatticeItems(tags[..i], vs) && items[i] == (Lower(tags[i]), v)
  {
    var items := LatticeItems(tags[..i + 1], vs + [v]);
    var prev := LatticeItems(tags[..i], vs);
    forall j | 0 <= j < i
      ensures items[j] == prev[j]
    {
      assert tags[..i + 1][j] == tags[..i][j];
      assert (vs + [v])[j] == vs[j];
    }
  }

  /** The properties read stay a dictionary. */
  lemma {:induction false} ReadPropertiesUnique(text: string, props: Dict<string, Json>, keys: seq<string>)
    requires UniqueKeys(props)
    ensures UniqueKeys(ReadProperties(text, props, keys))
  {
    if keys != [] {
      var init := keys[..|keys| - 1];
      ReadPropertiesUnique(text, props, init);
      var words := Extract(text, keys[|keys| - 1]);
      if words != [] && ParseFloat(Concat(words)).Some? {
        SetUnique(ReadProperties(text, props, init), keys[|keys| - 1], Num(ParseFloat(Concat(words)).value));
      }
    }
  }

  lemma UnlinesOne(l: string)
    ensures Unlines([l]) == l + "\n"
  {
    assert Unlines([l]) == l + "\n" + Unlines([]);
  }

  /** `tokens_to_ids(tokens, VOCAB)` succeeds exactly when every token is in the
      vocabulary, and gives each token its position there. */
  lemma EncodeWithVocab(tokens: seq<string>)
    ensures TokensToIds(tokens, Vocabulary()).Success? <==> forall i | 0 <= i < |tokens| :: tokens[i] in VocabTokens
    ensures TokensToIds(tokens, Vocabulary()).Success? ==>
              (|TokensToIds(tokens, Vocabulary()).value| == |tokens|
               && forall i | 0 <= i < |tokens| :: var id := TokensToIds(tokens, Vocabulary()).value[i];
                    0 <= id < |VocabTokens| && VocabTokens[id] == tokens[i])
  {
    forall i | 0 <= i < |tokens|
      ensures TokenLookup(Vocabulary())(tokens[i]).Success? <==> tokens[i] in VocabTokens
      ensures TokenLookup(Vocabulary())(tokens[i]).Success? ==>
        var id := TokenLookup(Vocabulary())(tokens[i]).value; 0 <= id < |VocabTokens| && VocabTokens[id] == tokens[i]
    {
      VocabLookup(tokens[i]);
    }
  }

  /** Through a vocabulary whose keys and values are distinct, the ids of a
      token list decode back to that token list. */
  lemma IdsRoundTrip(tokens: seq<string>, vocab: Dict<string, int>)
    requires UniqueKeys(vocab) && UniqueValues(vocab) && TokensToIds(tokens, vocab).Success?
    ensures IdsToTokens(TokensToIds(tokens, vocab).value, vocab) == Success(tokens)
  {
    var ids := TokensToIds(tokens, vocab).value;
    forall i | 0 <= i < |ids|
      ensures IdLookup(Invert(vocab))(ids[i]) == Success(tokens[i])
    {
      assert TokenLookup(vocab)(tokens[i]) == Success(ids[i]);
      InvertGet(vocab, tokens[i], ids[i]);
    }
    CollectAll(ids, IdLookup(Invert(vocab)), tokens);
  }

  /** Through such a vocabulary, the tokens that ids decode to encode back to
      those ids. */
  lemma DecodeRoundTrip(ids: seq<int>, vocab: Dict<string, int>)
    requires UniqueKeys(vocab) && UniqueValues(vocab) && IdsToTokens(ids, vocab).Success?
    ensures TokensToIds(IdsToTokens(ids, vocab).value, vocab) == Success(ids)
  {
    var tokens := IdsToTokens(ids, vocab).value;
    forall i | 0 <= i < |tokens|
      ensures TokenLookup(vocab)(tokens[i]) == Success(ids[i])
    {
      assert IdLookup(Invert(vocab))(ids[i]) == Success(tokens[i]);
      InvertGet(vocab, tokens[i], ids[i]);
    }
    CollectAll(tokens, TokenLookup(vocab), ids);
  }

  /** `get_token_ids()` followed by `from_token_ids` with the default vocabulary
      gives back the token list. */
  lemma VocabIdsRoundTrip(tokens: seq<string>)
    requires forall i | 0 <= i < |tokens| :: tokens[i] in VocabTokens
    ensures TokensToIds(tokens, Vocabulary()).Success?
    ensures IdsToTokens(TokensToIds(tokens, Vocabulary()).value, Vocabulary()) == Success(tokens)
  {
    EncodeWithVocab(tokens);
    VocabTable();
    IdsRoundTrip(tokens, Vocabulary());
  }

  /** `from_tokens` raises when the SG section is absent, and succeeds only when
      every lattice, centre and rotation section is present and not empty. */
  lemma ParseTokensNeedsSections(tokens: seq<string>, properties: Option<Dict<string, Json>>)
    ensures Extract(Join(tokens), "SG") == [] ==> ParseTokens(tokens, properties) == Failure(MissingSpaceGroup)
    ensures ParseTokens(tokens, properties).Success? ==>
              && (forall k | 0 <= k < |LatticeTags| :: Extract(Join(tokens), LatticeTags[k]) != [])
              && (forall k | 0 <= k < |CenterTags| :: Extract(Join(tokens), CenterTags[k]) != [])
              && (forall k | 0 <= k < |RotationTags| :: Extract(Join(tokens), RotationTags[k]) != [])
  {
    var text := Join(tokens);
    if ParseTokens(tokens, properties).Success? {
      ReadNumbersPresent(text, LatticeTags);
      ReadNumbersPresent(text, CenterTags);
      ReadNumbersPresent(text, RotationTags);
    }
  }

  /** Numbers read under tags come from sections that are present. */
  lemma ReadNumbersPresent(text: string, tags: seq<string>)
    requires ReadNumbers(text, tags).Success?
    ensures forall k | 0 <= k < |tags| :: Extract(text, tags[k]) != []
  {
    forall k | 0 <= k < |tags|
      ensures Extract(text, tags[k]) != []
    {
      assert NumberReader(text)(tags[k]).Success?;
    }
  }

  /** Reading the optional properties: a key among `keys` whose section is present
      and parses holds that number; every other key keeps its supplied value. */
  lemma {:induction false} ReadPropertiesGet(text: string, props: Dict<string, Json>, keys: seq<string>, k: string)
    ensures Get(ReadProperties(text, props, keys), k) == if k in keys then PropertyRead(text, props, k) else Get(props, k)
  {
    if keys != [] {
      var init := keys[..|keys| - 1];
      var key := keys[|keys| - 1];
      assert k in keys <==> k in init || k == key by {
        assert keys == init + [key];
      }
      ReadPropertiesGet(text, props, init, k);
      var before := ReadProperties(text, props, init);
      var after := ReadProperties(text, props, keys);
      var words := Extract(text, key);
      if words != [] && ParseFloat(Concat(words)).Some? {
        var v := Num(ParseFloat(Concat(words)).value);
        assert after == Set(before, key, v);
        GetSet(before, key, v, k);
        if k == key {
          assert PropertyRead(text, props, k) == Some(v);
        }
      } else {
        assert after == before;
        if k == key {
          assert PropertyRead(text, props, k) == Get(props, k);
        }
      }
    }
  }

  /** What `from_tokens` leaves under a property key it looks for: the number in
      its section when present and parsable, else the supplied value. */
  function PropertyRead(text: string, props: Dict<string, Json>, k: string): Option<Json> {
    var words := Extract(text, k);
    if words != [] && ParseFloat(Concat(words)).Some? then Some(Num(ParseFloat(Concat(words)).value))
    else Get(props, k)
  }

  /** The space-group token of a crystal is its fourth token after the SELFIES
      tokens. */
  lemma SgTokenAt(sg: int, lat: seq<Decimal>, com: seq<Decimal>, rod: seq<Decimal>, selfies: seq<string>)
    requires |lat| == 6 && |com| == 3 && |rod| == 3
    ensures var ts := Tokens(CrystalSections(sg, lat, com, rod, selfies));
      |selfies| + 3 < |ts| && ts[|selfies| + 3] == SgToken(sg)
  {
    CrystalSectionsAt(sg, lat, com, rod, selfies);
    SecondBodyAt(CrystalSections(sg, lat, com, rod, selfies));
  }

  /** A crystal whose space group `SG_HALL` does not list has tokens that
      `tokens_to_ids` rejects. */
  lemma UnknownSpaceGroupUnencodable(sg: int, lattice: Dict<string, Decimal>, com: seq<Decimal>, rod: seq<Decimal>,
                                     selfies: seq<string>)
    requires CrystalTokens(sg, lattice, com, rod, selfies).Success? && sg !in SgHall
    ensures TokensToIds(CrystalTokens(sg, lattice, com, rod, selfies).value, Vocabulary()).Failure?
  {
    var lat := LatticeValues(lattice, LatticeKeys).value;
    var ts := CrystalTokens(sg, lattice, com, rod, selfies).value;
    SgTokenAt(sg, lat, com[..3], rod[..3], selfies);
    SgTokenInVocab(sg);
    EncodeWithVocab(ts);
  }

  /** An atom line starts with its label: the atom's type followed by its
      number. */
  lemma AtomLineLabel(i: int, sp: string, c: Vec3)
    ensures AtomLine(i, sp, c)[..|sp| + |IntToString(i)|] == sp + IntToString(i)
  {
    var name := sp + IntToString(i);
    assert (name + AtomFields(sp, c))[..|name|] == name;
  }

  // ---------------------------------------------------------------- tokens read back

  /** Each value rounded to its own precision. */
  function RoundedAll(vs: seq<Decimal>, ps: seq<nat>): (r: seq<Decimal>)
    requires |vs| == |ps|
    ensures |r| == |vs| && forall i | 0 <= i < |vs| :: r[i] == Rounded(vs[i], ps[i])
  {
    seq(|vs|, i requires 0 <= i < |vs| => Rounded(vs[i], ps[i]))
  }

  // ---------------------------------------------------------------- the sections written

  /** Numeric sections under names are sections the tags can be found by. */
  lemma NumberSectionsOk(tags: seq<string>, vs: seq<Decimal>, ps: seq<nat>)
    requires |tags| == |vs| == |ps| && forall i | 0 <= i < |tags| :: IsName(tags[i])
    ensures forall i | 0 <= i < |tags| ::
              NumberSections(tags, vs, ps)[i].tag == tags[i] && SectionOk(NumberSections(tags, vs, ps)[i])
  {
    forall i | 0 <= i < |tags|
      ensures NumberSections(tags, vs, ps)[i].tag == tags[i] && SectionOk(NumberSections(tags, vs, ps)[i])
    {
      SplitNumericPlain(vs[i], ps[i]);
    }
  }

  /** The fourteen sections of a crystal: SELF, SG, then the three numeric
      blocks. */
  lemma CrystalSectionsAt(sg: int, lat: seq<Decimal>, com: seq<Decimal>, rod: seq<Decimal>, selfies: seq<string>)
    requires |lat| == 6 && |com| == 3 && |rod| == 3
    ensures var secs := CrystalSections(sg, lat, com, rod, selfies);
      && |secs| == 14
      && secs[0] == Section("SELF", selfies)
      && secs[1] == Section("SG", [SgToken(sg)])
      && secs[2..8] == NumberSections(LatticeTags, lat, LatticePrecisions)
      && secs[8..11] == NumberSections(CenterTags, com, CenterPrecisions)
      && secs[11..] == NumberSections(RotationTags, rod, RotationPrecisions)
      && secs[11..14] == NumberSections(RotationTags, rod, RotationPrecisions)
  {
    var head := [Section("SELF", selfies), Section("SG", [SgToken(sg)])];
    var l := NumberSections(LatticeTags, lat, LatticePrecisions);
    var c := NumberSections(CenterTags, com, CenterPrecisions);
    var r := NumberSections(RotationTags, rod, RotationPrecisions);
    Quarters(head, l, c, r);
    var secs := CrystalSections(sg, lat, com, rod, selfies);
    assert secs == head + l + c + r;
    assert secs[0] == secs[..2][0] && secs[1] == secs[..2][1];
    assert secs[11..14] == secs[11..];
  }

  /** The section tags are names, and no two are alike. */
  lemma SectionTagsDistinct()
    ensures |SectionTags| == 14
    ensures forall k | 0 <= k < 14 :: IsName(SectionTags[k])
    ensures forall i, j | 0 <= i < j < 14 :: SectionTags[i] != SectionTags[j]
  {
  }

  /** The section tags are SELF and SG, then the tags of the three numeric
      blocks. */
  lemma SectionTagsBlocks()
    ensures SectionTags[..2] == ["SELF", "SG"]
    ensures SectionTags[2..8] == LatticeTags
    ensures SectionTags[8..11] == CenterTags
    ensures SectionTags[11..] == RotationTags
  {
    Quarters(["SELF", "SG"], LatticeTags, CenterTags, RotationTags);
  }

  /** The tags of the numeric blocks are names. */
  lemma BlockTagNames()
    ensures forall i | 0 <= i < |LatticeTags| :: IsName(LatticeTags[i])
    ensures forall i | 0 <= i < |CenterTags| :: IsName(CenterTags[i])
    ensures forall i | 0 <= i < |RotationTags| :: IsName(RotationTags[i])
  {
    SectionTagsDistinct();
    SectionTagsBlocks();
    forall i | 0 <= i < 6
      ensures IsName(LatticeTags[i])
    {
      assert LatticeTags[i] == SectionTags[2..8][i] == SectionTags[2 + i];
    }
    forall i | 0 <= i < 3
      ensures IsName(CenterTags[i]) && IsName(RotationTags[i])
    {
      assert CenterTags[i] == SectionTags[8..11][i] == SectionTags[8 + i];
      assert RotationTags[i] == SectionTags[11..][i] == SectionTags[11 + i];
    }
  }

  /** The property tags are names that no section of a crystal carries. */
  lemma PropertyTagsApart()
    ensures |PropertyTags| == 2
    ensures forall k | 0 <= k < 2 :: IsName(PropertyTags[k])
    ensures forall k, i | 0 <= k < 2 && 0 <= i < 14 :: PropertyTags[k] != SectionTags[i]
  {
  }

  /** The characters of a fixed-point number are plain tokens. */
  lemma SplitNumericPlain(v: Decimal, p: nat)
    ensures PlainTokens(SplitNumeric(v, p))
  {
    var f := FormatFixed(v, p);
    forall i | 0 <= i < |f|
      ensures PlainToken([f[i]])
    {
      assert NumericChar(f[i]);
    }
  }

  /** `f"{k}_sg"` is a plain token. */
  lemma SgTokenPlain(k: int)
    ensures PlainToken(SgToken(k))
  {
    var s := IntToString(k);
    assert SgToken(k) == s + "_sg";
    forall i | 0 <= i < |s|
      ensures !IsSpace(s[i]) && s[i] != '<'
    {
      assert IsDigit(s[i]) || s[i] == '-';
    }
  }

  /** The sections of a crystal whose SELFIES tokens are plain are well formed,
      and carry the tags `SectionTags` in order. */
  lemma CrystalWellFormed(sg: int, lat: seq<Decimal>, com: seq<Decimal>, rod: seq<Decimal>, selfies: seq<string>)
    requires |lat| == 6 && |com| == 3 && |rod| == 3 && PlainTokens(selfies)
    ensures var secs := CrystalSections(sg, lat, com, rod, selfies);
      && WellFormed(secs)
      && |secs| == |SectionTags| && forall k | 0 <= k < |secs| :: secs[k].tag == SectionTags[k]
  {
    var secs := CrystalSections(sg, lat, com, rod, selfies);
    CrystalSectionsAt(sg, lat, com, rod, selfies);
    forall k | 0 <= k < 14
      ensures secs[k].tag == SectionTags[k] && SectionOk(secs[k])
    {
      CrystalSectionOk(secs, sg, lat, com, rod, selfies, k);
    }
    SectionTagsDistinct();
  }

  /** Section `k` of sections laid out as a crystal's carries tag `k` of
      `SectionTags` and is well formed. */
  lemma CrystalSectionOk(secs: seq<Section>, sg: int, lat: seq<Decimal>, com: seq<Decimal>, rod: seq<Decimal>,
                         selfies: seq<string>, k: nat)
    requires |lat| == 6 && |com| == 3 && |rod| == 3 && PlainTokens(selfies) && k < 14
    requires |secs| == 14
    requires secs[0] == Section("SELF", selfies) && secs[1] == Section("SG", [SgToken(sg)])
    requires secs[2..8] == NumberSections(LatticeTags, lat, LatticePrecisions)
    requires secs[8..11] == NumberSections(CenterTags, com, CenterPrecisions)
    requires secs[11..] == NumberSections(RotationTags, rod, RotationPrecisions)
    ensures secs[k].tag == SectionTags[k] && SectionOk(secs[k])
  {
    SectionTagsBlocks();
    if k < 2 {
      HeadSectionsOk(sg, selfies);
      assert SectionTags[k] == SectionTags[..2][k];
    } else {
      BlockTagNames();
      if k < 8 {
        BlockSectionOk(secs, SectionTags, 2, LatticeTags, lat, LatticePrecisions, k);
      } else if k < 11 {
        BlockSectionOk(secs, SectionTags, 8, CenterTags, com, CenterPrecisions, k);
      } else {
        BlockSectionOk(secs, SectionTags, 11, RotationTags, rod, RotationPrecisions, k);
      }
    }
  }

  /** A section inside a numeric block, laid out at offset `off`, carries the
      tag the block gives it and is well formed. */
  lemma BlockSectionOk(secs: seq<Section>, all: seq<string>, off: nat, tags: seq<string>, vs: seq<Decimal>,
                       ps: seq<nat>, k: nat)
    requires |tags| == |vs| == |ps| && |secs| == |all| && off + |tags| <= |secs|
    requires secs[off..off + |tags|] == NumberSections(tags, vs, ps)
    requires all[off..off + |tags|] == tags
    requires forall i | 0 <= i < |tags| :: IsName(tags[i])
    requires off <= k < off + |tags|
    ensures secs[k].tag == all[k] && SectionOk(secs[k])
  {
    var j := k - off;
    var sec := NumberSections(tags, vs, ps)[j];
    assert secs[k] == sec by {
      assert secs[k] == secs[off..off + |tags|][j];
    }
    assert all[k] == tags[j] by {
      assert all[k] == all[off..off + |tags|][j];
    }
    SplitNumericPlain(vs[j], ps[j]);
    assert IsName(tags[j]);
  }

  /** The SELF and SG sections are well formed when the SELFIES tokens are
      plain. */
  lemma HeadSectionsOk(sg: int, selfies: seq<string>)
    requires PlainTokens(selfies)
    ensures SectionOk(Section("SELF", selfies)) && SectionOk(Section("SG", [SgToken(sg)]))
  {
    SgTokenPlain(sg);
    SectionTagsDistinct();
    assert SectionTags[0] == "SELF" && SectionTags[1] == "SG";
  }

  // ---------------------------------------------------------------- reading them back

  /** What the text of a crystal's tokens holds under each tag: every section's
      body, and nothing under the property tags. */
  lemma CrystalExtract(sg: int, lat: seq<Decimal>, com: seq<Decimal>, rod: seq<Decimal>, selfies: seq<string>)
    requires |lat| == 6 && |com| == 3 && |rod| == 3 && PlainTokens(selfies)
    ensures var text := Join(Tokens(CrystalSections(sg, lat, com, rod, selfies)));
      && Extract(text, "SELF") == selfies
      && Extract(text, "SG") == [SgToken(sg)]
      && (forall k | 0 <= k < 6 :: Extract(text, LatticeTags[k]) == SplitNumeric(lat[k], LatticePrecisions[k]))
      && (forall k | 0 <= k < 3 :: Extract(text, CenterTags[k]) == SplitNumeric(com[k], CenterPrecisions[k]))
      && (forall k | 0 <= k < 3 :: Extract(text, RotationTags[k]) == SplitNumeric(rod[k], RotationPrecisions[k]))
      && (forall k | 0 <= k < |PropertyTags| :: Extract(text, PropertyTags[k]) == [])
  {
    CrystalExtractHead(sg, lat, com, rod, selfies);
    CrystalExtractLattice(sg, lat, com, rod, selfies);
    CrystalExtractCenter(sg, lat, com, rod, selfies);
    CrystalExtractRotation(sg, lat, com, rod, selfies);
    CrystalPropertiesAbsent(sg, lat, com, rod, selfies);
  }

  /** The text of a crystal's sections reads back every section's body. */
  lemma CrystalReadsBack(sg: int, lat: seq<Decimal>, com: seq<Decimal>, rod: seq<Decimal>, selfies: seq<string>)
    requires |lat| == 6 && |com| == 3 && |rod| == 3 && PlainTokens(selfies)
    ensures var secs := CrystalSections(sg, lat, com, rod, selfies);
      ReadsBack(Join(Tokens(secs)), secs)
  {
    CrystalWellFormed(sg, lat, com, rod, selfies);
    SectionsExtract(CrystalSections(sg, lat, com, rod, selfies));
  }

  lemma CrystalExtractHead(sg: int, lat: seq<Decimal>, com: seq<Decimal>, rod: seq<Decimal>, selfies: seq<string>)
    requires |lat| == 6 && |com| == 3 && |rod| == 3 && PlainTokens(selfies)
    ensures var text := Join(Tokens(CrystalSections(sg, lat, com, rod, selfies)));
      Extract(text, "SELF") == selfies && Extract(text, "SG") == [SgToken(sg)]
  {
    var secs := CrystalSections(sg, lat, com, rod, selfies);
    CrystalSectionsAt(sg, lat, com, rod, selfies);
    CrystalReadsBack(sg, lat, com, rod, selfies);
    assert Extract(Join(Tokens(secs)), secs[0].tag) == secs[0].body;
    assert Extract(Join(Tokens(secs)), secs[1].tag) == secs[1].body;
  }

  lemma CrystalExtractLattice(sg: int, lat: seq<Decimal>, com: seq<Decimal>, rod: seq<Decimal>, selfies: seq<string>)
    requires |lat| == 6 && |com| == 3 && |rod| == 3 && PlainTokens(selfies)
    ensures var text := Join(Tokens(CrystalSections(sg, lat, com, rod, selfies)));
      forall k | 0 <= k < 6 :: Extract(text, LatticeTags[k]) == SplitNumeric(lat[k], LatticePrecisions[k])
  {
    var secs := CrystalSections(sg, lat, com, rod, selfies);
    CrystalSectionsAt(sg, lat, com, rod, selfies);
    CrystalReadsBack(sg, lat, com, rod, selfies);
    ExtractBlock(Join(Tokens(secs)), secs, 2, LatticeTags, lat, LatticePrecisions);
  }

  lemma CrystalExtractCenter(sg: int, lat: seq<Decimal>, com: seq<Decimal>, rod: seq<Decimal>, selfies: seq<string>)
    requires |lat| == 6 && |com| == 3 && |rod| == 3 && PlainTokens(selfies)
    ensures var text := Join(Tokens(CrystalSections(sg, lat, com, rod, selfies)));
      forall k | 0 <= k < 3 :: Extract(text, CenterTags[k]) == SplitNumeric(com[k], CenterPrecisions[k])
  {
    var secs := CrystalSections(sg, lat, com, rod, selfies);
    CrystalSectionsAt(sg, lat, com, rod, selfies);
    CrystalReadsBack(sg, lat, com, rod, selfies);
    ExtractBlock(Join(Tokens(secs)), secs, 8, CenterTags, com, CenterPrecisions);
  }

  lemma CrystalExtractRotation(sg: int, lat: seq<Decimal>, com: seq<Decimal>, rod: seq<Decimal>, selfies: seq<string>)
    requires |lat| == 6 && |com| == 3 && |rod| == 3 && PlainTokens(selfies)
    ensures var text := Join(Tokens(CrystalSections(sg, lat, com, rod, selfies)));
      forall k | 0 <= k < 3 :: Extract(text, RotationTags[k]) == SplitNumeric(rod[k], RotationPrecisions[k])
  {
    var secs := CrystalSections(sg, lat, com, rod, selfies);
    CrystalSectionsAt(sg, lat, com, rod, selfies);
    CrystalReadsBack(sg, lat, com, rod, selfies);
    ExtractBlock(Join(Tokens(secs)), secs, 11, RotationTags, rod, RotationPrecisions);
  }

  /** The text of a crystal's sections holds nothing under the property tags. */
  lemma CrystalPropertiesAbsent(sg: int, lat: seq<Decimal>, com: seq<Decimal>, rod: seq<Decimal>, selfies: seq<string>)
    requires |lat| == 6 && |com| == 3 && |rod| == 3 && PlainTokens(selfies)
    ensures var text := Join(Tokens(CrystalSections(sg, lat, com, rod, selfies)));
      forall k | 0 <= k < |PropertyTags| :: Extract(text, PropertyTags[k]) == []
  {
    var secs := CrystalSections(sg, lat, com, rod, selfies);
    CrystalWellFormed(sg, lat, com, rod, selfies);
    PropertyTagsApart();
    forall k | 0 <= k < |PropertyTags|
      ensures Extract(Join(Tokens(secs)), PropertyTags[k]) == []
    {
      forall i | 0 <= i < |secs|
        ensures SectionOk(secs[i]) && secs[i].tag != PropertyTags[k]
      {
        assert secs[i].tag == SectionTags[i];
      }
      ExtractAbsent(secs, PropertyTags[k]);
    }
  }

  /** `text` holds each section's body under its tag. */
  predicate ReadsBack(text: string, secs: seq<Section>) {
    forall k | 0 <= k < |secs| :: Extract(text, secs[k].tag) == secs[k].body
  }

  /** Under the tag of each section of well-formed sections, their text holds
      the section's body. */
  lemma SectionsExtract(secs: seq<Section>)
    requires WellFormed(secs)
    ensures ReadsBack(Join(Tokens(secs)), secs)
  {
    forall k | 0 <= k < |secs|
      ensures Extract(Join(Tokens(secs)), secs[k].tag) == secs[k].body
    {
      ExtractSection(secs, k);
    }
  }

  /** Under each tag of a block of numeric sections the text holds that value's
      characters. */
  lemma ExtractBlock(text: string, secs: seq<Section>, off: nat, tags: seq<string>, vs: seq<Decimal>, ps: seq<nat>)
    requires |tags| == |vs| == |ps| && off + |tags| <= |secs|
    requires ReadsBack(text, secs)
    requires secs[off..off + |tags|] == NumberSections(tags, vs, ps)
    ensures forall k | 0 <= k < |tags| :: Extract(text, tags[k]) == SplitNumeric(vs[k], ps[k])
  {
    forall k | 0 <= k < |tags|
      ensures Extract(text, tags[k]) == SplitNumeric(vs[k], ps[k])
    {
      assert secs[off + k] == secs[off..off + |tags|][k];
    }
  }

  /** A number's characters are read back as the number rounded to its
      precision. */
  lemma ReadNumberText(text: string, tag: string, v: Decimal, p: nat)
    requires Extract(text, tag) == SplitNumeric(v, p)
    ensures ReadNumber(text, tag) == Success(Rounded(v, p))
  {
    ParseFormatFixed(v, p);
  }

  /** Numbers under their tags are read back rounded, in the order of the tags. */
  lemma ReadNumberBlock(text: string, tags: seq<string>, vs: seq<Decimal>, ps: seq<nat>)
    requires |tags| == |vs| == |ps|
    requires forall k | 0 <= k < |tags| :: Extract(text, tags[k]) == SplitNumeric(vs[k], ps[k])
    ensures ReadNumbers(text, tags) == Success(RoundedAll(vs, ps))
  {
    forall k | 0 <= k < |tags|
      ensures NumberReader(text)(tags[k]) == Success(RoundedAll(vs, ps)[k])
    {
      ReadNumberText(text, tags[k], vs[k], ps[k]);
    }
    CollectAll(tags, NumberReader(text), RoundedAll(vs, ps));
  }

  /** The space-group token is read back as the space group. */
  lemma ReadSpaceGroupText(text: string, sg: int)
    requires Extract(text, "SG") == [SgToken(sg)]
    ensures ReadSpaceGroup(text) == Success(sg)
  {
    var s := IntToString(sg);
    forall i | 0 <= i < |s|
      ensures s[i] != '_'
    {
      assert IsDigit(s[i]) || s[i] == '-';
    }
    ReplaceAllSuffix(s, "_sg");
    ParseIntOfString(sg);
  }

  /** With nothing under the property tags, the given properties stay as they
      are. */
  lemma ReadPropertiesAbsent(text: string, props: Dict<string, Json>)
    requires forall k | 0 <= k < |PropertyTags| :: Extract(text, PropertyTags[k]) == []
    ensures ReadProperties(text, props, PropertyTags) == props
  {
    var first := PropertyTags[..1];
    assert first[..0] == [];
    assert Extract(text, first[0]) == [];
    assert ReadProperties(text, props, first) == props;
    assert PropertyTags[..|PropertyTags| - 1] == first;
    assert Extract(text, PropertyTags[1]) == [];
  }

  /** `from_tokens(c.get_crystal_tokens())` gives back the crystal's space group,
      SELFIES and given properties, and its lattice parameters, centre and
      rotation rounded to the places they were written at (2 for lengths, 1 for
      angles, 3 for the centre, 2 for the rotation); the lattice comes back under
      the lower-case tag names. */
  lemma TokensRoundTrip(sg: int, lattice: Dict<string, Decimal>, com: seq<Decimal>, rod: seq<Decimal>,
                        selfies: seq<string>, props: Option<Dict<string, Json>>)
    requires PlainTokens(selfies)
    requires CrystalTokens(sg, lattice, com, rod, selfies).Success?
    ensures LatticeValues(lattice, LatticeKeys).Success? && |com| >= 3 && |rod| >= 3
    ensures ParseTokens(CrystalTokens(sg, lattice, com, rod, selfies).value, props)
         == Success(Parsed(sg,
                           FromItems(LatticeItems(LatticeTags,
                                                  RoundedAll(LatticeValues(lattice, LatticeKeys).value, LatticePrecisions))),
                           RoundedAll(com[..3], CenterPrecisions), RoundedAll(rod[..3], RotationPrecisions),
                           selfies, PropertiesOrEmpty(props)))
  {
    var lat := LatticeValues(lattice, LatticeKeys).value;
    var c, r := com[..3], rod[..3];
    var text := Join(Tokens(CrystalSections(sg, lat, c, r, selfies)));
    CrystalExtract(sg, lat, c, r, selfies);
    ReadSpaceGroupText(text, sg);
    ReadNumberBlock(text, LatticeTags, lat, LatticePrecisions);
    ReadNumberBlock(text, CenterTags, c, CenterPrecisions);
    ReadNumberBlock(text, RotationTags, r, RotationPrecisions);
    ReadPropertiesAbsent(text, PropertiesOrEmpty(props));
  }

  // ---------------------------------------------------------------- lattice read back by key

  /** `tag.lower()` of each lattice tag is its lattice key, and the keys are
      distinct. */
  lemma LatticeKeysLower()
    ensures |LatticeKeys| == |LatticeTags| == 6
    ensures forall i | 0 <= i < 6 :: Lower(LatticeTags[i]) == LatticeKeys[i]
    ensures forall i, j | 0 <= i < j < 6 :: LatticeKeys[i] != LatticeKeys[j]
  {
    assert Lower("A") == "a" && Lower("B") == "b" && Lower("C") == "c";
    assert Lower("ALPHA") == "alpha";
    assert Lower("BETA") == "beta";
    assert Lower("GAMMA") == "gamma";
  }

  /** The lattice dictionary `from_tokens` builds holds value `i` under key `i`. */
  lemma LatticeItemsGet(vs: seq<Decimal>)
    requires |vs| == 6
    ensures forall i | 0 <= i < 6 :: Get(FromItems(LatticeItems(LatticeTags, vs)), LatticeKeys[i]) == Some(vs[i])
  {
    var items := LatticeItems(LatticeTags, vs);
    LatticeKeysLower();
    forall i | 0 <= i < 6
      ensures Get(FromItems(items), LatticeKeys[i]) == Some(vs[i])
    {
      assert items[i] == (LatticeKeys[i], vs[i]);
      GetFromItemsLast(items, i);
    }
  }

  /** A crystal `from_tokens` returns has all six lattice parameters. */
  lemma ParsedLatticeKeys(tokens: seq<string>, properties: Option<Dict<string, Json>>)
    requires ParseTokens(tokens, properties).Success?
    ensures forall i | 0 <= i < |LatticeKeys| :: HasKey(ParseTokens(tokens, properties).value.lattice, LatticeKeys[i])
  {
    var text := Join(tokens);
    ParsedLattice(tokens, properties);
    LatticeItemsGet(ReadNumbers(text, LatticeTags).value);
  }

  /** The lattice of a crystal `from_tokens` returns is built from the six
      numbers read under the lattice tags. */
  lemma ParsedLattice(tokens: seq<string>, properties: Option<Dict<string, Json>>)
    requires ParseTokens(tokens, properties).Success?
    ensures ReadNumbers(Join(tokens), LatticeTags).Success?
    ensures |ReadNumbers(Join(tokens), LatticeTags).value| == 6
    ensures ParseTokens(tokens, properties).value.lattice
            == FromItems(LatticeItems(LatticeTags, ReadNumbers(Join(tokens), LatticeTags).value))
  {
    var text := Join(tokens);
    AssembledLattice(ReadSpaceGroup(text), ReadNumbers(text, LatticeTags), ReadNumbers(text, CenterTags),
                     ReadNumbers(text, RotationTags), text, properties);
  }

  lemma AssembledLattice(sg: Result<int, Error>, lat: Result<seq<Decimal>, Error>, com: Result<seq<Decimal>, Error>,
                         rod: Result<seq<Decimal>, Error>, text: string, properties: Option<Dict<string, Json>>)
    requires lat.Success? ==> |lat.value| == |LatticeTags|
    requires Assemble(sg, lat, com, rod, text, properties).Success?
    ensures lat.Success?
    ensures Assemble(sg, lat, com, rod, text, properties).value.lattice == FromItems(LatticeItems(LatticeTags, lat.value))
  {
  }

  /** Round trip by key: after `get_crystal_tokens` and `from_tokens`, each lattice
      parameter reads as the original rounded to its precision. */
  lemma LatticeRoundTrip(sg: int, lattice: Dict<string, Decimal>, com: seq<Decimal>, rod: seq<Decimal>,
                         selfies: seq<string>, props: Option<Dict<string, Json>>)
    requires PlainTokens(selfies)
    requires CrystalTokens(sg, lattice, com, rod, selfies).Success?
    ensures ParseTokens(CrystalTokens(sg, lattice, com, rod, selfies).value, props).Success?
    ensures forall i | 0 <= i < 6 ::
              && Get(lattice, LatticeKeys[i]).Some?
              && Get(ParseTokens(CrystalTokens(sg, lattice, com, rod, selfies).value, props).value.lattice, LatticeKeys[i])
                 == Some(Rounded(Get(lattice, LatticeKeys[i]).value, LatticePrecisions[i]))
  {
    TokensRoundTrip(sg, lattice, com, rod, selfies, props);
    var lat := LatticeValues(lattice, LatticeKeys).value;
    LatticeValuesGet(lattice);
    RoundedLatticeGet(lat);
  }

  /** Each lattice parameter read for `get_crystal_tokens` is the dictionary's
      value under its key. */
  lemma LatticeValuesGet(lattice: Dict<string, Decimal>)
    requires LatticeValues(lattice, LatticeKeys).Success?
    ensures forall i | 0 <= i < 6 :: Get(lattice, LatticeKeys[i]) == Some(LatticeValues(lattice, LatticeKeys).value[i])
  {
    var lat := LatticeValues(lattice, LatticeKeys).value;
    forall i | 0 <= i < 6
      ensures Get(lattice, LatticeKeys[i]) == Some(lat[i])
    {
      assert KeyLookup(lattice)(LatticeKeys[i]) == Success(lat[i]);
    }
  }

  /** The lattice dictionary built from the rounded parameters holds each of
      them under its key. */
  lemma RoundedLatticeGet(lat: seq<Decimal>)
    requires |lat| == 6
    ensures forall i | 0 <= i < 6 ::
      Get(FromItems(LatticeItems(LatticeTags, RoundedAll(lat, LatticePrecisions))), LatticeKeys[i])
      == Some(Rounded(lat[i], LatticePrecisions[i]))
  {
    LatticeItemsGet(RoundedAll(lat, LatticePrecisions));
  }
}
