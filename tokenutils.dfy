/** `token_utils.py`: `parse_one_item`, which turns one entry of an uploaded
    dataset into the metadata the backend stores for it, or a warning. The
    entry is a JSON object; the crystal is read from its `tokens` field by
    `from_tokens`; the density callback is an oracle whose answer for this entry
    is a parameter (`None` when it raises). */
module TokenUtils {
  import opened Wrappers
  import opened Decimals
  import opened PyDict
  import opened PyJson
  import opened OrgCrystal
  import Seqs

  /** The exceptions `parse_one_item` lets through. */
  datatype ItemError =
    | NotJoinable                   // `' '.join(tokens)` on a value that is not a list of strings
    | CrystalError(e: Error)        // raised by `from_tokens`
    | NotANumber(field: string)     // `float(energy)`, `float(density)`

  /** `(meta, warn)` */
  datatype Item = Item(meta: JsonDict, warning: Option<string>)

  function MissingTokens(name: string): string {
    name + ": missing 'tokens'"
  }

  function MissingEnergy(name: string, energyKey: string): string {
    name + ": missing energy_key '" + energyKey + "'"
  }

  /** The fields every stored entry starts with, in the order they are written. */
  const FixedFields: seq<string> := ["name", "energy", "density", "sg", "a", "b", "c", "alpha", "beta", "gamma", "com", "rod"]

  /** The density before conversion: the entry's own value when `density_key` is
      given, not empty and present; otherwise what the callback computed, `None`
      (JSON `null`) when it raised. */
  function DensitySource(obj: JsonDict, densityKey: Option<string>, computed: Option<Decimal>): Json {
    if densityKey.Some? && densityKey.value != [] && HasKey(obj, densityKey.value) then Get(obj, densityKey.value).value
    else if computed.Some? then Num(computed.value)
    else Null
  }

  /** `None if density is None else float(density)` */
  function DensityField(d: Json): Result<Json, ItemError> {
    if d.Null? then Success(Null)
    else match ToFloat(d) {
      case None => Failure(NotANumber("density"))
      case Some(v) => Success(Num(v))
    }
  }

  /** `float(lp[key])` */
  function LatticeField(p: Parsed, key: string): Json
    requires HasKey(p.lattice, key)
  {
    Num(Get(p.lattice, key).value)
  }

  /** The dictionary literal `meta = {...}`. */
  function BaseMeta(name: string, energy: Decimal, density: Json, p: Parsed): (meta: JsonDict)
    requires forall i | 0 <= i < |LatticeKeys| :: HasKey(p.lattice, LatticeKeys[i])
  {
    assert HasKey(p.lattice, LatticeKeys[0]) && HasKey(p.lattice, LatticeKeys[1]) && HasKey(p.lattice, LatticeKeys[2]);
    assert HasKey(p.lattice, LatticeKeys[3]) && HasKey(p.lattice, LatticeKeys[4]) && HasKey(p.lattice, LatticeKeys[5]);
    [("name", Str(name)), ("energy", Num(energy)), ("density", density), ("sg", Num(Decimal(p.sg, 0))),
     ("a", LatticeField(p, "a")), ("b", LatticeField(p, "b")), ("c", LatticeField(p, "c")),
     ("alpha", LatticeField(p, "alpha")), ("beta", LatticeField(p, "beta")), ("gamma", LatticeField(p, "gamma")),
     ("com", NumArr(p.com)), ("rod", NumArr(p.rod))]
  }

  /** The closing loop: each field of the entry other than `tokens` is added in
      turn unless `meta` already holds its key. */
  function MergeExtras(meta: JsonDict, items: JsonDict): JsonDict {
    if items == [] then meta
    else
      var m := MergeExtras(meta, items[..|items| - 1]);
      var (k, v) := items[|items| - 1];
      if k != "tokens" && !HasKey(m, k) then Set(m, k, v) else m
  }

  /** `parse_one_item(name, obj, energy_key, density_key, ...)` with the
      callback's answer `computed`: the warning cases, the exceptions in the
      order they are raised, or the metadata and no warning. */
  function ParseItem(name: string, obj: JsonDict, energyKey: string, densityKey: Option<string>,
                     computed: Option<Decimal>): Result<Item, ItemError>
  {
    var tokens := Get(obj, "tokens");
    if tokens.None? || !Truthy(tokens.value) then Success(Item([], Some(MissingTokens(name))))
    else if !HasKey(obj, energyKey) then Success(Item([], Some(MissingEnergy(name, energyKey))))
    else match TokenList(tokens.value) {
      case None => Failure(NotJoinable)
      case Some(ts) =>
        match ParseTokens(ts, Some(Without(obj, "tokens"))) {
          case Failure(e) => Failure(CrystalError(e))
          case Success(p) =>
            match ToFloat(Get(obj, energyKey).value) {
              case None => Failure(NotANumber("energy"))
              case Some(energy) =>
                match DensityField(DensitySource(obj, densityKey, computed)) {
                  case Failure(e) => Failure(e)
                  case Success(density) =>
                    ParsedLatticeKeys(ts, Some(Without(obj, "tokens")));
                    Success(Item(MergeExtras(BaseMeta(name, energy, density, p), obj), None))
                }
            }
        }
    }
  }

  /** `parse_one_item`: the checks and the crystal read as above, then the loop
      that copies the remaining fields into `meta`. */
  method ParseOneItem(name: string, obj: JsonDict, energyKey: string, densityKey: Option<string>,
                      computed: Option<Decimal>) returns (r: Result<Item, ItemError>)
    ensures r == ParseItem(name, obj, energyKey, densityKey, computed)
  {
    var tokens := Get(obj, "tokens");
    if tokens.None? || !Truthy(tokens.value) {
      return Success(Item([], Some(MissingTokens(name))));
    }
    if !HasKey(obj, energyKey) {
      return Success(Item([], Some(MissingEnergy(name, energyKey))));
    }
    var energy := Get(obj, energyKey).value;
    var ts := TokenList(tokens.value);
    if ts.None? {
      return Failure(NotJoinable);
    }
    var extra := Without(obj, "tokens");
    var mc := ParseTokens(ts.value, Some(extra));
    if mc.Failure? {
      return Failure(CrystalError(mc.error));
    }
    var density := DensitySource(obj, densityKey, computed);
    var e := ToFloat(energy);
    if e.None? {
      return Failure(NotANumber("energy"));
    }
    var d := DensityField(density);
    if d.Failure? {
      return Failure(d.error);
    }
    ParsedLatticeKeys(ts.value, Some(extra));
    var meta := MergeExtraFields(BaseMeta(name, e.value, d.value, mc.value), obj);
    return Success(Item(meta, None));
  }

  /** `for k, v in obj.items(): if k != "tokens" and k not in meta: meta[k] = v` */
  method MergeExtraFields(base: JsonDict, obj: JsonDict) returns (meta: JsonDict)
    ensures meta == MergeExtras(base, obj)
  {
    meta := base;
    for i := 0 to |obj|
      invariant meta == MergeExtras(base, obj[..i])
    {
      assert obj[..i + 1][..i] == obj[..i];
      var (k, v) := obj[i];
      if k != "tokens" && !HasKey(meta, k) {
        meta := Set(meta, k, v);
      }
    }
    assert obj[..|obj|] == obj;
  }

  // ---------------------------------------------------------------- properties

  /** The merge keeps `meta` as it is at the front, reads every key of `meta` as
      before, adds the other fields of the entry except `tokens` with their
      values, and adds nothing else. */
  lemma {:induction false} MergeExtrasGet(meta: JsonDict, items: JsonDict, k: string)
    ensures MergeKept(meta, MergeExtras(meta, items))
    ensures Get(MergeExtras(meta, items), k)
            == if HasKey(meta, k) || k == "tokens" then Get(meta, k) else Get(items, k)
  {
    if items != [] {
      var init := items[..|items| - 1];
      var (k', v) := items[|items| - 1];
      MergeExtrasGet(meta, init, k);
      Seqs.InitLast(items);
      MergeExtrasSnoc(meta, init, k', v, k);
    }
  }

  /** `meta` is kept as it is at the front of the merge `m`. */
  predicate MergeKept(meta: JsonDict, m: JsonDict) {
    |m| >= |meta| && m[..|meta|] == meta
  }

  /** One more field of the entry: added after the others unless it is
      `tokens` or already there. */
  lemma MergeExtrasSnoc(meta: JsonDict, init: JsonDict, k': string, v: Json, k: string)
    requires MergeKept(meta, MergeExtras(meta, init))
    requires Get(MergeExtras(meta, init), k)
             == if HasKey(meta, k) || k == "tokens" then Get(meta, k) else Get(init, k)
    ensures MergeKept(meta, MergeExtras(meta, init + [(k', v)]))
    ensures Get(MergeExtras(meta, init + [(k', v)]), k)
            == if HasKey(meta, k) || k == "tokens" then Get(meta, k) else Get(init + [(k', v)], k)
  {
    var m := MergeExtras(meta, init);
    Seqs.SnocParts(init, (k', v));
    GetSnoc(init, k', v, k);
    if k' != "tokens" && !HasKey(m, k') {
      MergeExtrasAdded(meta, m, k', v, k);
    }
  }

  /** Adding a field the merge does not hold yet. */
  lemma MergeExtrasAdded(meta: JsonDict, m: JsonDict, k': string, v: Json, k: string)
    requires MergeKept(meta, m) && !HasKey(m, k')
    ensures MergeKept(meta, Set(m, k', v))
    ensures Get(Set(m, k', v), k) == if HasKey(m, k) then Get(m, k) else if k' == k then Some(v) else None
  {
    SetAbsent(m, k', v);
    GetSnoc(m, k', v, k);
    assert (m + [(k', v)])[..|meta|] == m[..|meta|];
  }

  /** A missing or empty `tokens` field gives the tokens warning and no metadata,
      whatever else the entry holds. */
  lemma MissingTokensWarns(name: string, obj: JsonDict, energyKey: string, densityKey: Option<string>,
                           computed: Option<Decimal>)
    requires !HasKey(obj, "tokens") || !Truthy(Get(obj, "tokens").value)
    ensures ParseItem(name, obj, energyKey, densityKey, computed) == Success(Item([], Some(MissingTokens(name))))
  {
  }

  /** With tokens present, a missing energy field gives the energy warning and
      no metadata. */
  lemma MissingEnergyWarns(name: string, obj: JsonDict, energyKey: string, densityKey: Option<string>,
                           computed: Option<Decimal>)
    requires HasKey(obj, "tokens") && Truthy(Get(obj, "tokens").value) && !HasKey(obj, energyKey)
    ensures ParseItem(name, obj, energyKey, densityKey, computed) == Success(Item([], Some(MissingEnergy(name, energyKey))))
  {
  }

  /** The metadata stored for an entry `obj` named `name`: the twelve fixed
      fields, the name and density given, every other field of the entry, and
      never `tokens`. */
  ghost predicate StoredMeta(meta: JsonDict, name: string, density: Json, obj: JsonDict) {
    && (forall i | 0 <= i < |FixedFields| :: HasKey(meta, FixedFields[i]))
    && !HasKey(meta, "tokens")
    && Get(meta, "name") == Some(Str(name))
    && Get(meta, "density") == Some(density)
    && (forall k | k != "tokens" && HasKey(obj, k) && k !in FixedFields :: Get(meta, k) == Get(obj, k))
  }

  /** A warning comes with empty metadata; metadata comes without a warning and
      is `StoredMeta`, with the density chosen as `DensitySource` says. */
  lemma ItemFields(name: string, obj: JsonDict, energyKey: string, densityKey: Option<string>,
                   computed: Option<Decimal>)
    requires ParseItem(name, obj, energyKey, densityKey, computed).Success?
    ensures var it := ParseItem(name, obj, energyKey, densityKey, computed).value;
      && (it.warning.Some? ==> it.meta == [])
      && (it.warning.None? ==>
            && DensityField(DensitySource(obj, densityKey, computed)).Success?
            && StoredMeta(it.meta, name, DensityField(DensitySource(obj, densityKey, computed)).value, obj))
  {
    var it := ParseItem(name, obj, energyKey, densityKey, computed).value;
    if it.warning.None? {
      ParsedItem(name, obj, energyKey, densityKey, computed);
      var ts := TokenList(Get(obj, "tokens").value).value;
      var p := ParseTokens(ts, Some(Without(obj, "tokens"))).value;
      var energy := ToFloat(Get(obj, energyKey).value).value;
      var density := DensityField(DensitySource(obj, densityKey, computed)).value;
      MergedBaseMeta(name, energy, density, p, obj);
    }
  }

  /** The dictionary literal merged with the entry is `StoredMeta`. */
  lemma MergedBaseMeta(name: string, energy: Decimal, density: Json, p: Parsed, obj: JsonDict)
    requires forall i | 0 <= i < |LatticeKeys| :: HasKey(p.lattice, LatticeKeys[i])
    ensures StoredMeta(MergeExtras(BaseMeta(name, energy, density, p), obj), name, density, obj)
  {
    var base := BaseMeta(name, energy, density, p);
    BaseMetaKeys(name, energy, density, p);
    MergedMeta(base, obj);
    assert "name" in FixedFields && "density" in FixedFields;
  }

  /** What an entry read without a warning went through: every step succeeded
      and the metadata is the dictionary literal merged with the entry. */
  lemma ParsedItem(name: string, obj: JsonDict, energyKey: string, densityKey: Option<string>,
                   computed: Option<Decimal>)
    requires ParseItem(name, obj, energyKey, densityKey, computed).Success?
    requires ParseItem(name, obj, energyKey, densityKey, computed).value.warning.None?
    ensures HasKey(obj, "tokens") && HasKey(obj, energyKey)
    ensures TokenList(Get(obj, "tokens").value).Some?
    ensures var ts := TokenList(Get(obj, "tokens").value).value;
      && ParseTokens(ts, Some(Without(obj, "tokens"))).Success?
      && ToFloat(Get(obj, energyKey).value).Some?
      && DensityField(DensitySource(obj, densityKey, computed)).Success?
      && var p := ParseTokens(ts, Some(Without(obj, "tokens"))).value;
      && (forall i | 0 <= i < |LatticeKeys| :: HasKey(p.lattice, LatticeKeys[i]))
      && ParseItem(name, obj, energyKey, densityKey, computed).value.meta
         == MergeExtras(BaseMeta(name, ToFloat(Get(obj, energyKey).value).value,
                                 DensityField(DensitySource(obj, densityKey, computed)).value, p), obj)
  {
    ParsedLatticeKeys(TokenList(Get(obj, "tokens").value).value, Some(Without(obj, "tokens")));
  }

  /** Merging the entry into metadata holding exactly the fixed fields keeps
      those fields, never adds `tokens`, and adds every other field of the
      entry. */
  lemma MergedMeta(base: JsonDict, obj: JsonDict)
    requires forall k :: HasKey(base, k) <==> k in FixedFields
    ensures var m := MergeExtras(base, obj);
      && (forall k | k in FixedFields :: HasKey(m, k) && Get(m, k) == Get(base, k))
      && !HasKey(m, "tokens")
      && (forall k | k != "tokens" && HasKey(obj, k) && k !in FixedFields :: Get(m, k) == Get(obj, k))
  {
    var m := MergeExtras(base, obj);
    assert "tokens" !in FixedFields;
    forall k
      ensures Get(m, k) == if HasKey(base, k) || k == "tokens" then Get(base, k) else Get(obj, k)
    {
      MergeExtrasGet(base, obj, k);
    }
  }

  /** The dictionary literal holds exactly the twelve fixed fields, with the
      name and density given. */
  lemma BaseMetaKeys(name: string, energy: Decimal, density: Json, p: Parsed)
    requires forall i | 0 <= i < |LatticeKeys| :: HasKey(p.lattice, LatticeKeys[i])
    ensures forall k :: HasKey(BaseMeta(name, energy, density, p), k) <==> k in FixedFields
    ensures Get(BaseMeta(name, energy, density, p), "name") == Some(Str(name))
    ensures Get(BaseMeta(name, energy, density, p), "density") == Some(density)
    ensures Get(BaseMeta(name, energy, density, p), "com") == Some(NumArr(p.com))
    ensures Get(BaseMeta(name, energy, density, p), "rod") == Some(NumArr(p.rod))
  {
    var base := BaseMeta(name, energy, density, p);
    assert Keys(base) == FixedFields;
    FixedFieldsDistinct();
    assert UniqueKeys(base) by {
      forall i, j | 0 <= i < j < |base|
        ensures base[i].0 != base[j].0
      {
        assert Keys(base)[i] == FixedFields[i] && Keys(base)[j] == FixedFields[j];
      }
    }
    forall k
      ensures HasKey(base, k) <==> k in FixedFields
    {
      KeysHasKey(base, k);
    }
    GetAt(base, 0);
    GetAt(base, 2);
    GetAt(base, 10);
    GetAt(base, 11);
  }

  lemma FixedFieldsDistinct()
    ensures |FixedFields| == 12
    ensures forall i, j | 0 <= i < j < 12 :: FixedFields[i] != FixedFields[j]
  {
  }
}
