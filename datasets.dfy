/** `main.py`: the dataset endpoints of the backend. Storage is a `Store`
    object holding the JSON documents and the raw uploads by path; the clock,
    the dataset id generator, the JSON decoder and the density computation are
    parameters. */
module Datasets {
  import opened Wrappers
  import opened Decimals
  import opened PyStr
  import opened PyDict
  import opened PyJson
  import opened XyzUtils
  import opened TokenUtils
  import Seqs

  /** What the endpoints raise: the two HTTP errors they raise themselves and
      the exceptions they let through. */
  datatype ApiError =
    | BadRequest                       // HTTPException(400): the payload is not a dict
    | NotFound(detail: string)         // HTTPException(404, detail)
    | XyzRaised(cause: XyzError)        // `parse_xyz` on the molecule
    | JsonRaised                       // `json.loads` on the structures file
    | NotADict(name: string)           // `obj.get` on an entry that is not a dict
    | EntryRaised(name: string, e: ItemError)  // `parse_one_item`
    | KeyMissing(key: string)          // `m[key]` on a manifest entry without it
    | ValueRaised(field: string)       // `float(...)` of a landscape coordinate
    | ManifestMalformed                // a stored manifest that is not a list of dicts

  /** Where a dataset's files live: `datasets/{dsid}/{file}`. */
  function DatasetPath(dsid: string, file: string): string {
    "datasets/" + dsid + "/" + file
  }

  /** The storage back end: JSON documents (`save_json`/`load_json`) and raw
      uploads (`save_bytes`), by path. */
  class Store {
    var files: map<string, Json>
    var blobs: map<string, string>

    constructor (files: map<string, Json>, blobs: map<string, string>)
      ensures this.files == files && this.blobs == blobs
    {
      this.files := files;
      this.blobs := blobs;
    }

    /** `exists(path)` */
    predicate Exists(path: string)
      reads this
    {
      path in files
    }

    /** `save_json(path, v)` */
    method SaveJson(path: string, v: Json)
      modifies this
      ensures files == old(files)[path := v] && blobs == old(blobs)
    {
      files := files[path := v];
    }

    /** `save_bytes(path, data)` */
    method SaveBytes(path: string, data: string)
      modifies this
      ensures blobs == old(blobs)[path := data] && files == old(files)
    {
      blobs := blobs[path := data];
    }
  }

  // ---------------------------------------------------------------- formula

  /** The keys of `Counter(types)`: each element once, in order of first
      occurrence. */
  function Elements(types: seq<string>): (r: seq<string>)
    ensures forall i, j | 0 <= i < j < |r| :: r[i] != r[j]
    ensures forall x :: x in r <==> x in types
  {
    if types == [] then []
    else
      var init := types[..|types| - 1];
      var x := types[|types| - 1];
      assert types == init + [x];
      var els := Elements(init);
      if x in els then els else els + [x]
  }

  /** `cnt if cnt > 1 else ''` inside the f-string. */
  function CountText(n: nat): string {
    if n > 1 then IntToString(n) else ""
  }

  /** `"".join(f"{el}{cnt if cnt>1 else ''}" for el, cnt in Counter(types).items())` */
  function Formula(types: seq<string>): string {
    var els := Elements(types);
    Concat(seq(|els|, i requires 0 <= i < |els| => els[i] + CountText(multiset(types)[els[i]])))
  }

  /** The position of the first `x` in `s`. */
  function FirstIndex<T(==)>(s: seq<T>, x: T): (k: nat)
    requires x in s
    ensures k < |s| && s[k] == x && x !in s[..k]
  {
    if s[0] == x then 0
    else
      var k := 1 + FirstIndex(s[1..], x);
      assert s[..k] == [s[0]] + s[1..][..k - 1];
      k
  }

  /** The first position is the one holding `x` with no `x` before it. */
  lemma {:induction false} FirstIndexAt<T>(s: seq<T>, x: T, k: nat)
    requires k < |s| && s[k] == x && x !in s[..k]
    ensures FirstIndex(s, x) == k
  {
    if k > 0 {
      assert s[..k][0] == s[0];
      assert s[1..][..k - 1] == s[..k][1..];
      FirstIndexAt(s[1..], x, k - 1);
    }
  }

  lemma FirstIndexSnoc<T>(s: seq<T>, x: T, y: T)
    requires y in s
    ensures FirstIndex(s + [x], y) == FirstIndex(s, y)
  {
    var k := FirstIndex(s, y);
    assert (s + [x])[..k] == s[..k];
    FirstIndexAt(s + [x], y, k);
  }

  /** The formula lists the elements in the order they first occur. */
  lemma {:induction false} ElementsInOrder(types: seq<string>)
    ensures forall i, j | 0 <= i < j < |Elements(types)| ::
      FirstIndex(types, Elements(types)[i]) < FirstIndex(types, Elements(types)[j])
  {
    if types != [] {
      var init := types[..|types| - 1];
      var x := types[|types| - 1];
      assert types == init + [x];
      ElementsInOrder(init);
      var els := Elements(init);
      forall y | y in init
        ensures FirstIndex(types, y) == FirstIndex(init, y)
      {
        FirstIndexSnoc(init, x, y);
      }
      if x !in els {
        assert FirstIndex(types, x) == |init| by {
          assert types[..|init|] == init;
        }
        forall i | 0 <= i < |els|
          ensures FirstIndex(types, els[i]) < |init|
        {
          assert els[i] in init;
        }
        var r := els + [x];
        forall i, j | 0 <= i < j < |r|
          ensures FirstIndex(types, r[i]) < FirstIndex(types, r[j])
        {
          assert r[i] == els[i];
          if j < |els| {
            assert r[j] == els[j];
          } else {
            assert r[j] == x;
          }
        }
      } else {
        forall i, j | 0 <= i < j < |els|
          ensures FirstIndex(types, els[i]) < FirstIndex(types, els[j])
        {
          assert els[i] in init && els[j] in init;
        }
      }
    }
  }

  // ---------------------------------------------------------------- upload

  /** The two lists the upload loop builds. */
  datatype Upload = Upload(manifest: seq<JsonDict>, warnings: seq<string>)

  /** `parse_one_item` on one payload entry, the density callback answering
      `oracle(obj)` for it (`None` when it raises). */
  function Admit(name: string, v: Json, energyKey: string, densityKey: Option<string>,
                 oracle: JsonDict -> Option<Decimal>): Result<Item, ApiError>
  {
    if !v.Obj? then Failure(NotADict(name))
    else match ParseItem(name, v.fields, energyKey, densityKey, oracle(v.fields)) {
      case Failure(e) => Failure(EntryRaised(name, e))
      case Success(it) => Success(it)
    }
  }

  /** The loop over `payload.items()`: a warning is collected, otherwise the
      metadata gets the formula and joins the manifest; the first exception
      ends the upload. */
  function Ingest(entries: JsonDict, energyKey: string, densityKey: Option<string>,
                  oracle: JsonDict -> Option<Decimal>, formula: string): Result<Upload, ApiError>
  {
    if entries == [] then Success(Upload([], []))
    else match Ingest(entries[..|entries| - 1], energyKey, densityKey, oracle, formula) {
      case Failure(e) => Failure(e)
      case Success(u) =>
        var (name, v) := entries[|entries| - 1];
        match Admit(name, v, energyKey, densityKey, oracle) {
          case Failure(e) => Failure(e)
          case Success(it) =>
            if it.warning.Some? then Success(Upload(u.manifest, u.warnings + [it.warning.value]))
            else Success(Upload(u.manifest + [Set(it.meta, "formula", Str(formula))], u.warnings))
        }
    }
  }

  /** The loop of `upload_dataset`, appending to `manifest` and `warns`. */
  method IngestEntries(entries: JsonDict, energyKey: string, densityKey: Option<string>,
                       oracle: JsonDict -> Option<Decimal>, formula: string)
    returns (r: Result<Upload, ApiError>)
    ensures r == Ingest(entries, energyKey, densityKey, oracle, formula)
  {
    var manifest: seq<JsonDict> := [];
    var warns: seq<string> := [];
    for i := 0 to |entries|
      invariant Ingest(entries[..i], energyKey, densityKey, oracle, formula) == Success(Upload(manifest, warns))
    {
      assert entries[..i + 1][..i] == entries[..i];
      var (name, obj) := entries[i];
      var item := Admit(name, obj, energyKey, densityKey, oracle);
      if item.Failure? {
        IngestFailed(entries, i + 1, energyKey, densityKey, oracle, formula);
        return Failure(item.error);
      }
      var warn := item.value.warning;
      if warn.Some? {
        warns := warns + [warn.value];
      } else {
        var meta := Set(item.value.meta, "formula", Str(formula));
        manifest := manifest + [meta];
      }
    }
    assert entries[..|entries|] == entries;
    return Success(Upload(manifest, warns));
  }

  /** Once an entry raises, the upload raises the same. */
  lemma {:induction false} IngestFailed(entries: JsonDict, i: nat, energyKey: string, densityKey: Option<string>,
                                        oracle: JsonDict -> Option<Decimal>, formula: string)
    requires i <= |entries| && Ingest(entries[..i], energyKey, densityKey, oracle, formula).Failure?
    ensures Ingest(entries, energyKey, densityKey, oracle, formula) == Ingest(entries[..i], energyKey, densityKey, oracle, formula)
    decreases |entries| - i
  {
    if i < |entries| {
      assert entries[..i + 1][..i] == entries[..i];
      IngestFailed(entries, i + 1, energyKey, densityKey, oracle, formula);
    } else {
      assert entries[..i] == entries;
    }
  }

  /** The names of the entries that are read without a warning, in payload
      order. */
  function Accepted(entries: JsonDict, energyKey: string, densityKey: Option<string>,
                    oracle: JsonDict -> Option<Decimal>): seq<string>
  {
    if entries == [] then []
    else
      var init := Accepted(entries[..|entries| - 1], energyKey, densityKey, oracle);
      var (name, v) := entries[|entries| - 1];
      var a := Admit(name, v, energyKey, densityKey, oracle);
      if a.Success? && a.value.warning.None? then init + [name] else init
  }

  /** The warnings of the entries that `parse_one_item` turns away, in payload
      order. */
  function Rejected(entries: JsonDict, energyKey: string, densityKey: Option<string>,
                    oracle: JsonDict -> Option<Decimal>): seq<string>
  {
    if entries == [] then []
    else
      var init := Rejected(entries[..|entries| - 1], energyKey, densityKey, oracle);
      var (name, v) := entries[|entries| - 1];
      var a := Admit(name, v, energyKey, densityKey, oracle);
      if a.Success? && a.value.warning.Some? then init + [a.value.warning.value] else init
  }

  /** Every entry ends up in exactly one of the two lists: the manifest holds,
      in payload order, one metadata record per accepted entry, carrying that
      entry's name and the dataset's formula, and the warnings account for all
      other entries: they are the warnings of the turned-away entries, in
      payload order. */
  lemma {:induction false} IngestPartition(entries: JsonDict, energyKey: string, densityKey: Option<string>,
                                           oracle: JsonDict -> Option<Decimal>, formula: string)
    requires Ingest(entries, energyKey, densityKey, oracle, formula).Success?
    ensures var u := Ingest(entries, energyKey, densityKey, oracle, formula).value;
      var names := Accepted(entries, energyKey, densityKey, oracle);
      && |u.manifest| + |u.warnings| == |entries|
      && u.warnings == Rejected(entries, energyKey, densityKey, oracle)
      && |u.manifest| == |names|
      && (forall i | 0 <= i < |names| ::
            Get(u.manifest[i], "name") == Some(Str(names[i])) && Get(u.manifest[i], "formula") == Some(Str(formula)))
  {
    if entries != [] {
      var init := entries[..|entries| - 1];
      IngestPartition(init, energyKey, densityKey, oracle, formula);
      var u0 := Ingest(init, energyKey, densityKey, oracle, formula).value;
      var names0 := Accepted(init, energyKey, densityKey, oracle);
      var (name, v) := entries[|entries| - 1];
      var it := Admit(name, v, energyKey, densityKey, oracle).value;
      if it.warning.None? {
        var meta := Set(it.meta, "formula", Str(formula));
        assert Get(meta, "name") == Some(Str(name)) && Get(meta, "formula") == Some(Str(formula)) by {
          ItemFields(name, v.fields, energyKey, densityKey, oracle(v.fields));
          GetSet(it.meta, "formula", Str(formula), "name");
          GetSet(it.meta, "formula", Str(formula), "formula");
        }
        AppendRecord(u0.manifest, names0, meta, name, formula);
      }
    }
  }

  lemma AppendRecord(manifest: seq<JsonDict>, names: seq<string>, meta: JsonDict, name: string, formula: string)
    requires |manifest| == |names|
    requires forall i | 0 <= i < |names| ::
      Get(manifest[i], "name") == Some(Str(names[i])) && Get(manifest[i], "formula") == Some(Str(formula))
    requires Get(meta, "name") == Some(Str(name)) && Get(meta, "formula") == Some(Str(formula))
    ensures forall i | 0 <= i < |names| + 1 ::
      Get((manifest + [meta])[i], "name") == Some(Str((names + [name])[i]))
      && Get((manifest + [meta])[i], "formula") == Some(Str(formula))
  {
    forall i | 0 <= i < |names| + 1
      ensures Get((manifest + [meta])[i], "name") == Some(Str((names + [name])[i]))
      ensures Get((manifest + [meta])[i], "formula") == Some(Str(formula))
    {
      if i < |names| {
        assert (manifest + [meta])[i] == manifest[i] && (names + [name])[i] == names[i];
      } else {
        assert (manifest + [meta])[i] == meta && (names + [name])[i] == name;
      }
    }
  }

  /** `dataset or str(uuid.uuid4())`, the fresh id given. */
  function DatasetId(dataset: Option<string>, freshId: string): string {
    if dataset.Some? && dataset.value != [] then dataset.value else freshId
  }

  /** A list of dictionaries as JSON. */
  function ObjArr(ds: seq<JsonDict>): (r: Json)
    ensures r.Arr? && |r.items| == |ds| && forall i | 0 <= i < |ds| :: r.items[i] == Obj(ds[i])
  {
    Arr(seq(|ds|, i requires 0 <= i < |ds| => Obj(ds[i])))
  }

  /** `{"atom_types": ..., "local_coords": local_coords.tolist()}` */
  function MoleculeDoc(m: Molecule): Json {
    Obj([("atom_types", StrArr(m.types)),
         ("local_coords", Arr(seq(|m.coords|, i requires 0 <= i < |m.coords| =>
                                  NumArr([m.coords[i].x, m.coords[i].y, m.coords[i].z]))))])
  }

  /** The `meta.json` document of an upload; `now` is the UTC time in ISO
      format. */
  function MetaDoc(dsid: string, dataset: Option<string>, count: nat, now: string, energyKey: string,
                   densityKey: Option<string>, warnings: seq<string>): Json
  {
    Obj([("dsid", Str(dsid)),
         ("title", Str(if dataset.Some? && dataset.value != [] then dataset.value else dsid)),
         ("count", Num(Decimal(count, 0))),
         ("created_at", Str(now + "Z")),
         ("energy_key", Str(energyKey)),
         ("density_key", if densityKey.Some? then Str(densityKey.value) else Null),
         ("warnings", StrArr(warnings))])
  }

  /** `{"dsid": dsid, "count": len(manifest), "warnings": warns}` */
  datatype UploadReply = UploadReply(dsid: string, count: nat, warnings: seq<string>)

  /** What an upload computes before anything is written: the molecule, then
      the payload check, then the loop over the entries. */
  function UploadPlan(molText: string, payload: Option<Json>, energyKey: string, densityKey: Option<string>,
                      oracle: JsonDict -> Option<Decimal>): Result<(Molecule, Upload), ApiError>
  {
    match ParseXyz(molText) {
      case Failure(e) => Failure(XyzRaised(e))
      case Success(mol) =>
        if payload.None? then Failure(JsonRaised)
        else if !payload.value.Obj? then Failure(BadRequest)
        else match Ingest(payload.value.fields, energyKey, densityKey, oracle, Formula(mol.types)) {
          case Failure(e) => Failure(e)
          case Success(u) => Success((mol, u))
        }
    }
  }

  /** `upload_dataset`: both raw files are kept; the molecule document is
      written once the molecule parses; `manifest.json` and `meta.json` only
      when every entry was read, with `count` the manifest's length, which is
      also the count returned. A payload that is not a dict is rejected with
      400 before either of them is written. `payload` is what `json.loads`
      gives for `structText` (`None` when it raises). */
  method UploadDataset(store: Store, molText: string, structText: string, payload: Option<Json>,
                       energyKey: string, densityKey: Option<string>, dataset: Option<string>,
                       freshId: string, now: string, oracle: JsonDict -> Option<Decimal>)
    returns (r: Result<UploadReply, ApiError>)
    modifies store
    ensures var dsid := DatasetId(dataset, freshId);
      store.blobs == old(store.blobs)[DatasetPath(dsid, "molecule.xyz") := molText]
                                     [DatasetPath(dsid, "structures.json") := structText]
    ensures var dsid := DatasetId(dataset, freshId);
      match UploadPlan(molText, payload, energyKey, densityKey, oracle) {
        case Failure(e) =>
          && r == Failure(e)
          && (ParseXyz(molText).Failure? ==> store.files == old(store.files))
          && (ParseXyz(molText).Success? ==>
                store.files == old(store.files)[DatasetPath(dsid, "molecule.json") := MoleculeDoc(ParseXyz(molText).value)])
        case Success((mol, u)) =>
          && r == Success(UploadReply(dsid, |u.manifest|, u.warnings))
          && store.files == old(store.files)[DatasetPath(dsid, "molecule.json") := MoleculeDoc(mol)]
                                            [DatasetPath(dsid, "manifest.json") := ObjArr(u.manifest)]
                                            [DatasetPath(dsid, "meta.json") :=
                                               MetaDoc(dsid, dataset, |u.manifest|, now, energyKey, densityKey, u.warnings)]
      }
  {
    var dsid := DatasetId(dataset, freshId);
    store.SaveBytes(DatasetPath(dsid, "molecule.xyz"), molText);
    store.SaveBytes(DatasetPath(dsid, "structures.json"), structText);
    var mol := ParseXyzLines(molText);
    if mol.Failure? {
      return Failure(XyzRaised(mol.error));
    }
    store.SaveJson(DatasetPath(dsid, "molecule.json"), MoleculeDoc(mol.value));
    if payload.None? {
      return Failure(JsonRaised);
    }
    if !payload.value.Obj? {
      return Failure(BadRequest);
    }
    var u := IngestEntries(payload.value.fields, energyKey, densityKey, oracle, Formula(mol.value.types));
    if u.Failure? {
      return Failure(u.error);
    }
    var manifest := u.value.manifest;
    var warns := u.value.warnings;
    store.SaveJson(DatasetPath(dsid, "manifest.json"), ObjArr(manifest));
    store.SaveJson(DatasetPath(dsid, "meta.json"), MetaDoc(dsid, dataset, |manifest|, now, energyKey, densityKey, warns));
    return Success(UploadReply(dsid, |manifest|, warns));
  }

  /** A successful upload has read every payload entry into the manifest or
      a warning, never both. */
  lemma UploadPartition(molText: string, payload: Option<Json>, energyKey: string, densityKey: Option<string>,
                        oracle: JsonDict -> Option<Decimal>)
    requires UploadPlan(molText, payload, energyKey, densityKey, oracle).Success?
    ensures payload.Some? && payload.value.Obj?
    ensures var u := UploadPlan(molText, payload, energyKey, densityKey, oracle).value.1;
      && |u.manifest| + |u.warnings| == |payload.value.fields|
      && |u.manifest| == |Accepted(payload.value.fields, energyKey, densityKey, oracle)|
      && u.warnings == Rejected(payload.value.fields, energyKey, densityKey, oracle)
  {
    var mol := ParseXyz(molText).value;
    var formula := Formula(mol.types);
    assert UploadPlan(molText, payload, energyKey, densityKey, oracle).value.1
        == Ingest(payload.value.fields, energyKey, densityKey, oracle, formula).value;
    IngestPartition(payload.value.fields, energyKey, densityKey, oracle, formula);
  }

  // ---------------------------------------------------------------- dataset list

  /** The entry `list_datasets` makes of a stored `meta.json`: the title
      defaults to the id and the count to 0; a missing id or time is `None`. */
  function Summary(meta: JsonDict): (r: JsonDict)
    ensures Keys(r) == ["dsid", "title", "count", "created_at"]
  {
    [("dsid", GetOr(meta, "dsid", Null)),
     ("title", GetOr(meta, "title", GetOr(meta, "dsid", Null))),
     ("count", GetOr(meta, "count", Num(Decimal(0, 0)))),
     ("created_at", GetOr(meta, "created_at", Null))]
  }

  /** The loop of `list_datasets`: a path that cannot be loaded, or whose
      document is not a dict, is skipped. */
  function Summaries(files: map<string, Json>, paths: seq<string>): (r: seq<JsonDict>)
    ensures |r| <= |paths|
  {
    if paths == [] then []
    else
      var init := Summaries(files, paths[..|paths| - 1]);
      var p := paths[|paths| - 1];
      if p in files && files[p].Obj? then init + [Summary(files[p].fields)] else init
  }

  /** `m.get("created_at") or ""` */
  function CreatedKey(m: JsonDict): string {
    var v := Get(m, "created_at");
    if v.Some? && v.value.Str? then v.value.s else ""
  }

  /** Python's `a < b` on strings: code point by code point, a proper prefix
      first. */
  predicate StrBelow(a: string, b: string) {
    if a == [] then b != []
    else if b == [] then false
    else if a[0] != b[0] then a[0] < b[0]
    else StrBelow(a[1..], b[1..])
  }

  lemma {:induction false} StrBelowAsymmetric(a: string, b: string)
    requires StrBelow(a, b)
    ensures !StrBelow(b, a)
  {
    if a != [] && b != [] && a[0] == b[0] {
      StrBelowAsymmetric(a[1..], b[1..]);
    }
  }

  lemma {:induction false} StrBelowIrreflexive(a: string)
    ensures !StrBelow(a, a)
  {
    if a != [] {
      StrBelowIrreflexive(a[1..]);
    }
  }

  /** Newest first: no entry is followed by a strictly newer one. */
  predicate NewestFirst(ms: seq<JsonDict>) {
    forall i | 0 <= i < |ms| - 1 :: !StrBelow(CreatedKey(ms[i]), CreatedKey(ms[i + 1]))
  }

  /** `m` placed after every entry at least as new as it. */
  function Insert(ms: seq<JsonDict>, m: JsonDict): (r: seq<JsonDict>)
    ensures |r| == |ms| + 1
    ensures r[|r| - 1] == m || (ms != [] && r[|r| - 1] == ms[|ms| - 1])
  {
    if ms == [] then [m]
    else
      var last := ms[|ms| - 1];
      if !StrBelow(CreatedKey(last), CreatedKey(m)) then ms + [m]
      else Insert(ms[..|ms| - 1], m) + [last]
  }

  /** `metas.sort(key=lambda m: m.get("created_at") or "", reverse=True)`:
      Python's sort is stable also when reversed, so this is insertion of
      each entry in turn after the entries at least as new. */
  function SortNewestFirst(ms: seq<JsonDict>): (r: seq<JsonDict>)
    ensures |r| == |ms|
  {
    if ms == [] then [] else Insert(SortNewestFirst(ms[..|ms| - 1]), ms[|ms| - 1])
  }

  /** The entries whose time reads `t`, in order. */
  function WithKey(ms: seq<JsonDict>, t: string): seq<JsonDict> {
    if ms == [] then []
    else WithKey(ms[..|ms| - 1], t) + (if CreatedKey(ms[|ms| - 1]) == t then [ms[|ms| - 1]] else [])
  }

  lemma WithKeySnoc(ms: seq<JsonDict>, m: JsonDict, t: string)
    ensures WithKey(ms + [m], t) == WithKey(ms, t) + (if CreatedKey(m) == t then [m] else [])
  {
    assert (ms + [m])[..|ms|] == ms;
  }

  lemma {:induction false} InsertSorted(ms: seq<JsonDict>, m: JsonDict)
    requires NewestFirst(ms)
    ensures NewestFirst(Insert(ms, m))
  {
    if ms != [] {
      var last := ms[|ms| - 1];
      var init := ms[..|ms| - 1];
      if !StrBelow(CreatedKey(last), CreatedKey(m)) {
        var r := ms + [m];
        forall i | 0 <= i < |r| - 1
          ensures !StrBelow(CreatedKey(r[i]), CreatedKey(r[i + 1]))
        {
          if i < |ms| - 1 {
            assert r[i] == ms[i] && r[i + 1] == ms[i + 1];
          } else {
            assert r[i] == last && r[i + 1] == m;
          }
        }
      } else {
        assert NewestFirst(init) by {
          forall i | 0 <= i < |init| - 1
            ensures !StrBelow(CreatedKey(init[i]), CreatedKey(init[i + 1]))
          {
            assert init[i] == ms[i] && init[i + 1] == ms[i + 1];
          }
        }
        InsertSorted(init, m);
        var t := Insert(init, m);
        var r := t + [last];
        var before := t[|t| - 1];
        assert !StrBelow(CreatedKey(before), CreatedKey(last)) by {
          if before == m {
            StrBelowAsymmetric(CreatedKey(last), CreatedKey(m));
          } else {
            assert before == ms[|ms| - 2];
          }
        }
        forall i | 0 <= i < |r| - 1
          ensures !StrBelow(CreatedKey(r[i]), CreatedKey(r[i + 1]))
        {
          if i < |t| - 1 {
            assert r[i] == t[i] && r[i + 1] == t[i + 1];
          } else {
            assert r[i] == before && r[i + 1] == last;
          }
        }
      }
    }
  }

  lemma {:induction false} InsertStable(ms: seq<JsonDict>, m: JsonDict, t: string)
    requires NewestFirst(ms)
    ensures WithKey(Insert(ms, m), t) == WithKey(ms, t) + (if CreatedKey(m) == t then [m] else [])
  {
    if ms == [] {
      WithKeySnoc([], m, t);
    } else {
      var last := ms[|ms| - 1];
      var init := ms[..|ms| - 1];
      assert ms == init + [last];
      if !StrBelow(CreatedKey(last), CreatedKey(m)) {
        WithKeySnoc(ms, m, t);
      } else {
        assert NewestFirst(init) by {
          forall i | 0 <= i < |init| - 1
            ensures !StrBelow(CreatedKey(init[i]), CreatedKey(init[i + 1]))
          {
            assert init[i] == ms[i] && init[i + 1] == ms[i + 1];
          }
        }
        assert CreatedKey(m) == t ==> CreatedKey(last) != t by {
          StrBelowIrreflexive(CreatedKey(m));
        }
        var x := if CreatedKey(m) == t then [m] else [];
        var y := if CreatedKey(last) == t then [last] else [];
        assert x == [] || y == [];
        calc {
          WithKey(Insert(ms, m), t);
          WithKey(Insert(init, m) + [last], t);
          { WithKeySnoc(Insert(init, m), last, t); }
          WithKey(Insert(init, m), t) + y;
          { InsertStable(init, m, t); }
          WithKey(init, t) + x + y;
          WithKey(init, t) + y + x;
          { WithKeySnoc(init, last, t); }
          WithKey(ms, t) + x;
        }
      }
    }
  }

  lemma {:induction false} InsertCount(ms: seq<JsonDict>, m: JsonDict)
    ensures multiset(Insert(ms, m)) == multiset(ms) + multiset{m}
  {
    if ms != [] {
      var last := ms[|ms| - 1];
      var init := ms[..|ms| - 1];
      assert ms == init + [last];
      if StrBelow(CreatedKey(last), CreatedKey(m)) {
        InsertCount(init, m);
      }
    }
  }

  /** The list comes out newest first, as a rearrangement of the entries in
      which entries with the same time keep their order. */
  lemma {:induction false} SortNewestFirstSpec(ms: seq<JsonDict>)
    ensures NewestFirst(SortNewestFirst(ms))
    ensures multiset(SortNewestFirst(ms)) == multiset(ms)
    ensures forall t :: WithKey(SortNewestFirst(ms), t) == WithKey(ms, t)
  {
    if ms != [] {
      var init := ms[..|ms| - 1];
      var m := ms[|ms| - 1];
      assert ms == init + [m];
      SortNewestFirstSpec(init);
      InsertSorted(SortNewestFirst(init), m);
      InsertCount(SortNewestFirst(init), m);
      forall t
        ensures WithKey(SortNewestFirst(ms), t) == WithKey(ms, t)
      {
        InsertStable(SortNewestFirst(init), m, t);
      }
    }
  }

  /** `list_datasets`: the summaries of the listed `meta.json` paths, newest
      first. `paths` is what `list_dataset_meta_paths()` returns. */
  method ListDatasets(store: Store, paths: seq<string>) returns (metas: seq<JsonDict>)
    ensures metas == SortNewestFirst(Summaries(store.files, paths))
  {
    metas := [];
    for i := 0 to |paths|
      invariant metas == Summaries(store.files, paths[..i])
    {
      assert paths[..i + 1][..i] == paths[..i];
      var p := paths[i];
      if p in store.files && store.files[p].Obj? {
        var meta := store.files[p].fields;
        metas := metas + [Summary(meta)];
      }
    }
    assert paths[..|paths|] == paths;
    metas := SortNewestFirst(metas);
  }

  /** Each summary falls back to the id for a missing title and to 0 for a
      missing count. */
  lemma SummaryDefaults(meta: JsonDict)
    ensures Get(Summary(meta), "title") == Some(GetOr(meta, "title", GetOr(meta, "dsid", Null)))
    ensures Get(Summary(meta), "count") == Some(GetOr(meta, "count", Num(Decimal(0, 0))))
  {
    var r := Summary(meta);
    assert r[0].0 == "dsid" && r[1..][0] == r[1] && r[1].0 == "title";
    assert r[1..][1..][0] == r[2] && r[2].0 == "count";
  }

  // ---------------------------------------------------------------- manifest and landscape

  /** The entries of a stored manifest, when it is a list of dicts. */
  function ManifestEntries(doc: Json): (r: Option<seq<JsonDict>>)
    ensures r.Some? ==> ObjArr(r.value) == doc
  {
    if doc.Arr? && forall i | 0 <= i < |doc.items| :: doc.items[i].Obj? then
      var ms := seq(|doc.items|, i requires 0 <= i < |doc.items| => doc.items[i].fields);
      assert ObjArr(ms).items == doc.items;
      Some(ms)
    else None
  }

  /** `get_manifest`: 404 when the dataset has no manifest. */
  method GetManifest(store: Store, dsid: string) returns (r: Result<Json, ApiError>)
    ensures !store.Exists(DatasetPath(dsid, "manifest.json")) ==> r == Failure(NotFound("dataset not found"))
    ensures store.Exists(DatasetPath(dsid, "manifest.json")) ==> r == Success(store.files[DatasetPath(dsid, "manifest.json")])
  {
    var path := DatasetPath(dsid, "manifest.json");
    if !store.Exists(path) {
      return Failure(NotFound("dataset not found"));
    }
    return Success(store.files[path]);
  }

  /** One landscape point. */
  function Point(name: Json, x: Decimal, y: Decimal, caption: Json): JsonDict {
    [("id", name), ("name", name), ("x", Num(x)), ("y", Num(y)), ("label", caption)]
  }

  /** `pts.append({...})` for an entry with the density and energy found:
      `m["name"]` raises without a name, `float` raises on a value that is
      not a number. */
  function Plot(m: JsonDict, density: Json, energy: Json): Result<Option<JsonDict>, ApiError> {
    if !HasKey(m, "name") then Failure(KeyMissing("name"))
    else if ToFloat(density).None? then Failure(ValueRaised("density"))
    else if ToFloat(energy).None? then Failure(ValueRaised("energy"))
    else
      var name := Get(m, "name").value;
      Success(Some(Point(name, ToFloat(density).value, ToFloat(energy).value, GetOr(m, "formula", name))))
  }

  /** One turn of the landscape loop on entry `m`: no point without an
      energy; a missing density is computed from the entry's name
      (`oracle`, `None` when anything in the `try` raises) and written back
      into the entry, or the entry is skipped. Gives the point, if any, and
      the entry as it is afterwards. */
  function Visit(m: JsonDict, oracle: Json -> Option<Decimal>): (Result<Option<JsonDict>, ApiError>, JsonDict) {
    var energy := GetOr(m, "energy", Null);
    var density := GetOr(m, "density", Null);
    if energy.Null? then (Success(None), m)
    else if !density.Null? then (Plot(m, density, energy), m)
    else
      var computed := if HasKey(m, "name") then oracle(Get(m, "name").value) else None;
      if computed.None? then (Success(None), m)
      else
        var m' := Set(m, "density", Num(computed.value));
        (Plot(m', Num(computed.value), energy), m')
  }

  /** The loop of `dataset_landscape`: the points so far (or the exception)
      and the manifest with the densities written back so far. */
  function Landscape(ms: seq<JsonDict>, oracle: Json -> Option<Decimal>): (r: (Result<seq<JsonDict>, ApiError>, seq<JsonDict>))
    ensures |r.1| == |ms|
    ensures r.0.Success? ==> |r.0.value| <= |ms|
  {
    if ms == [] then (Success([]), [])
    else
      var (res, out) := Landscape(ms[..|ms| - 1], oracle);
      var m := ms[|ms| - 1];
      if res.Failure? then (res, out + [m])
      else
        var (v, m') := Visit(m, oracle);
        match v {
          case Failure(e) => (Failure(e), out + [m'])
          case Success(None) => (res, out + [m'])
          case Success(Some(p)) => (Success(res.value + [p]), out + [m'])
        }
  }

  /** `dataset_landscape`: 404 without a manifest; otherwise the points of the
      loop, the manifest in storage being the one with every computed density
      written back (it is saved after each one). */
  method DatasetLandscape(store: Store, dsid: string, oracle: Json -> Option<Decimal>)
    returns (r: Result<seq<JsonDict>, ApiError>)
    modifies store
    ensures store.blobs == old(store.blobs)
    ensures var path := DatasetPath(dsid, "manifest.json");
      if path !in old(store.files) then r == Failure(NotFound("dataset not found")) && store.files == old(store.files)
      else match ManifestEntries(old(store.files)[path]) {
        case None => r == Failure(ManifestMalformed) && store.files == old(store.files)
        case Some(ms) =>
          && r == Landscape(ms, oracle).0
          && store.files == old(store.files)[path := ObjArr(Landscape(ms, oracle).1)]
      }
  {
    var path := DatasetPath(dsid, "manifest.json");
    if !store.Exists(path) {
      return Failure(NotFound("dataset not found"));
    }
    var entries := ManifestEntries(store.files[path]);
    if entries.None? {
      return Failure(ManifestMalformed);
    }
    r := LandscapeLoop(store, path, entries.value, oracle);
  }

  /** The loop of `dataset_landscape` over the entries `ms` of the manifest
      stored at `path`, saving the manifest after each computed density. */
  method LandscapeLoop(store: Store, path: string, ms: seq<JsonDict>, oracle: Json -> Option<Decimal>)
    returns (r: Result<seq<JsonDict>, ApiError>)
    requires path in store.files && store.files[path] == ObjArr(ms)
    modifies store
    ensures store.blobs == old(store.blobs)
    ensures r == Landscape(ms, oracle).0
    ensures store.files == old(store.files)[path := ObjArr(Landscape(ms, oracle).1)]
  {
    var manifest := ms;
    var pts: seq<JsonDict> := [];
    ghost var files0 := store.files;
    assert files0 == files0[path := ObjArr(manifest)];
    LoopStart(ms, oracle);
    for i := 0 to |ms|
      invariant LoopAt(ms, i, manifest, pts, oracle)
      invariant store.files == files0[path := ObjArr(manifest)] && store.blobs == old(store.blobs)
    {
      ghost var before := manifest;
      var v, m, wrote := VisitEntry(manifest[i], oracle);
      if wrote {
        manifest := manifest[i := m];
        store.SaveJson(path, ObjArr(manifest));
      }
      assert manifest == before[i := m];
      LandscapeNext(ms, i, before, pts, oracle, v, m);
      if v.Failure? {
        return Failure(v.error);
      }
      if v.value.Some? {
        pts := pts + [v.value.value];
      }
    }
    LoopDone(ms, manifest, pts, oracle);
    return Success(pts);
  }

  /** The body of the landscape loop for entry `m`: the point, if any, the
      entry afterwards, and whether a computed density was written into it
      (and the manifest must be saved). */
  method VisitEntry(m: JsonDict, oracle: Json -> Option<Decimal>)
    returns (v: Result<Option<JsonDict>, ApiError>, m': JsonDict, wrote: bool)
    ensures (v, m') == Visit(m, oracle)
    ensures !wrote ==> m' == m
  {
    m' := m;
    wrote := false;
    var energy := GetOr(m, "energy", Null);
    var density := GetOr(m, "density", Null);
    if energy.Null? {
      return Success(None), m', wrote;
    }
    if density.Null? {
      var computed := if HasKey(m, "name") then oracle(Get(m, "name").value) else None;
      if computed.None? {
        return Success(None), m', wrote;
      }
      m' := Set(m, "density", Num(computed.value));
      wrote := true;
      density := Num(computed.value);
    }
    v := Plot(m', density, energy);
  }

  /** The landscape loop after `i` entries: the entries from `i` on are as
      they were, and the points and entries so far are those of `Landscape`. */
  ghost predicate LoopAt(ms: seq<JsonDict>, i: nat, manifest: seq<JsonDict>, pts: seq<JsonDict>,
                         oracle: Json -> Option<Decimal>)
  {
    i <= |ms| == |manifest| && manifest[i..] == ms[i..]
    && Landscape(ms[..i], oracle) == (Success(pts), manifest[..i])
  }

  lemma LoopStart(ms: seq<JsonDict>, oracle: Json -> Option<Decimal>)
    ensures LoopAt(ms, 0, ms, [], oracle)
  {
    assert ms[..0] == [];
  }

  lemma LoopDone(ms: seq<JsonDict>, manifest: seq<JsonDict>, pts: seq<JsonDict>, oracle: Json -> Option<Decimal>)
    requires LoopAt(ms, |ms|, manifest, pts, oracle)
    ensures Landscape(ms, oracle) == (Success(pts), manifest)
  {
    assert ms[..|ms|] == ms && manifest[..|ms|] == manifest;
  }

  /** One turn of the landscape loop on entry `i`, visited to `(v, m)`: an
      exception ends the landscape with the entries after `i` as they were;
      otherwise the loop goes on with entry `i` replaced by `m`. */
  lemma LandscapeNext(ms: seq<JsonDict>, i: nat, manifest: seq<JsonDict>, pts: seq<JsonDict>,
                      oracle: Json -> Option<Decimal>, v: Result<Option<JsonDict>, ApiError>, m: JsonDict)
    requires i < |ms| && LoopAt(ms, i, manifest, pts, oracle)
    requires Visit(manifest[i], oracle) == (v, m)
    ensures v.Failure? ==> Landscape(ms, oracle) == (Failure(v.error), manifest[i := m])
    ensures v.Success? ==>
      LoopAt(ms, i + 1, manifest[i := m], if v.value.Some? then pts + [v.value.value] else pts, oracle)
  {
    assert manifest[i] == manifest[i..][0] == ms[i..][0] == ms[i];
    var after := manifest[i := m];
    assert after[i + 1..] == manifest[i + 1..] == ms[i + 1..];
    LandscapeExtend(ms, i, manifest, pts, oracle, v, m);
    if v.Failure? {
      LandscapeFailedAt(ms, i + 1, after, oracle);
    }
  }

  /** The first `i + 1` entries in terms of the first `i` and the visit of entry `i`. */
  lemma LandscapeExtend(ms: seq<JsonDict>, i: nat, manifest: seq<JsonDict>, pts: seq<JsonDict>,
                        oracle: Json -> Option<Decimal>, v: Result<Option<JsonDict>, ApiError>, m: JsonDict)
    requires i < |ms| == |manifest|
    requires Landscape(ms[..i], oracle) == (Success(pts), manifest[..i])
    requires Visit(ms[i], oracle) == (v, m)
    ensures manifest[i := m][..i + 1] == manifest[..i] + [m]
    ensures Landscape(ms[..i + 1], oracle) == match v {
      case Failure(e) => (Failure(e), manifest[..i] + [m])
      case Success(None) => (Success(pts), manifest[..i] + [m])
      case Success(Some(p)) => (Success(pts + [p]), manifest[..i] + [m])
    }
  {
    Seqs.TakeSnoc(ms, i);
    LandscapeSnoc(ms[..i], ms[i], oracle, pts, manifest[..i], v, m);
    assert manifest[i := m][..i + 1] == manifest[..i] + [m];
  }

  /** One more entry after a run of the loop that raised nothing. */
  lemma LandscapeSnoc(p: seq<JsonDict>, x: JsonDict, oracle: Json -> Option<Decimal>, pts: seq<JsonDict>,
                      out: seq<JsonDict>, v: Result<Option<JsonDict>, ApiError>, m: JsonDict)
    requires Landscape(p, oracle) == (Success(pts), out) && Visit(x, oracle) == (v, m)
    ensures Landscape(p + [x], oracle) == match v {
      case Failure(e) => (Failure(e), out + [m])
      case Success(None) => (Success(pts), out + [m])
      case Success(Some(q)) => (Success(pts + [q]), out + [m])
    }
  {
    Seqs.SnocParts(p, x);
  }

  /** Once an entry raises, the loop ends: later entries are left as they are. */
  lemma {:induction false} LandscapeFailed(p: seq<JsonDict>, q: seq<JsonDict>, oracle: Json -> Option<Decimal>)
    requires Landscape(p, oracle).0.Failure?
    ensures var r := Landscape(p, oracle);
      Landscape(p + q, oracle) == (r.0, r.1 + q)
    decreases |q|
  {
    var r := Landscape(p, oracle);
    if q == [] {
      assert p + q == p;
      Seqs.AppendNil(r.1);
    } else {
      var init, x := q[..|q| - 1], q[|q| - 1];
      LandscapeFailed(p, init, oracle);
      LandscapeFailedSnoc(p + init, x, oracle);
      Seqs.InitLast(q);
      Seqs.SnocAssoc(p, init, x);
      Seqs.SnocAssoc(r.1, init, x);
    }
  }

  /** After an exception, one more entry is copied as it is. */
  lemma LandscapeFailedSnoc(ms: seq<JsonDict>, x: JsonDict, oracle: Json -> Option<Decimal>)
    requires Landscape(ms, oracle).0.Failure?
    ensures var r := Landscape(ms, oracle);
      Landscape(ms + [x], oracle) == (r.0, r.1 + [x])
  {
    Seqs.SnocParts(ms, x);
  }

  lemma LandscapeFailedAt(ms: seq<JsonDict>, i: nat, manifest: seq<JsonDict>, oracle: Json -> Option<Decimal>)
    requires i <= |ms| == |manifest| && Landscape(ms[..i], oracle).0.Failure?
    requires manifest[..i] == Landscape(ms[..i], oracle).1 && manifest[i..] == ms[i..]
    ensures Landscape(ms, oracle) == (Landscape(ms[..i], oracle).0, manifest)
  {
    LandscapeFailed(ms[..i], ms[i..], oracle);
    Seqs.TakeDrop(ms, i);
    Seqs.TakeDrop(manifest, i);
  }

  /** An entry without an energy, or whose missing density cannot be
      computed, gives no point and is left as it is; only a computed density
      changes an entry. */
  lemma VisitSkipped(m: JsonDict, oracle: Json -> Option<Decimal>)
    ensures GetOr(m, "energy", Null).Null? ==> Visit(m, oracle) == (Success(None), m)
    ensures GetOr(m, "density", Null).Null? && (!HasKey(m, "name") || oracle(Get(m, "name").value).None?) ==>
      Visit(m, oracle) == (Success(None), m)
    ensures !GetOr(m, "density", Null).Null? ==> Visit(m, oracle).1 == m
  {
  }

  /** A point is drawn at the entry's density and energy under its name,
      captioned with its formula; its density is the stored one or, when
      none was stored, the computed one, which the entry then holds. */
  lemma VisitPoint(m: JsonDict, oracle: Json -> Option<Decimal>, p: JsonDict)
    requires Visit(m, oracle).0 == Success(Some(p))
    ensures HasKey(m, "name") && !GetOr(m, "energy", Null).Null?
    ensures var name := Get(m, "name").value;
      var density := GetOr(Visit(m, oracle).1, "density", Null);
      && ToFloat(density).Some? && ToFloat(GetOr(m, "energy", Null)).Some?
      && p == Point(name, ToFloat(density).value, ToFloat(GetOr(m, "energy", Null)).value, GetOr(m, "formula", name))
    ensures GetOr(m, "density", Null).Null? ==>
      var name := Get(m, "name").value;
      oracle(name).Some? && Visit(m, oracle).1 == Set(m, "density", Num(oracle(name).value))
  {
    var energy := GetOr(m, "energy", Null);
    var density := GetOr(m, "density", Null);
    if density.Null? {
      var name := Get(m, "name").value;
      var d := Num(oracle(name).value);
      var m' := Set(m, "density", d);
      GetSet(m, "density", d, "density");
      GetSet(m, "density", d, "name");
      GetSet(m, "density", d, "formula");
      assert Get(m', "name") == Get(m, "name");
    }
  }

  /** `later` computes no density for a name that `earlier` could not. */
  ghost predicate NoNewDensities(earlier: Json -> Option<Decimal>, later: Json -> Option<Decimal>) {
    forall n :: earlier(n).None? ==> later(n).None?
  }

  /** A visited entry is visited again to the same point and stays as it is:
      a density written back is read instead of being computed again. */
  lemma VisitCached(m: JsonDict, oracle: Json -> Option<Decimal>, later: Json -> Option<Decimal>)
    requires NoNewDensities(oracle, later)
    ensures Visit(Visit(m, oracle).1, later) == Visit(m, oracle)
  {
    var energy := GetOr(m, "energy", Null);
    var density := GetOr(m, "density", Null);
    if !energy.Null? && density.Null? && HasKey(m, "name") && oracle(Get(m, "name").value).Some? {
      var d := Num(oracle(Get(m, "name").value).value);
      GetSet(m, "density", d, "energy");
      GetSet(m, "density", d, "density");
    }
  }

  /** An entry that gave a point holds its density afterwards, so visiting it
      again reads that density and computes nothing, whatever the density
      computation would now answer. */
  lemma VisitPlottedStored(m: JsonDict, oracle: Json -> Option<Decimal>, later: Json -> Option<Decimal>)
    requires Visit(m, oracle).0.Success? && Visit(m, oracle).0.value.Some?
    ensures GetOr(Visit(m, oracle).1, "density", Null) != Null
    ensures Visit(Visit(m, oracle).1, later) == Visit(m, oracle)
  {
    var density := GetOr(m, "density", Null);
    if density.Null? {
      var d := Num(oracle(Get(m, "name").value).value);
      GetSet(m, "density", d, "energy");
      GetSet(m, "density", d, "density");
    }
  }

  /** `dataset_landscape` called again on the manifest it saved gives the
      same points (or the same exception) and saves the same manifest. */
  lemma {:induction false} LandscapeCached(ms: seq<JsonDict>, oracle: Json -> Option<Decimal>, later: Json -> Option<Decimal>)
    requires NoNewDensities(oracle, later)
    ensures Landscape(Landscape(ms, oracle).1, later) == Landscape(ms, oracle)
  {
    if ms != [] {
      var init := ms[..|ms| - 1];
      var out := Landscape(ms, oracle).1;
      LandscapeCached(init, oracle, later);
      assert out[..|out| - 1] == Landscape(init, oracle).1;
      if Landscape(init, oracle).0.Success? {
        VisitCached(ms[|ms| - 1], oracle, later);
      }
    }
  }
}
