/** The leaderboard routes: two JSON files read as they are, and the
    leaderboard filtered on its entries' `benchmark` key, in file order. */
module Leaderboard {
  import opened Wrappers
  import opened PyDict
  import opened PyJson

  /** The exceptions the filter can raise on a file that is not a list of
      dicts: iterating over a number, boolean or `None` (`TypeError`), and
      `.get` on an element that is not a dict (`AttributeError`). */
  datatype LbError = NotIterable | NoGet

  /** `_read_json`: the file's JSON value, an empty list when there is no
      file (`None`). */
  function ReadJson(file: Option<Json>): (r: Json)
    ensures file.None? ==> r == Arr([])
    ensures file.Some? ==> r == file.value
  {
    if file.None? then Arr([]) else file.value
  }

  /** `list_benchmarks`: the benchmarks file as it is. */
  function ListBenchmarks(file: Option<Json>): (r: Json)
    ensures file.None? ==> r == Arr([])
  {
    ReadJson(file)
  }

  /** `x.get("benchmark") == b`: only a dict whose `benchmark` is the string
      `b` matches. */
  predicate Matches(x: Json, b: string) {
    x.Obj? && Get(x.fields, "benchmark") == Some(Str(b))
  }

  /** `[x for x in items if x.get("benchmark") == b]` over a list. */
  function FilterItems(xs: seq<Json>, b: string): (r: Result<seq<Json>, LbError>)
    ensures r.Success? ==> |r.value| <= |xs|
  {
    if xs == [] then Success([])
    else
      match FilterItems(xs[..|xs| - 1], b)
      case Failure(e) => Failure(e)
      case Success(kept) =>
        var x := xs[|xs| - 1];
        if !x.Obj? then Failure(NoGet)
        else if Matches(x, b) then Success(kept + [x])
        else Success(kept)
  }

  /** The same comprehension over any JSON value: a dict iterates over its
      keys and a string over its characters, neither of which has `.get`, so
      only empty ones get through. */
  function Filter(items: Json, b: string): (r: Result<seq<Json>, LbError>)
    ensures items.Arr? ==> r == FilterItems(items.items, b)
  {
    match items
    case Arr(xs) => FilterItems(xs, b)
    case Obj(fields) => if fields == [] then Success([]) else Failure(NoGet)
    case Str(s) => if s == [] then Success([]) else Failure(NoGet)
    case _ => Failure(NotIterable)
  }

  /** `leaderboard`: the filtered leaderboard for a non-empty `benchmark`,
      the whole file otherwise. */
  function Board(file: Option<Json>, benchmark: Option<string>): (r: Result<Json, LbError>)
    ensures benchmark.None? || benchmark == Some("") ==> r == Success(ReadJson(file))
    ensures benchmark.Some? && benchmark.value != "" ==> r == ByBenchmark(file, benchmark.value)
    ensures file.None? ==> r == Success(Arr([]))
  {
    if benchmark.Some? && benchmark.value != "" then
      match Filter(ReadJson(file), benchmark.value)
      case Success(kept) => Success(Arr(kept))
      case Failure(e) => Failure(e)
    else Success(ReadJson(file))
  }

  /** `leaderboard_by_benchmark`: the leaderboard filtered on `bid`, even an
      empty one. */
  function ByBenchmark(file: Option<Json>, bid: string): (r: Result<Json, LbError>)
    ensures r.Success? ==> r.value.Arr?
    ensures file.None? ==> r == Success(Arr([]))
  {
    match Filter(ReadJson(file), bid)
    case Success(kept) => Success(Arr(kept))
    case Failure(e) => Failure(e)
  }

  /** Every item of a list of dicts is looked at: the filter raises exactly
      when one of them is not a dict. */
  lemma {:induction false} FilterItemsSucceeds(xs: seq<Json>, b: string)
    ensures FilterItems(xs, b).Success? <==> forall i | 0 <= i < |xs| :: xs[i].Obj?
  {
    if xs != [] {
      var init := xs[..|xs| - 1];
      FilterItemsSucceeds(init, b);
      assert forall i | 0 <= i < |init| :: init[i] == xs[i];
    }
  }

  /** The filter keeps exactly the matching items, each as many times as the
      file holds it. */
  lemma {:induction false} FilterItemsCount(xs: seq<Json>, b: string, x: Json)
    requires FilterItems(xs, b).Success?
    ensures multiset(FilterItems(xs, b).value)[x] == if Matches(x, b) then multiset(xs)[x] else 0
  {
    if xs != [] {
      var init := xs[..|xs| - 1];
      FilterItemsCount(init, b, x);
      assert xs == init + [xs[|xs| - 1]];
    }
  }

  /** Soundness: every item returned matches, so it has a `benchmark` key;
      and completeness: every matching item of the file is returned. */
  lemma FilterItemsExact(xs: seq<Json>, b: string)
    requires FilterItems(xs, b).Success?
    ensures forall x | x in FilterItems(xs, b).value :: x in xs && Matches(x, b) && HasKey(x.fields, "benchmark")
    ensures forall x | x in xs && Matches(x, b) :: x in FilterItems(xs, b).value
  {
    forall x | x in FilterItems(xs, b).value
      ensures x in xs && Matches(x, b)
    {
      FilterItemsCount(xs, b, x);
    }
    forall x | x in xs && Matches(x, b)
      ensures x in FilterItems(xs, b).value
    {
      FilterItemsCount(xs, b, x);
    }
  }

  /** File order is kept: filtering a file made of two parts gives the
      filtered first part followed by the filtered second part. */
  lemma {:induction false} FilterItemsAppend(xs: seq<Json>, ys: seq<Json>, b: string)
    requires FilterItems(xs + ys, b).Success?
    ensures FilterItems(xs, b).Success? && FilterItems(ys, b).Success?
    ensures FilterItems(xs + ys, b).value == FilterItems(xs, b).value + FilterItems(ys, b).value
    decreases |ys|
  {
    if ys == [] {
      assert xs + ys == xs;
    } else {
      var init := ys[..|ys| - 1];
      assert (xs + ys)[..|xs + ys| - 1] == xs + init;
      FilterItemsAppend(xs, init, b);
    }
  }

  /** Items lacking the `benchmark` key are never returned. */
  lemma FilterItemsMissingKey(xs: seq<Json>, b: string, i: nat)
    requires i < |xs| && xs[i].Obj? && !HasKey(xs[i].fields, "benchmark")
    requires FilterItems(xs, b).Success?
    ensures xs[i] !in FilterItems(xs, b).value
  {
    FilterItemsExact(xs, b);
  }
}
