/** JSON values as the backend handles them after `json.load`; an object is a
    dictionary of its fields (see `PyDict`). */
module PyJson {
  import opened Wrappers
  import opened Decimals
  import opened PyStr
  import opened PyDict

  datatype Json =
    | Null
    | Bool(b: bool)
    | Num(n: Decimal)
    | Str(s: string)
    | Arr(items: seq<Json>)
    | Obj(fields: seq<(string, Json)>)

  type JsonDict = Dict<string, Json>

  /** Python truthiness: `None`, `False`, zero and empty containers are false. */
  predicate Truthy(j: Json) {
    match j
    case Null => false
    case Bool(b) => b
    case Num(n) => n.units != 0
    case Str(s) => s != []
    case Arr(items) => items != []
    case Obj(fields) => fields != []
  }

  /** `float(v)` on a JSON value: numbers as they are, booleans as 1 and 0, strings
      as `float` parses them; `None`, lists and dicts raise (`None` here). */
  function ToFloat(j: Json): (r: Option<Decimal>)
    ensures j.Num? ==> r == Some(j.n)
    ensures j.Null? || j.Arr? || j.Obj? ==> r.None?
  {
    match j
    case Num(n) => Some(n)
    case Bool(b) => Some(Decimal(if b then 1 else 0, 0))
    case Str(s) => ParseFloat(s)
    case _ => None
  }

  /** What iterating `j` yields when it is handed to `' '.join`: the strings of a
      list of strings, the characters of a string, the keys of a dict. Anything
      else (numbers, booleans, `None`, lists with a non-string) makes the join
      raise (`None` here). */
  function TokenList(j: Json): (r: Option<seq<string>>)
    ensures j.Arr? ==> (r.Some? <==> forall i | 0 <= i < |j.items| :: j.items[i].Str?)
    ensures j.Arr? && r.Some? ==> |r.value| == |j.items| && forall i | 0 <= i < |j.items| :: r.value[i] == j.items[i].s
    ensures j.Str? ==> r == Some(Chars(j.s))
    ensures j.Obj? ==> r == Some(Keys(j.fields))
    ensures j.Null? || j.Bool? || j.Num? ==> r.None?
  {
    match j
    case Arr(items) => StringItems(items)
    case Str(s) => Some(Chars(s))
    case Obj(fields) => Some(Keys(fields))
    case _ => None
  }

  function StringItems(items: seq<Json>): (r: Option<seq<string>>)
    ensures r.Some? <==> forall i | 0 <= i < |items| :: items[i].Str?
    ensures r.Some? ==> |r.value| == |items| && forall i | 0 <= i < |items| :: r.value[i] == items[i].s
  {
    if items == [] then Some([])
    else if !items[0].Str? then None
    else match StringItems(items[1..]) {
      case None => None
      case Some(rest) => Some([items[0].s] + rest)
    }
  }

  /** A list of numbers as JSON. */
  function NumArr(xs: seq<Decimal>): (r: Json)
    ensures r.Arr? && |r.items| == |xs| && forall i | 0 <= i < |xs| :: r.items[i] == Num(xs[i])
  {
    Arr(seq(|xs|, i requires 0 <= i < |xs| => Num(xs[i])))
  }

  /** A list of strings as JSON. */
  function StrArr(xs: seq<string>): (r: Json)
    ensures r.Arr? && |r.items| == |xs| && forall i | 0 <= i < |xs| :: r.items[i] == Str(xs[i])
  {
    Arr(seq(|xs|, i requires 0 <= i < |xs| => Str(xs[i])))
  }
}
