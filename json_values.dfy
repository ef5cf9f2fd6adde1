/** The dictionaries the backend builds for JSON serialization (`to_dict`),
    as a small JSON value type, with an Option type for lookups that may fail. */
module JsonValues {

  datatype Option<T> = None | Some(value: T)

  /** A JSON value. Numbers are exact reals; Python ints and floats both map here.
      An object keeps its keys in insertion order, as a Python dict does. */
  datatype Json =
    | JNull
    | JNum(num: real)
    | JStr(str: string)
    | JArr(items: seq<Json>)
    | JObj(fields: seq<(string, Json)>)

  /** `d[key]` for a dict: the value stored under the first occurrence of `key`. */
  function Get(j: Json, key: string): Option<Json>
  {
    match j
    case JObj(fields) => Lookup(fields, key)
    case _ => None
  }

  function Lookup(fields: seq<(string, Json)>, key: string): Option<Json>
  {
    if |fields| == 0 then None
    else if fields[0].0 == key then Some(fields[0].1)
    else Lookup(fields[1..], key)
  }

  /** The value stored under the first occurrence of a key. */
  lemma {:induction false} LookupAt(fields: seq<(string, Json)>, key: string, i: nat)
    requires i < |fields| && fields[i].0 == key
    requires forall j :: 0 <= j < i ==> fields[j].0 != key
    ensures Lookup(fields, key) == Some(fields[i].1)
  {
    if i > 0 {
      LookupAt(fields[1..], key, i - 1);
    }
  }

  /** A key no field carries is not found. */
  lemma {:induction false} LookupMissing(fields: seq<(string, Json)>, key: string)
    requires forall j :: 0 <= j < |fields| ==> fields[j].0 != key
    ensures Lookup(fields, key) == None
  {
    if |fields| > 0 {
      LookupMissing(fields[1..], key);
    }
  }

  /** A pair of numbers as a two-element JSON array (a Python tuple or list). */
  function PairToJson(p: (real, real)): Json {
    JArr([JNum(p.0), JNum(p.1)])
  }

  function PairFromJson(j: Json): (r: Option<(real, real)>)
    ensures r.Some? <==> j.JArr? && |j.items| == 2 && j.items[0].JNum? && j.items[1].JNum?
  {
    if j.JArr? && |j.items| == 2 && j.items[0].JNum? && j.items[1].JNum?
    then Some((j.items[0].num, j.items[1].num))
    else None
  }
}
