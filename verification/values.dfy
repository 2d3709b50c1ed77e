/**
 * The JSON-like values the backend keeps in its job table and its record list: both are
 * Python dicts from field names to values.
 */
module Values {
  import opened Wrappers
  import opened Text

  /** A stored value. Lists and floating-point numbers are not modelled. */
  datatype Value = Null | Bool(b: bool) | Int(i: int) | Str(s: string) | Dict(fields: map<string, Value>)

  /** A dict with string keys: a job state or a video record. */
  type Fields = map<string, Value>

  /** dict.get(key, default). */
  function Get(fields: Fields, key: string, default: Value): (v: Value)
    ensures key in fields ==> v == fields[key]
    ensures key !in fields ==> v == default
  {
    if key in fields then fields[key] else default
  }

  /** Python truthiness: None, False, 0, "" and {} are false. */
  predicate Truthy(v: Value)
    ensures !Truthy(v) <==> v == Null || v == Bool(false) || v == Int(0) || v == Str("") || v == Dict(map[])
  {
    match v
    case Null => false
    case Bool(b) => b
    case Int(i) => i != 0
    case Str(s) => s != []
    case Dict(fields) => fields != map[]
  }

  /**
   * int(value) as the backend applies it to a stored count: an integer as it is, a
   * boolean as 0 or 1, a string of decimal digits as its number. Anything else makes
   * int() raise, which is None here.
   */
  function IntOf(v: Value): (n: Option<int>)
    ensures v.Int? ==> n == Some(v.i)
    ensures v.Bool? ==> n == Some(if v.b then 1 else 0)
    ensures v.Str? ==> (n.Some? <==> v.s != [] && AllDigits(v.s))
    ensures v.Str? && n.Some? ==> n.value == DigitsValue(v.s) >= 0
    ensures v.Null? || v.Dict? ==> n.None?
  {
    match v
    case Int(i) => Some(i)
    case Bool(b) => Some(if b then 1 else 0)
    case Str(s) => if s != [] && AllDigits(s) then Some(DigitsValue(s)) else None
    case _ => None
  }

  /** A count written out in decimal reads back as the count. */
  lemma IntOfDecimal(n: nat)
    ensures IntOf(Str(NatToString(n))) == Some(n)
  {
  }

  /** record.get("id") == record_id for a string id. */
  predicate HasId(record: Fields, id: string)
  {
    "id" in record && record["id"] == Str(id)
  }

  /** The position of the first record with the given id, as next(...) over the list finds it. */
  function FirstWithId(records: seq<Fields>, id: string): (index: Option<nat>)
    ensures index.Some? ==> index.value < |records| && HasId(records[index.value], id)
    ensures index.Some? ==> forall j :: 0 <= j < index.value ==> !HasId(records[j], id)
    ensures index.None? <==> forall j :: 0 <= j < |records| ==> !HasId(records[j], id)
  {
    if records == [] then None
    else if HasId(records[0], id) then Some(0)
    else
      match FirstWithId(records[1..], id)
      case None =>
        assert forall j :: 1 <= j < |records| ==> records[j] == records[1..][j - 1];
        None
      case Some(k) =>
        assert forall j :: 1 <= j < k + 1 ==> records[j] == records[1..][j - 1];
        Some(k + 1)
  }

  /** A search that stops at index i found the first record with the id. */
  lemma FirstWithIdAt(records: seq<Fields>, id: string, i: nat)
    requires i < |records| && HasId(records[i], id)
    requires forall j :: 0 <= j < i ==> !HasId(records[j], id)
    ensures FirstWithId(records, id) == Some(i)
  {
    var found := FirstWithId(records, id);
    assert found.Some?;
    assert found.value <= i;
  }
}
