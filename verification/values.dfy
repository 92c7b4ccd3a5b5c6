/**
 * The dictionary-shaped records the reconciliation step works on: a game
 * record is a map from field names to JSON-like values, as the offer feed,
 * the local JSON file and the Firestore document all deliver them.
 */
module Values {
  import opened Wrappers

  /** A JSON-like field value. `Other` stands for any scalar that is neither
      null, a boolean, an integer nor a string (floats, timestamps, ...). */
  datatype Value =
    | Null
    | Bool(b: bool)
    | Int(i: int)
    | Str(s: string)
    | List(items: seq<Value>)
    | Dict(fields: map<string, Value>)
    | Other(repr: string)

  /** One game (or offer) record. */
  type Record = map<string, Value>

  /** The errors `main()` can raise inside the modelled lines: a `KeyError`
      for a missing field, and a `TypeError` when an id is used as a set
      element or dictionary key but is a list or a dictionary. */
  datatype RunError = MissingKey(key: string) | UnhashableId

  /** The field holding the stable offer identifier. */
  const IdKey: string := "gamerpower_id"

  /** The field holding the raw offer title. */
  const TitleKey: string := "title"

  /** Python's `x in [None, "", [], {}]`: the values the merge treats as
      "nothing recorded". Every other value, `0` and `False` included, is
      a real value. */
  predicate IsBlank(v: Value) {
    v == Null || v == Str("") || v == List([]) || v == Dict(map[])
  }

  /** Falsy-looking values that are not in the blank list still count as
      recorded: zero, `False`, a blank-looking string and a list holding a
      null. */
  lemma ZeroAndFalseAreNotBlank()
    ensures !IsBlank(Int(0)) && !IsBlank(Bool(false))
    ensures !IsBlank(Str(" ")) && !IsBlank(List([Null]))
    ensures IsBlank(Null) && IsBlank(Str("")) && IsBlank(List([])) && IsBlank(Dict(map[]))
  {
  }

  /** Whether Python can hash the value (lists and dictionaries cannot). */
  predicate Hashable(v: Value) {
    !v.List? && !v.Dict?
  }

  /** `g["gamerpower_id"]`, used where it is then hashed (a set element, a
      dictionary key or an `in` test on a dictionary). */
  function IdOf(g: Record): (r: Result<Value, RunError>)
    ensures r.Success? <==> IdKey in g && Hashable(g[IdKey])
    ensures r.Success? ==> r.value == g[IdKey]
    ensures IdKey !in g ==> r == Failure(MissingKey(IdKey))
    ensures IdKey in g && !Hashable(g[IdKey]) ==> r == Failure(UnhashableId)
  {
    if IdKey !in g then Failure(MissingKey(IdKey))
    else if !Hashable(g[IdKey]) then Failure(UnhashableId)
    else Success(g[IdKey])
  }
}
