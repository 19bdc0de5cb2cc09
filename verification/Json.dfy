/** JSON values as the program holds them after `json.loads`, and dictionary access. */
module Json {
  datatype Json =
    | JNull
    | JBool(flag: bool)
    | JInt(number: int)
    | JReal(decimal: real)
    | JStr(text: string)
    | JArr(items: seq<Json>)
    | JObj(entries: seq<Entry>)

  /** Dictionaries keep the order of their entries. */
  datatype Entry = Entry(key: string, value: Json)

  predicate HasKey(entries: seq<Entry>, key: string) {
    exists i | 0 <= i < |entries| :: entries[i].key == key
  }

  function Lookup(entries: seq<Entry>, key: string): (r: Json)
    ensures !HasKey(entries, key) ==> r == JNull
    ensures HasKey(entries, key) ==> exists i | 0 <= i < |entries| :: entries[i] == Entry(key, r)
  {
    if entries == [] then JNull
    else if entries[0].key == key then assert entries[0] == Entry(key, entries[0].value); entries[0].value
    else
      var r := Lookup(entries[1..], key);
      assert forall i | 0 <= i < |entries| - 1 :: entries[1..][i] == entries[i + 1];
      r
  }

  predicate Has(value: Json, key: string) {
    value.JObj? && HasKey(value.entries, key)
  }

  /** `value.get(key)` of a dictionary; JNull is None, and also stands for a value that is no dictionary. */
  function Get(value: Json, key: string): Json {
    if value.JObj? then Lookup(value.entries, key) else JNull
  }

  /** `bool(value)`: false for None, False, zero and whatever is empty. */
  predicate Truthy(value: Json): (truthy: bool)
    ensures !truthy <==> value in [JNull, JBool(false), JInt(0), JReal(0.0), JStr(""), JArr([]), JObj([])]
  {
    match value
    case JNull => false
    case JBool(flag) => flag
    case JInt(n) => n != 0
    case JReal(x) => x != 0.0
    case JStr(text) => text != ""
    case JArr(items) => items != []
    case JObj(entries) => entries != []
  }
}
