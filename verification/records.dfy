/**
 The decoded JSON payload as the page reads it: a flat object whose fields are
 looked up by name. Only string-valued fields are modelled; a missing field is
 `undefined`.
 */
module Records {

  type Record = map<string, string>

  /** JavaScript truthiness of `data[key]`: the field is present and is not the empty string. */
  predicate Truthy(rec: Record, key: string) {
    key in rec && rec[key] != ""
  }

  /** The text a field contributes to the page: its value when truthy, nothing otherwise. */
  function Field(rec: Record, key: string): (text: string)
    ensures text != "" <==> Truthy(rec, key)
    ensures Truthy(rec, key) ==> text == rec[key]
  {
    if key in rec then rec[key] else ""
  }

  /**
   The truthiness table of a string-valued field: `undefined` (a missing field)
   and `""` are falsy, every other string is truthy, and writing another
   field of the payload does not change the answer.
   */
  lemma TruthyTable(rec: Record, key: string, other: string, value: string)
    ensures key !in rec ==> !Truthy(rec, key)
    ensures !Truthy(rec[key := ""], key)
    ensures Truthy(rec[key := value], key) <==> value != ""
    ensures other != key ==> (Truthy(rec[other := value], key) <==> Truthy(rec, key))
  {
  }
}
