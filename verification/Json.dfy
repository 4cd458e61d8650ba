/** JSON documents as the Go code sees them after decoding into `any`.

A JSON null, a Go nil and a missing map entry read through `m[key]` are all the same value there,
so all three are `Null` here. Numbers are reals: rounding is not modelled. */
module Json {

  type Fields = map<string, Json>

  datatype Json =
    | Null
    | Bool(b: bool)
    | Num(n: real)
    | Str(s: string)
    | Arr(items: seq<Json>)
    | Obj(fields: Fields)

  datatype Option<+T> = None | Some(value: T)

  /** `m[key]` in Go: the value, or nil when the key is missing. */
  function Field(f: Fields, key: string): Json {
    if key in f then f[key] else Null
  }

  /** The fields of an object; every other value has none (a nil map in Go). */
  function FieldsOf(j: Json): Fields {
    if j.Obj? then j.fields else map[]
  }

  /** The items of an array; every other value has none. */
  function ItemsOf(j: Json): seq<Json> {
    if j.Arr? then j.items else []
  }

  predicate IsTrue(j: Json) {
    j == Bool(true)
  }

  /** A document and everything nested in it, a finite set. */
  function SubValues(j: Json): (r: set<Json>)
    ensures j in r
  {
    {j} + match j
    case Arr(items) => set i, x | 0 <= i < |items| && x in SubValues(items[i]) :: x
    case Obj(f) => set k, x | k in f && x in SubValues(f[k]) :: x
    case _ => {}
  }

  lemma FieldInside(j: Json, key: string)
    requires j.Obj? && key in j.fields
    ensures j.fields[key] in SubValues(j)
  {
    assert j.fields[key] in SubValues(j.fields[key]);
  }

  lemma {:induction false} SubValuesTransitive(j: Json, x: Json)
    requires x in SubValues(j)
    ensures SubValues(x) <= SubValues(j)
    decreases j
  {
    if x != j {
      match j
      case Arr(items) =>
        var i :| 0 <= i < |items| && x in SubValues(items[i]);
        SubValuesTransitive(items[i], x);
      case Obj(f) =>
        var k :| k in f && x in SubValues(f[k]);
        SubValuesTransitive(f[k], x);
    }
  }

  /** Every entry of an object nested in a document is nested in the document. */
  lemma ChildInside(doc: Json, x: Json, key: string)
    requires x in SubValues(doc) && x.Obj? && key in x.fields
    ensures x.fields[key] in SubValues(doc)
  {
    FieldInside(x, key);
    SubValuesTransitive(doc, x);
  }
}
