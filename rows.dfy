// Rows as the host's `asMappedResults()` returns them, and the outcome of one call
// into the host's query primitive.

module Rows {
  import opened Text

  datatype Option<T> = None | Some(value: T)

  /** A value, or the message of the error thrown instead. */
  datatype Result<T> = Ok(value: T) | Err(message: string)

  /** A scalar column value of a mapped result row. */
  datatype Value = Str(s: string) | Num(n: int) | Bool(b: bool) | Null

  /** A mapped result row: its (column, value) pairs in `Object.keys` order. */
  type Row = seq<(string, Value)>

  /** `Object.keys(row)`. */
  function Keys(row: Row): (ks: seq<string>)
    ensures |ks| == |row|
    ensures forall i :: 0 <= i < |row| ==> ks[i] == row[i].0
  {
    if row == [] then [] else [row[0].0] + Keys(row[1..])
  }

  /** `row[key]`: the value of the first pair named `key`, or None where JavaScript gives `undefined`. */
  function Lookup(row: Row, key: string): (r: Option<Value>)
    ensures r.None? <==> key !in Keys(row)
  {
    if row == [] then None
    else if row[0].0 == key then Some(row[0].1)
    else Lookup(row[1..], key)
  }

  /** The value found is that of the first pair named `key`: later duplicates are shadowed. */
  lemma {:induction false} LookupFindsFirst(row: Row, key: string, i: nat)
    requires i < |row| && row[i].0 == key
    requires forall j :: 0 <= j < i ==> row[j].0 != key
    ensures Lookup(row, key) == Some(row[i].1)
  {
    if i > 0 {
      LookupFindsFirst(row[1..], key, i - 1);
    }
  }

  /** `String(v)` / `v.toString()` for a non-null value; a null concatenated into a string reads `null`. */
  function ValueString(v: Value): string
  {
    match v
    case Str(s) => s
    case Num(n) => IntToString(n)
    case Bool(b) => if b then "true" else "false"
    case Null => "null"
  }

  /** `v ?? ''` and `v != null ? v.toString() : ''`: null and undefined both become the empty text. */
  function TextOrEmpty(v: Option<Value>): (t: string)
    ensures v.None? || v.value.Null? ==> t == ""
    ensures v.Some? && !v.value.Null? ==> t == ValueString(v.value)
  {
    match v
    case None => ""
    case Some(Null) => ""
    case Some(x) => ValueString(x)
  }

  /** One call into the host's query primitive: the mapped rows, or the message of what it threw. */
  datatype Fetch = Page(rows: seq<Row>) | Thrown(message: string)

  /** The host's `query.runSuiteQL`, as seen through the SQL text it is given. */
  type Executor = string -> Fetch
}
