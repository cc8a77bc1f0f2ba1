/**
 * The loosely typed data the parsers exchange: Python dict/JSON values, the
 * row maps a CSV reader yields, and HL7 segments as an HL7 library splits them.
 */
module Values {
  import opened Wrappers

  /** A Python value as `json.loads` or a parser produces it. */
  datatype Value =
    | Null
    | Bool(b: bool)
    | Num(n: real)
    | Str(s: string)
    | Arr(items: seq<Value>)
    | Obj(fields: map<string, Value>)

  /** A raw record: a dict from field names to values. */
  type Record = map<string, Value>

  /** One CSV data row: column name to cell text. */
  type Row = map<string, string>

  /** An HL7 field: its repetitions/components, each as its text. */
  type Field = seq<string>

  /**
   * An HL7 segment: `id` is what `segment[0][0]` gives, `fields[k - 1]` is
   * `segment[k]`, so `len(segment)` is `|fields| + 1`.
   */
  datatype Segment = Segment(id: string, fields: seq<Field>)

  /** `d.get(key, default)` */
  function Get<V>(d: map<string, V>, key: string, default: V): V {
    if key in d then d[key] else default
  }

  /** Python truthiness of a value. */
  predicate Truthy(v: Value) {
    match v
    case Null => false
    case Bool(b) => b
    case Num(n) => n != 0.0
    case Str(s) => s != ""
    case Arr(items) => items != []
    case Obj(fields) => fields != map[]
  }

  /** `segment[k][0] if len(segment) > k and segment[k] else None`, for `k >= 1`. */
  function FirstItem(seg: Segment, k: nat): Option<string>
    requires k >= 1
  {
    if k <= |seg.fields| && seg.fields[k - 1] != [] then Some(seg.fields[k - 1][0]) else None
  }
}
