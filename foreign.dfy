/**
 * Behaviour of code the core calls but does not contain: Python's `float()`
 * and `str()`, `json.loads`, `pandas.read_csv`, `csv.DictReader`,
 * `hl7.parse`, the clock and the FHIR resource constructors. Each is a
 * parameter of the model, so every result proved holds for any behaviour
 * of these libraries.
 */
module Foreign {
  import opened Wrappers
  import opened Values

  datatype Library = Library(
    /** `float(s)` on a string; `None` where it raises `ValueError` */
    parseFloat: string -> Option<real>,
    /** `str(v)` / f-string formatting of a value that is not a string */
    show: Value -> string,
    /** `json.loads`; `None` where it raises `JSONDecodeError` */
    loadsJson: string -> Option<Value>,
    /** `pd.read_csv(...).iterrows()` as row maps; `None` where pandas raises */
    readCsvFrame: string -> Option<seq<Row>>,
    /** `csv.DictReader` rows; `None` where the reader raises */
    readDictRows: string -> Option<seq<Row>>,
    /** `hl7.parse(text).segments()`; `None` where the library raises */
    decodeHl7: string -> Option<seq<Segment>>,
    /**
     * `datetime.now().isoformat()` as read for the `k`-th OBX record of the
     * `i`-th message: `now(i, k)`; every call is a reading of its own
     */
    now: (nat, nat) -> string,
    /** `build_fhir_output`'s `Observation.construct` / `DiagnosticReport.construct` pair */
    constructFhir: Value -> Value
  )

  /** `f"{v}"`: a string stands for itself, anything else is formatted by `str()`. */
  function Text(v: Value, lib: Library): string {
    if v.Str? then v.s else lib.show(v)
  }

  /** `float(v)`; `None` where Python raises `ValueError` or `TypeError`. */
  function Float(v: Value, lib: Library): Option<real> {
    match v
    case Num(n) => Some(n)
    case Str(s) => lib.parseFloat(s)
    case Bool(b) => Some(if b then 1.0 else 0.0)
    case _ => None
  }
}
