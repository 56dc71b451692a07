/**
 * The built-ins the engine calls but does not implement: `RegExp`
 * construction and `test`, `JSON.parse`, `JSON.stringify` and the printing
 * of dates. They are given to the model as a `Host`, a record of total
 * functions that every operation receives as a parameter, so that nothing
 * is assumed about them beyond their signatures.
 */
module Foreign {
  import opened Text
  import opened Values

  /** A compiled regular expression: its source text and its flags. */
  datatype Matcher = Matcher(source: string, flags: string)

  datatype Host = Host(
    /** `new RegExp(source, flags)` does not throw. */
    compiles: (string, string) -> bool,
    /** `regex.test(text)` on a freshly built regular expression. */
    test: (Matcher, string) -> bool,
    /** `JSON.parse(text)` does not throw. */
    parses: string -> bool,
    /** `JSON.stringify(value)`. */
    stringify: Value -> string,
    /** `String(date)` for a date given in milliseconds since the epoch. */
    dateText: int -> string,
    /** `date.toISOString()`. */
    isoText: int -> string)

  /** The text of `String(v)`. */
  function ToText(v: Value, host: Host): string
  {
    match v
    case Undef => "undefined"
    case Null => "null"
    case Bool(b) => if b then "true" else "false"
    case Num(n) => IntToString(n)
    case Str(s) => s
    case Date(t) => host.dateText(t)
    case Arr(xs) => ElementsText(xs, host)
    case Obj(_) => "[object Object]"
  }

  /** `Array.prototype.toString`: elements joined by ",", with null and undefined printed as "". */
  function ElementsText(xs: seq<Value>, host: Host): string
    decreases xs
  {
    if xs == [] then ""
    else
      var first := if xs[0].Undef? || xs[0].Null? then "" else ToText(xs[0], host);
      if |xs| == 1 then first else first + "," + ElementsText(xs[1..], host)
  }

  /** `String(v ?? "")`: the text a visibility condition is tested against. */
  function CoercedText(v: Value, host: Host): (t: string)
    ensures v.Undef? || v.Null? ==> t == ""
    ensures v.Str? ==> t == v.s
  {
    if v.Undef? || v.Null? then "" else ToText(v, host)
  }
}
