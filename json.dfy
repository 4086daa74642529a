/** JSON as far as the SSE bridge uses it. The server serialises one object
    shape, `{type: "response.output_text.delta", delta}`, which is spelled
    out here character by character the way `JSON.stringify` writes it. The
    client's `JSON.parse` is kept abstract: a `string -> Option<Payload>`
    parameter whose only assumed property is that it reads back what
    `JSON.stringify` wrote. */
module Json {
  import opened Options

  /** A property of a parsed object, as the client inspects it: missing
      (`undefined`), a string, or some other JSON value. */
  datatype Field = Absent | Str(s: string) | NonString

  /** The two properties of a parsed event the client reads, `type` and
      `delta`. */
  datatype Payload = Payload(kind: Field, delta: Field)

  /** The `type` of every text event on the wire. */
  const DeltaType: string := "response.output_text.delta"

  /** A lower-case hexadecimal digit. */
  function HexDigit(n: nat): char
    requires n < 16
  {
    if n < 10 then ('0' as int + n) as char else ('a' as int + n - 10) as char
  }

  /** How `JSON.stringify` writes one character inside a string literal:
      quote and backslash are escaped, the control characters below U+0020
      get a short escape or `\u00xx`, everything else is written as is. */
  function EscapeChar(c: char): (r: string)
    ensures '\n' !in r
    ensures |r| >= 1
  {
    if c == '"' then "\\\""
    else if c == '\\' then "\\\\"
    else if c as int == 0x08 then "\\b"
    else if c as int == 0x0C then "\\f"
    else if c == '\n' then "\\n"
    else if c == '\r' then "\\r"
    else if c == '\t' then "\\t"
    else if (c as int) < 0x20 then "\\u00" + [HexDigit((c as int) / 16), HexDigit((c as int) % 16)]
    else [c]
  }

  /** The escaped body of a string literal. */
  function Escape(s: string): (r: string)
    ensures '\n' !in r
  {
    if s == [] then "" else Escape(s[..|s| - 1]) + EscapeChar(s[|s| - 1])
  }

  /** `JSON.stringify(s)` for a string `s`. */
  function Quote(s: string): string {
    "\"" + Escape(s) + "\""
  }

  /** `JSON.stringify({type: "response.output_text.delta", delta: d})`. */
  function StringifyDelta(d: string): (r: string)
    ensures '\n' !in r
    ensures |r| >= 2 && r[0] == '{' && r[|r| - 1] == '}'
  {
    "{\"type\":" + Quote(DeltaType) + ",\"delta\":" + Quote(d) + "}"
  }

  /** `JSON.parse` reads back the payload of every serialised text event. */
  ghost predicate InvertsStringify(parse: string -> Option<Payload>) {
    forall d: string :: parse(StringifyDelta(d)) == Some(Payload(Str(DeltaType), Str(d)))
  }

  /** The client's acceptance test on a parsed event:
      `evt.type === 'response.output_text.delta' && typeof evt.delta === 'string'`. */
  function AcceptedDelta(p: Payload): (r: Option<string>)
    ensures r.Some? <==> p.kind == Str(DeltaType) && p.delta.Str?
    ensures r.Some? ==> p.delta == Str(r.value)
  {
    if p.kind == Str(DeltaType) && p.delta.Str? then Some(p.delta.s) else None
  }
}
