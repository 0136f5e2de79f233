/** What several of the models need. */
module Prelude {
  datatype Option<+T> = None | Some(value: T)

  predicate StartsWith(s: string, prefix: string) { prefix <= s }

  /** White space as the language of the source has it, without the line feed. */
  predicate IsSpace(c: char) {
    c == ' ' || c == '\t' || c == '\U{000B}' || c == '\U{000C}' || c == '\U{00A0}' || c == '\U{1680}'
    || ('\U{2000}' <= c <= '\U{200A}') || EndsLine(c) || c == '\U{202F}' || c == '\U{205F}' || c == '\U{3000}'
    || c == '\U{FEFF}'
  }

  /** The characters besides the line feed that a dot in a regular expression does not match. */
  predicate EndsLine(c: char) { c == '\r' || c == '\U{2028}' || c == '\U{2029}' }

  /** The parts as one string, with the separator between them. */
  function Joined(parts: seq<string>, sep: string): string {
    if parts == [] then ""
    else if |parts| == 1 then parts[0]
    else parts[0] + sep + Joined(parts[1..], sep)
  }

  function Max(a: int, b: int): int { if a >= b then a else b }
}
