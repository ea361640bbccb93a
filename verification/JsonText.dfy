/** Characters, spaces, and string literals as `JSON.stringify` writes them. */
module JsonText {
  import opened Values

  predicate IsLetter(c: char) {
    'a' <= c <= 'z' || 'A' <= c <= 'Z' || c == '_' || c == '$'
  }

  predicate IsDigit(c: char) {
    '0' <= c <= '9'
  }

  const HEX_DIGITS := "0123456789abcdef"

  /** One character inside `JSON.stringify(text)` (RFC 8259 section 7). */
  function EscapeChar(c: char): string {
    var n := c as int;
    if c == '"' then "\\\""
    else if c == '\\' then "\\\\"
    else if n == 8 then "\\b"
    else if n == 9 then "\\t"
    else if n == 10 then "\\n"
    else if n == 12 then "\\f"
    else if n == 13 then "\\r"
    else if n < 0x20 then "\\u00" + [HEX_DIGITS[n / 16], HEX_DIGITS[n % 16]]
    else [c]
  }

  function Escaped(s: string): string {
    if s == "" then "" else Escaped(Front(s)) + EscapeChar(LastOf(s))
  }

  function Stringified(s: string): string {
    "\"" + Escaped(s) + "\""
  }

  function Spaces(n: nat): string {
    if n == 0 then "" else Spaces(n - 1) + " "
  }

  lemma {:induction false} SpacesAreSpaces(n: nat)
    ensures |Spaces(n)| == n && forall c | c in Spaces(n) :: c == ' '
  {
    if n > 0 {
      SpacesAreSpaces(n - 1);
    }
  }
}
