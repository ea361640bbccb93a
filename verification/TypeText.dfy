/** The TypeScript printer: type text from a node, as strings are put together. */
module TypeText {
  import opened Values
  import opened Folds
  import opened JsonText
  import opened Schema

  datatype Mode = Input | Output

  // ---- Looking for a union ----

  /** The locals of the character loop, or its early `return true`. */
  datatype Scanner = Scanning(depth: nat, inString: bool, escape: bool) | Found

  function ScanChar(s: Scanner, ch: char): Scanner {
    match s
    case Found => Found
    case Scanning(depth, inString, escape) =>
      if escape then Scanning(depth, inString, false)
      else if inString then
        if ch == '\\' then Scanning(depth, true, true)
        else if ch == '"' then Scanning(depth, false, false)
        else s
      else if ch == '"' then Scanning(depth, true, false)
      else if ch in "{([" then Scanning(depth + 1, false, false)
      else if ch in "})]" then Scanning(if depth == 0 then 0 else depth - 1, false, false)
      else if ch == '|' && depth == 0 then Found
      else s
  }

  function Scan(s: Scanner, expr: string): Scanner {
    Fold(ScanChar, s, expr)
  }

  const OUTSIDE := Scanning(0, false, false)

  predicate HasTopLevelUnion(expr: string) {
    Scan(OUTSIDE, expr).Found?
  }

  lemma {:induction false} FoundStays(b: string)
    ensures Scan(Found, b) == Found
  {
    if b != "" {
      FoundStays(Front(b));
    }
  }

  method FindTopLevelUnion(expr: string) returns (r: bool)
    ensures r == HasTopLevelUnion(expr)
  {
    var depth, inString, escape := 0, false, false;
    for i := 0 to |expr|
      invariant depth >= 0 && Scan(OUTSIDE, expr[..i]) == Scanning(depth, inString, escape)
    {
      var ch := expr[i];
      assert Front(expr[..i + 1]) == expr[..i] && LastOf(expr[..i + 1]) == ch;
      if escape {
        escape := false;
      } else if inString {
        if ch == '\\' {
          escape := true;
        } else if ch == '"' {
          inString := false;
        }
      } else if ch == '"' {
        inString := true;
      } else if ch == '{' || ch == '(' || ch == '[' {
        depth := depth + 1;
      } else if ch == '}' || ch == ')' || ch == ']' {
        depth := if depth - 1 > 0 then depth - 1 else 0;
      } else if ch == '|' && depth == 0 {
        assert expr == expr[..i + 1] + expr[i + 1..];
        FoldConcat(ScanChar, OUTSIDE, expr[..i + 1], expr[i + 1..]);
        FoundStays(expr[i + 1..]);
        return true;
      }
    }
    assert expr[..|expr|] == expr;
    r := false;
  }

  // ---- Text of literals and keys ----

  /** `String(value)` of a number is left to `numberText`. */
  function FormatLiteral(numberText: real -> string, v: Value): string
    requires IsPrimitive(v)
  {
    match v
    case Str(s) => Stringified(s)
    case Null => "null"
    case Num(x) => numberText(x)
    case Bool(b) => if b then "true" else "false"
  }

  predicate IsIdentifier(s: string) {
    s != "" && IsLetter(s[0]) && forall c | c in s :: IsLetter(c) || IsDigit(c)
  }

  function FormatPropertyKey(key: string): string {
    if IsIdentifier(key) then key else Stringified(key)
  }

  // ---- Type expressions ----

  /** What the printer is given: literals and enum members are primitives, and enums have one. */
  predicate IsPrintable(n: Node) {
    match n.kind
    case Literal(x) => IsPrimitive(x)
    case Enum(values) => values != [] && forall x | x in values :: IsPrimitive(x)
    case ArrayOf(e) => IsPrintable(e)
    case ObjectOf(fields, order, _) =>
      (forall k | k in order :: k in fields) && forall k | k in fields :: IsPrintable(fields[k])
    case _ => true
  }

  function Or(inner: string, flag: bool, word: string): string {
    if flag then inner + " | " + word else inner
  }

  /** Optional, and not filled by a default in this mode. */
  predicate MayBeUndefined(m: Modifiers, mode: Mode) {
    m.optional && !(m.default.Some? && mode.Output?)
  }

  function TypeExpression(numberText: real -> string, n: Node, mode: Mode, depth: nat): string
    requires IsPrintable(n)
    decreases n, 1
  {
    var nullable := Or(BareType(numberText, n, mode, depth), n.mods.nullable, "null");
    Or(nullable, MayBeUndefined(n.mods, mode), "undefined")
  }

  function BareType(numberText: real -> string, n: Node, mode: Mode, depth: nat): string
    requires IsPrintable(n)
    decreases n, 0
  {
    match n.kind
    case StringKind => "string"
    case NumberKind => "number"
    case BooleanKind => "boolean"
    case Literal(x) => FormatLiteral(numberText, x)
    case Enum(values) => EnumText(numberText, values)
    case ArrayOf(e) =>
      var element := TypeExpression(numberText, e, mode, depth);
      if HasTopLevelUnion(element) then "(" + element + ")[]" else element + "[]"
    case ObjectOf(_, order, _) =>
      if order == [] then "{}"
      else "{\n" + FieldLines(numberText, n, order, mode, depth) + "\n" + Indent(depth) + "}"
  }

  /** Members joined by ` | `. */
  function EnumText(numberText: real -> string, values: seq<Json>): string
    requires values != [] && forall x | x in values :: IsPrimitive(x)
  {
    if |values| == 1 then FormatLiteral(numberText, values[0])
    else EnumText(numberText, Front(values)) + " | " + FormatLiteral(numberText, LastOf(values))
  }

  /** Two spaces for each level. */
  function Indent(depth: nat): string {
    if depth == 0 then "" else Indent(depth - 1) + "  "
  }

  function FieldLines(numberText: real -> string, n: Node, keys: seq<string>, mode: Mode, depth: nat): string
    requires n.kind.ObjectOf? && IsPrintable(n) && keys != [] && forall k | k in keys :: k in n.kind.fields
    decreases n, 0, |keys|
  {
    var line := FieldLine(numberText, n, LastOf(keys), mode, depth);
    if |keys| == 1 then line else FieldLines(numberText, n, Front(keys), mode, depth) + "\n" + line
  }

  /** `?` when the key may be absent in this mode. */
  predicate IsOptionalField(m: Modifiers, mode: Mode) {
    m.optional && (m.default.Some? ==> mode.Input?)
  }

  function FieldLine(numberText: real -> string, n: Node, key: string, mode: Mode, depth: nat): string
    requires n.kind.ObjectOf? && IsPrintable(n) && key in n.kind.fields
    decreases n, 0, 0
  {
    var field, indent := n.kind.fields[key], Indent(depth + 1);
    var typeExpr := Or(BareType(numberText, field, mode, depth + 1), field.mods.nullable, "null");
    FieldDoc(field, indent) + FieldText(indent, key, IsOptionalField(field.mods, mode), typeExpr)
  }

  function FieldText(indent: string, key: string, optional: bool, typeExpr: string): string {
    indent + FormatPropertyKey(key) + (if optional then "?" else "") + ": " + typeExpr + ";"
  }

  function FieldDoc(field: Node, indent: string): string {
    var described := if field.meta.description.Some? && field.meta.description.value != ""
                     then [field.meta.description.value] else [];
    var lines := described + if field.meta.deprecated == Some(true) then ["@deprecated"] else [];
    if lines == [] then ""
    else indent + "/**\n" + DocLines(lines, indent) + "\n" + indent + " */\n"
  }

  function DocLines(lines: seq<string>, indent: string): string
    requires lines != []
  {
    var line := indent + " * " + LastOf(lines);
    if |lines| == 1 then line else DocLines(Front(lines), indent) + "\n" + line
  }
}
