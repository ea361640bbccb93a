/** JSON documents: their text, compact or indented, and a reader that gets them back. */
module Json {
  import opened Values
  import opened JsonText
  import opened Lexing

  /** A JSON document with its keys in order. A number is the text JavaScript prints for it; `JUndefined` is a property
      value that is dropped. */
  datatype Tree =
    | JUndefined
    | JNull
    | JBool(flag: bool)
    | JNumber(digits: string)
    | JText(text: string)
    | JArray(items: seq<Tree>)
    | JObject(props: seq<Prop>)

  datatype Prop = Prop(key: string, value: Tree)

  // ---- Numbers (RFC 8259 section 6) ----

  /** How many digits `s` begins with. */
  function Digits(s: string): (n: nat)
    ensures n <= |s| && forall i | 0 <= i < n :: IsDigit(s[i])
  {
    if s == "" || !IsDigit(s[0]) then 0
    else
      assert forall i | 0 <= i < |s[1..]| :: s[1..][i] == s[i + 1];
      1 + Digits(s[1..])
  }

  predicate IsExponent(s: string) {
    s == "" ||
    ((s[0] == 'e' || s[0] == 'E') &&
     var power := if |s| > 1 && (s[1] == '+' || s[1] == '-') then s[2..] else s[1..];
     power != "" && Digits(power) == |power|)
  }

  predicate IsFraction(s: string) {
    if s != "" && s[0] == '.' then var n := Digits(s[1..]); n > 0 && IsExponent(s[1..][n..]) else IsExponent(s)
  }

  predicate IsNumberWord(s: string) {
    var absolute := if s != "" && s[0] == '-' then s[1..] else s;
    var n := Digits(absolute);
    IsWordText(s) && n > 0 && (absolute[0] == '0' ==> n == 1) && IsFraction(absolute[n..])
  }

  lemma NumberOpens(s: string)
    requires IsNumberWord(s)
    ensures s != "" && (s[0] == '-' || IsDigit(s[0]))
  {
  }

  lemma {:induction false} DigitsOfDigits(s: string)
    requires forall c | c in s :: IsDigit(c)
    ensures Digits(s) == |s|
  {
    if s != "" {
      assert s[0] in s && forall c | c in s[1..] :: c in s;
      DigitsOfDigits(s[1..]);
    }
  }

  /** Digits without a leading zero are a number. */
  lemma WholeNumber(s: string)
    requires s != "" && (forall c | c in s :: IsDigit(c)) && (|s| > 1 ==> s[0] != '0')
    ensures IsNumberWord(s)
  {
    assert s[0] in s;
    DigitsOfDigits(s);
    assert s[|s|..] == "";
  }

  /** A document `JSON.stringify` writes whole. */
  predicate IsDocument(t: Tree) {
    match t
    case JUndefined => false
    case JNumber(digits) => IsNumberWord(digits)
    case JArray(items) => forall x | x in items :: IsDocument(x)
    case JObject(props) => forall p | p in props :: IsDocument(p.value)
    case _ => true
  }

  // ---- Text ----

  /** Between two parts: nothing, or a new line indented by two spaces for each level. */
  function Gap(pretty: bool, depth: nat): string {
    if pretty then "\n" + Spaces(2 * depth) else ""
  }

  /** `JSON.stringify(t)`, or `JSON.stringify(t, null, 2)`. */
  function Text(t: Tree, pretty: bool, depth: nat): string
    decreases t
  {
    match t
    case JUndefined => ""
    case JNull => "null"
    case JBool(b) => if b then "true" else "false"
    case JNumber(digits) => digits
    case JText(s) => Stringified(s)
    case JArray(items) =>
      if items == [] then "[]"
      else "[" + Gap(pretty, depth + 1) + ItemsText(items, pretty, depth + 1) + Gap(pretty, depth) + "]"
    case JObject(props) =>
      if props == [] then "{}"
      else "{" + Gap(pretty, depth + 1) + PropsText(props, pretty, depth + 1) + Gap(pretty, depth) + "}"
  }

  function ItemsText(items: seq<Tree>, pretty: bool, depth: nat): string
    requires items != []
    decreases items
  {
    if |items| == 1 then Text(items[0], pretty, depth)
    else Text(items[0], pretty, depth) + ("," + Gap(pretty, depth) + ItemsText(items[1..], pretty, depth))
  }

  function PropsText(props: seq<Prop>, pretty: bool, depth: nat): string
    requires props != []
    decreases props
  {
    if |props| == 1 then PropText(props[0], pretty, depth)
    else PropText(props[0], pretty, depth) + ("," + Gap(pretty, depth) + PropsText(props[1..], pretty, depth))
  }

  function PropText(p: Prop, pretty: bool, depth: nat): string
    decreases p
  {
    Stringified(p.key) + (if pretty then ": " else ":") + Text(p.value, pretty, depth)
  }

  // ---- Tokens ----

  function Tokens(t: Tree): seq<Token>
    decreases t
  {
    match t
    case JUndefined => []
    case JNull => [WordToken("null")]
    case JBool(b) => [WordToken(if b then "true" else "false")]
    case JNumber(digits) => [WordToken(digits)]
    case JText(s) => [TextToken(s)]
    case JArray(items) => [Punct('[')] + ItemTokens(items) + [Punct(']')]
    case JObject(props) => [Punct('{')] + PropTokens(props) + [Punct('}')]
  }

  function ItemTokens(items: seq<Tree>): seq<Token>
    decreases items
  {
    if items == [] then []
    else if |items| == 1 then Tokens(items[0])
    else Tokens(items[0]) + ([Punct(',')] + ItemTokens(items[1..]))
  }

  function PropTokens(props: seq<Prop>): seq<Token>
    decreases props
  {
    if props == [] then []
    else if |props| == 1 then OnePropTokens(props[0])
    else OnePropTokens(props[0]) + ([Punct(',')] + PropTokens(props[1..]))
  }

  function OnePropTokens(p: Prop): seq<Token>
    decreases p
  {
    [TextToken(p.key), Punct(':')] + Tokens(p.value)
  }

  // ---- Reading ----

  function WordValue(w: string): Option<Tree> {
    if w == "null" then Some(JNull)
    else if w == "true" then Some(JBool(true))
    else if w == "false" then Some(JBool(false))
    else if IsNumberWord(w) then Some(JNumber(w))
    else None
  }

  function ParseValue(ts: seq<Token>): (r: Parsed<Tree>)
    ensures r.Some? ==> |r.value.1| < |ts|
    decreases |ts|, 0
  {
    if ts == [] then None
    else
      match ts[0]
      case WordToken(w) =>
        (match WordValue(w)
         case None => None
         case Some(t) => Some((t, ts[1..])))
      case TextToken(s) => Some((JText(s), ts[1..]))
      case CommentToken => None
      case Punct(c) =>
        if c == '[' then
          if StartsWith(ts[1..], ']') then Some((JArray([]), ts[2..]))
          else
            match ParseItems([], ts[1..])
            case None => None
            case Some((items, rest)) => Some((JArray(items), rest))
        else if c == '{' then
          if StartsWith(ts[1..], '}') then Some((JObject([]), ts[2..]))
          else
            match ParseProps([], ts[1..])
            case None => None
            case Some((props, rest)) => Some((JObject(props), rest))
        else None
  }

  function ParseItems(items: seq<Tree>, ts: seq<Token>): (r: Parsed<seq<Tree>>)
    ensures r.Some? ==> |r.value.1| < |ts|
    decreases |ts|, 1
  {
    match ParseValue(ts)
    case None => None
    case Some((t, rest)) =>
      if StartsWith(rest, ',') then ParseItems(items + [t], rest[1..])
      else if StartsWith(rest, ']') then Some((items + [t], rest[1..]))
      else None
  }

  function ParseProps(props: seq<Prop>, ts: seq<Token>): (r: Parsed<seq<Prop>>)
    ensures r.Some? ==> |r.value.1| < |ts|
    decreases |ts|, 1
  {
    if ts == [] || !ts[0].TextToken? || !StartsWith(ts[1..], ':') then None
    else
      match ParseValue(ts[2..])
      case None => None
      case Some((t, rest)) =>
        var more := props + [Prop(ts[0].text, t)];
        if StartsWith(rest, ',') then ParseProps(more, rest[1..])
        else if StartsWith(rest, '}') then Some((more, rest[1..]))
        else None
  }

  /** `JSON.parse`, `None` where it throws. */
  function ReadJson(s: string): Option<Tree> {
    match Lex(s)
    case None => None
    case Some(ts) =>
      match ParseValue(ts)
      case None => None
      case Some((t, rest)) => if rest == [] then Some(t) else None
  }

  // ---- Properties ----

  /** `obj[key]` of a parsed object: of equal keys the last. */
  function PropOf(props: seq<Prop>, key: string): Tree {
    if props == [] then JUndefined
    else if LastOf(props).key == key then LastOf(props).value
    else PropOf(Front(props), key)
  }

  lemma {:induction false} PropOfLast(props: seq<Prop>, i: nat)
    requires i < |props| && forall j | i < j < |props| :: props[j].key != props[i].key
    ensures PropOf(props, props[i].key) == props[i].value
    decreases |props|
  {
    if i < |props| - 1 {
      PropOfLast(Front(props), i);
    }
  }

  lemma {:induction false} PropOfAppend(a: seq<Prop>, b: seq<Prop>, key: string)
    requires forall p | p in b :: p.key != key
    ensures PropOf(a + b, key) == PropOf(a, key)
  {
    if b == [] {
      assert a + b == a;
    } else {
      assert Front(a + b) == a + Front(b) && LastOf(a + b) == LastOf(b);
      assert LastOf(b) in b && forall p | p in Front(b) :: p in b;
      PropOfAppend(a, Front(b), key);
    }
  }
}
