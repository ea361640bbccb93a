/** A reader for the printed subset of TypeScript: text to tokens, tokens to type trees. */
module TypeGrammar {
  import opened Values
  import opened JsonText
  import opened Lexing
  import opened TypeText

  // ---- Type trees ----

  datatype TypeTree =
    | Word(text: string)
    | TextLiteral(text: string)
    | ArrayType(element: TypeTree)
    | ObjectType(members: seq<Member>)
    | Union(branches: seq<TypeTree>)

  datatype Member = Member(key: string, optional: bool, tree: TypeTree)

  function MakeUnion(branches: seq<TypeTree>): TypeTree {
    if |branches| == 1 then branches[0] else Union(branches)
  }

  /** A union has two branches or more, and no union directly among them. */
  predicate IsTree(t: TypeTree) {
    match t
    case ArrayType(e) => IsTree(e)
    case ObjectType(ms) => forall m | m in ms :: IsTree(m.tree)
    case Union(bs) => |bs| >= 2 && forall b | b in bs :: IsTree(b) && !b.Union?
    case _ => true
  }

  // ---- Parsing ----

  /** `postfix ("|" postfix)*`. */
  function ParseType(ts: seq<Token>): (r: Parsed<TypeTree>)
    ensures r.Some? ==> |r.value.1| < |ts|
    decreases |ts|, 2
  {
    match ParsePostfix(ts)
    case None => None
    case Some((t, rest)) => ParseBranches([t], rest)
  }

  function ParseBranches(branches: seq<TypeTree>, ts: seq<Token>): (r: Parsed<TypeTree>)
    ensures r.Some? ==> |r.value.1| <= |ts|
    decreases |ts|, 0
  {
    if !StartsWith(ts, '|') then Some((MakeUnion(branches), ts))
    else
      match ParsePostfix(ts[1..])
      case None => None
      case Some((t, rest)) => ParseBranches(branches + [t], rest)
  }

  /** `primary ("[" "]")*`. */
  function ParsePostfix(ts: seq<Token>): (r: Parsed<TypeTree>)
    ensures r.Some? ==> |r.value.1| < |ts|
    decreases |ts|, 1
  {
    match ParsePrimary(ts)
    case None => None
    case Some((t, rest)) => Some(ParseBrackets(t, rest))
  }

  function ParseBrackets(t: TypeTree, ts: seq<Token>): (r: (TypeTree, seq<Token>))
    ensures |r.1| <= |ts|
    decreases |ts|
  {
    if |ts| >= 2 && ts[0] == Punct('[') && ts[1] == Punct(']') then ParseBrackets(ArrayType(t), ts[2..])
    else (t, ts)
  }

  function ParsePrimary(ts: seq<Token>): (r: Parsed<TypeTree>)
    ensures r.Some? ==> |r.value.1| < |ts|
    decreases |ts|, 0
  {
    if ts == [] then None
    else
      match ts[0]
      case WordToken(w) => Some((Word(w), ts[1..]))
      case TextToken(s) => Some((TextLiteral(s), ts[1..]))
      case Punct(c) =>
        if c == '(' then
          match ParseType(ts[1..])
          case None => None
          case Some((t, rest)) => if StartsWith(rest, ')') then Some((t, rest[1..])) else None
        else if c == '{' then
          match ParseMembers([], ts[1..])
          case None => None
          case Some((ms, rest)) => Some((ObjectType(ms), rest))
        else None
      case CommentToken => None
  }

  /** `(key "?"? ":" type ";")* "}"`. */
  function ParseMembers(ms: seq<Member>, ts: seq<Token>): (r: Parsed<seq<Member>>)
    ensures r.Some? ==> |r.value.1| < |ts|
    decreases |ts|, 3
  {
    if StartsWith(ts, '}') then Some((ms, ts[1..]))
    else if ts == [] || ts[0].Punct? || ts[0].CommentToken? then None
    else
      var optional := StartsWith(ts[1..], '?');
      var colon := if optional then ts[2..] else ts[1..];
      if !StartsWith(colon, ':') then None
      else
        match ParseType(colon[1..])
        case None => None
        case Some((t, rest)) =>
          if StartsWith(rest, ';') then ParseMembers(ms + [Member(ts[0].text, optional, t)], rest[1..]) else None
  }

  /** The tokens that are no comments. */
  function Code(ts: seq<Token>): seq<Token> {
    if ts == [] then [] else Code(Front(ts)) + if LastOf(ts).CommentToken? then [] else [LastOf(ts)]
  }

  /** A text reads as a type when all of its tokens do, comments aside. */
  function ReadType(s: string): Option<TypeTree> {
    match Lex(s)
    case None => None
    case Some(ts) =>
      match ParseType(Code(ts))
      case None => None
      case Some((t, rest)) => if rest == [] then Some(t) else None
  }

  // ---- Tokens of a tree, and back ----

  function KeyToken(key: string): Token {
    if IsIdentifier(key) then WordToken(key) else TextToken(key)
  }

  /** An array element is in parentheses exactly when it is a union. */
  function Tokens(t: TypeTree): seq<Token> {
    match t
    case Word(w) => [WordToken(w)]
    case TextLiteral(s) => [TextToken(s)]
    case ArrayType(e) =>
      (if e.Union? then [Punct('(')] + Tokens(e) + [Punct(')')] else Tokens(e)) + [Punct('['), Punct(']')]
    case ObjectType(ms) => [Punct('{')] + MemberTokens(ms) + [Punct('}')]
    case Union(bs) => BranchTokens(bs)
  }

  function BranchTokens(bs: seq<TypeTree>): seq<Token>
    decreases bs
  {
    if bs == [] then []
    else if |bs| == 1 then Tokens(bs[0])
    else BranchTokens(bs[..|bs| - 1]) + [Punct('|')] + Tokens(bs[|bs| - 1])
  }

  function MemberTokens(ms: seq<Member>): seq<Token>
    decreases ms
  {
    if ms == [] then [] else MemberTokens(ms[..|ms| - 1]) + OneMemberTokens(ms[|ms| - 1])
  }

  function OneMemberTokens(m: Member): seq<Token>
    decreases m
  {
    [KeyToken(m.key)] + (if m.optional then [Punct('?')] else []) + [Punct(':')] + Tokens(m.tree) + [Punct(';')]
  }
}
