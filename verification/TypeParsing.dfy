/** Parsing undoes printing to tokens. */
module TypeParsing {
  import opened Values
  import opened JsonText
  import opened Lexing
  import opened TypeText
  import opened TypeGrammar

  /** A postfix type is read whole; brackets that follow belong to it. */
  lemma {:induction false} PostfixRoundTrip(t: TypeTree, rest: seq<Token>)
    requires IsTree(t) && !t.Union?
    ensures ParsePostfix(Tokens(t) + rest) == Some(ParseBrackets(t, rest))
    decreases t, 1
  {
    match t {
      case Word(_) => PrimaryIsPostfix(t, Tokens(t), rest);
      case TextLiteral(_) => PrimaryIsPostfix(t, Tokens(t), rest);
      case ArrayType(_) => ArrayRoundTrip(t, rest);
      case ObjectType(ms) =>
        MembersRoundTrip(ms, [Punct('}')] + rest);
        BracesStep(t, MemberTokens(ms), rest);
        assert Tokens(t) + rest == [Punct('{')] + (MemberTokens(ms) + ([Punct('}')] + rest));
    }
  }

  lemma {:induction false} ArrayRoundTrip(t: TypeTree, rest: seq<Token>)
    requires IsTree(t) && t.ArrayType?
    ensures ParsePostfix(Tokens(t) + rest) == Some(ParseBrackets(t, rest))
    decreases t, 0
  {
    var e := t.element;
    var brackets := [Punct('['), Punct(']')] + rest;
    BracketsStep(e, rest);
    if e.Union? {
      TypeRoundTrip(e, [Punct(')')] + brackets);
      ParenthesesStep(e, Tokens(e), brackets);
      ParenthesizedTokens(Tokens(e), rest);
    } else {
      PostfixRoundTrip(e, brackets);
      assert Tokens(t) + rest == Tokens(e) + brackets;
    }
  }

  lemma ParenthesizedTokens(ts: seq<Token>, rest: seq<Token>)
    ensures [Punct('(')] + ts + [Punct(')')] + [Punct('['), Punct(']')] + rest ==
            [Punct('(')] + (ts + ([Punct(')')] + ([Punct('['), Punct(']')] + rest)))
  {
  }

  lemma PrimaryIsPostfix(t: TypeTree, ts: seq<Token>, rest: seq<Token>)
    requires t.Word? || t.TextLiteral?
    requires ts == [if t.Word? then WordToken(t.text) else TextToken(t.text)]
    ensures ParsePostfix(ts + rest) == Some(ParseBrackets(t, rest))
  {
    assert (ts + rest)[0] == ts[0] && (ts + rest)[1..] == rest;
  }

  lemma BracketsStep(e: TypeTree, rest: seq<Token>)
    ensures ParseBrackets(e, [Punct('['), Punct(']')] + rest) == ParseBrackets(ArrayType(e), rest)
  {
    assert ([Punct('['), Punct(']')] + rest)[2..] == rest;
  }

  lemma ParenthesesStep(e: TypeTree, ts: seq<Token>, rest: seq<Token>)
    requires ParseType(ts + ([Punct(')')] + rest)) == Some((e, [Punct(')')] + rest))
    ensures ParsePostfix([Punct('(')] + (ts + ([Punct(')')] + rest))) == Some(ParseBrackets(e, rest))
  {
    var all := [Punct('(')] + (ts + ([Punct(')')] + rest));
    assert all[1..] == ts + ([Punct(')')] + rest);
    assert ([Punct(')')] + rest)[1..] == rest;
    assert ParsePrimary(all) == Some((e, rest));
  }

  lemma BracesStep(t: TypeTree, ts: seq<Token>, rest: seq<Token>)
    requires t.ObjectType? && ParseMembers([], ts + ([Punct('}')] + rest)) == ParseMembers(t.members, [Punct('}')] + rest)
    ensures ParsePostfix([Punct('{')] + (ts + ([Punct('}')] + rest))) == Some(ParseBrackets(t, rest))
  {
    var all := [Punct('{')] + (ts + ([Punct('}')] + rest));
    assert all[1..] == ts + ([Punct('}')] + rest);
    assert ([Punct('}')] + rest)[1..] == rest;
    assert ParsePrimary(all) == Some((t, rest));
  }

  lemma {:induction false} MembersRoundTrip(ms: seq<Member>, rest: seq<Token>)
    requires forall m | m in ms :: IsTree(m.tree)
    ensures ParseMembers([], MemberTokens(ms) + rest) == ParseMembers(ms, rest)
    decreases ms
  {
    if ms == [] {
      assert MemberTokens(ms) + rest == rest;
    } else {
      var before, m := ms[..|ms| - 1], ms[|ms| - 1];
      assert m in ms && before + [m] == ms;
      MembersRoundTrip(before, OneMemberTokens(m) + rest);
      TypeRoundTrip(m.tree, [Punct(';')] + rest);
      MemberStep(before, m, rest);
      MemberTokensSplit(ms, rest);
    }
  }

  lemma MemberTokensSplit(ms: seq<Member>, rest: seq<Token>)
    requires ms != []
    ensures MemberTokens(ms) + rest == MemberTokens(ms[..|ms| - 1]) + (OneMemberTokens(ms[|ms| - 1]) + rest)
  {
  }

  lemma MemberStep(ms: seq<Member>, m: Member, rest: seq<Token>)
    requires ParseType(Tokens(m.tree) + ([Punct(';')] + rest)) == Some((m.tree, [Punct(';')] + rest))
    ensures ParseMembers(ms, OneMemberTokens(m) + rest) == ParseMembers(ms + [m], rest)
  {
    OneMemberSplit(m, rest);
    MemberParse(ms, m, Tokens(m.tree) + ([Punct(';')] + rest), rest);
  }

  function Head(m: Member): seq<Token> {
    if m.optional then [KeyToken(m.key), Punct('?'), Punct(':')] else [KeyToken(m.key), Punct(':')]
  }

  lemma OneMemberSplit(m: Member, rest: seq<Token>)
    ensures OneMemberTokens(m) + rest == Head(m) + (Tokens(m.tree) + ([Punct(';')] + rest))
  {
  }

  lemma MemberParse(ms: seq<Member>, m: Member, after: seq<Token>, rest: seq<Token>)
    requires ParseType(after) == Some((m.tree, [Punct(';')] + rest))
    ensures ParseMembers(ms, Head(m) + after) == ParseMembers(ms + [m], rest)
  {
    HeadOpens(m, after);
    assert ([Punct(';')] + rest)[1..] == rest;
  }

  lemma HeadOpens(m: Member, after: seq<Token>)
    ensures var ts := Head(m) + after;
            ts[0] == KeyToken(m.key) && (StartsWith(ts[1..], '?') <==> m.optional)
    ensures var ts := Head(m) + after;
            var colon := if m.optional then ts[2..] else ts[1..];
            StartsWith(colon, ':') && colon[1..] == after
  {
    var ts := Head(m) + after;
    if m.optional {
      assert ts[2..] == [Punct(':')] + after;
    } else {
      assert ts[1..] == [Punct(':')] + after;
    }
  }

  lemma {:induction false} BranchesRoundTrip(bs: seq<TypeTree>, rest: seq<Token>)
    requires bs != [] && forall b | b in bs :: IsTree(b) && !b.Union?
    requires !StartsWith(rest, '[')
    ensures ParseType(BranchTokens(bs) + rest) == ParseBranches(bs, rest)
    decreases bs
  {
    var last, before := bs[|bs| - 1], bs[..|bs| - 1];
    assert last in bs && before + [last] == bs;
    PostfixRoundTrip(last, rest);
    BranchStep(before, Tokens(last), last, rest);
    if |bs| > 1 {
      BranchesRoundTrip(before, [Punct('|')] + (Tokens(last) + rest));
      BranchTokensSplit(bs, rest);
    }
  }

  lemma BranchTokensSplit(bs: seq<TypeTree>, rest: seq<Token>)
    requires |bs| > 1
    ensures BranchTokens(bs) + rest == BranchTokens(bs[..|bs| - 1]) + ([Punct('|')] + (Tokens(bs[|bs| - 1]) + rest))
  {
    BarStep(BranchTokens(bs[..|bs| - 1]), Tokens(bs[|bs| - 1]), rest);
  }

  lemma BarStep(a: seq<Token>, b: seq<Token>, c: seq<Token>)
    ensures a + [Punct('|')] + b + c == a + ([Punct('|')] + (b + c))
  {
  }

  lemma BranchStep(before: seq<TypeTree>, ts: seq<Token>, t: TypeTree, rest: seq<Token>)
    requires !StartsWith(rest, '[') && ParsePostfix(ts + rest) == Some(ParseBrackets(t, rest))
    ensures ParseType(ts + rest) == ParseBranches([t], rest)
    ensures ParseBranches(before, [Punct('|')] + (ts + rest)) == ParseBranches(before + [t], rest)
  {
    assert ([Punct('|')] + (ts + rest))[1..] == ts + rest;
  }

  /** A type is read whole, up to a token that cannot continue it. */
  lemma {:induction false} TypeRoundTrip(t: TypeTree, rest: seq<Token>)
    requires IsTree(t) && !StartsWith(rest, '|') && !StartsWith(rest, '[')
    ensures ParseType(Tokens(t) + rest) == Some((t, rest))
    decreases t, 2
  {
    if t.Union? {
      BranchesRoundTrip(t.branches, rest);
    } else {
      PostfixRoundTrip(t, rest);
    }
  }
}
