/** Reading undoes writing. */
module JsonReading {
  import opened Values
  import opened JsonText
  import opened Lexing
  import opened Json

  // ---- Tokens ----

  lemma {:induction false} ValueRoundTrip(t: Tree, rest: seq<Token>)
    requires IsDocument(t)
    ensures ParseValue(Tokens(t) + rest) == Some((t, rest))
    decreases t, 1
  {
    match t {
      case JArray(items) =>
        if items == [] {
          EmptyBrackets('[', ']', rest);
        } else {
          ItemsRoundTrip([], items, rest);
          assert [] + items == items;
          ArrayStep(items, rest);
        }
      case JObject(props) =>
        if props == [] {
          EmptyBrackets('{', '}', rest);
        } else {
          PropsRoundTrip([], props, rest);
          assert [] + props == props;
          ObjectStep(props, rest);
        }
      case _ => ScalarStep(t, rest);
    }
  }

  lemma ScalarStep(t: Tree, rest: seq<Token>)
    requires IsDocument(t) && !t.JArray? && !t.JObject?
    ensures ParseValue(Tokens(t) + rest) == Some((t, rest))
  {
    var ts := Tokens(t) + rest;
    assert ts[0] == Tokens(t)[0] && ts[1..] == rest;
    if t.JNumber? {
      NumberOpens(t.digits);
      assert t.digits[0] != "null"[0] && t.digits[0] != "true"[0] && t.digits[0] != "false"[0];
    }
  }

  lemma EmptyBrackets(open: char, close: char, rest: seq<Token>)
    ensures var ts := [Punct(open)] + [] + [Punct(close)] + rest;
            ts[0] == Punct(open) && StartsWith(ts[1..], close) && ts[2..] == rest
  {
    var ts := [Punct(open)] + [] + [Punct(close)] + rest;
    assert ts[1..] == [Punct(close)] + rest && ts[2..] == rest;
  }

  /** A value's tokens do not begin with a closing bracket. */
  lemma ValueOpens(t: Tree)
    requires IsDocument(t)
    ensures Tokens(t) != [] && Tokens(t)[0] != Punct(']')
  {
  }

  lemma BracketOpens(open: char, inner: seq<Token>, close: char, rest: seq<Token>)
    requires inner != [] && inner[0] != Punct(close)
    ensures var ts := [Punct(open)] + inner + [Punct(close)] + rest;
            ts[0] == Punct(open) && ts[1..] == inner + ([Punct(close)] + rest) && !StartsWith(ts[1..], close)
  {
    var ts := [Punct(open)] + inner + [Punct(close)] + rest;
    assert ts[1..] == inner + ([Punct(close)] + rest) && ts[1..][0] == inner[0];
  }

  lemma ArrayStep(items: seq<Tree>, rest: seq<Token>)
    requires items != [] && IsDocument(items[0])
    requires ParseItems([], ItemTokens(items) + ([Punct(']')] + rest)) == Some((items, rest))
    ensures ParseValue(Tokens(JArray(items)) + rest) == Some((JArray(items), rest))
  {
    ValueOpens(items[0]);
    assert ItemTokens(items)[0] == Tokens(items[0])[0];
    BracketOpens('[', ItemTokens(items), ']', rest);
  }

  lemma ObjectStep(props: seq<Prop>, rest: seq<Token>)
    requires props != []
    requires ParseProps([], PropTokens(props) + ([Punct('}')] + rest)) == Some((props, rest))
    ensures ParseValue(Tokens(JObject(props)) + rest) == Some((JObject(props), rest))
  {
    assert PropTokens(props)[0] == TextToken(props[0].key);
    BracketOpens('{', PropTokens(props), '}', rest);
  }

  lemma {:induction false} ItemsRoundTrip(before: seq<Tree>, items: seq<Tree>, rest: seq<Token>)
    requires items != [] && forall x | x in items :: IsDocument(x)
    ensures ParseItems(before, ItemTokens(items) + ([Punct(']')] + rest)) == Some((before + items, rest))
    decreases items
  {
    var t := items[0];
    if |items| == 1 {
      ValueRoundTrip(t, [Punct(']')] + rest);
      assert before + [t] == before + items && ([Punct(']')] + rest)[1..] == rest;
    } else {
      var tail := items[1..];
      var next := ItemTokens(tail) + ([Punct(']')] + rest);
      ValueRoundTrip(t, [Punct(',')] + next);
      ItemsRoundTrip(before + [t], tail, rest);
      CommaStep(Tokens(t), ItemTokens(tail), [Punct(']')] + rest);
      assert ([Punct(',')] + next)[1..] == next;
      assert before + [t] + tail == before + items;
    }
  }

  lemma CommaStep(a: seq<Token>, b: seq<Token>, c: seq<Token>)
    ensures a + ([Punct(',')] + b) + c == a + ([Punct(',')] + (b + c))
  {
  }

  lemma {:induction false} PropsRoundTrip(before: seq<Prop>, props: seq<Prop>, rest: seq<Token>)
    requires props != [] && forall p | p in props :: IsDocument(p.value)
    ensures ParseProps(before, PropTokens(props) + ([Punct('}')] + rest)) == Some((before + props, rest))
    decreases props
  {
    if |props| == 1 {
      ValueRoundTrip(props[0].value, [Punct('}')] + rest);
      LastProp(before, props[0].key, Tokens(props[0].value), props[0].value, rest);
      assert before + [props[0]] == before + props;
    } else {
      var next := PropTokens(props[1..]) + ([Punct('}')] + rest);
      ValueRoundTrip(props[0].value, [Punct(',')] + next);
      PropsRoundTrip(before + [props[0]], props[1..], rest);
      PropsStep(before, props, [Punct('}')] + rest, rest);
    }
  }

  lemma PropsStep(before: seq<Prop>, props: seq<Prop>, close: seq<Token>, rest: seq<Token>)
    requires |props| > 1
    requires var after := [Punct(',')] + (PropTokens(props[1..]) + close);
             ParseValue(Tokens(props[0].value) + after) == Some((props[0].value, after))
    requires ParseProps(before + [props[0]], PropTokens(props[1..]) + close) == Some((before + [props[0]] + props[1..], rest))
    ensures ParseProps(before, PropTokens(props) + close) == Some((before + props, rest))
  {
    PropTokensSplit(props, close);
    NextProp(before, props[0].key, Tokens(props[0].value), props[0].value, PropTokens(props[1..]) + close);
    assert before + [props[0]] + props[1..] == before + props;
  }

  lemma PropTokensSplit(props: seq<Prop>, after: seq<Token>)
    requires |props| > 1
    ensures PropTokens(props) + after == OnePropTokens(props[0]) + ([Punct(',')] + (PropTokens(props[1..]) + after))
  {
    CommaStep(OnePropTokens(props[0]), PropTokens(props[1..]), after);
  }

  lemma LastProp(before: seq<Prop>, key: string, value: seq<Token>, t: Tree, rest: seq<Token>)
    requires ParseValue(value + ([Punct('}')] + rest)) == Some((t, [Punct('}')] + rest))
    ensures ParseProps(before, [TextToken(key), Punct(':')] + value + ([Punct('}')] + rest)) ==
            Some((before + [Prop(key, t)], rest))
  {
    PropOpens(key, value, [Punct('}')] + rest);
    assert ([Punct('}')] + rest)[1..] == rest;
  }

  lemma NextProp(before: seq<Prop>, key: string, value: seq<Token>, t: Tree, next: seq<Token>)
    requires ParseValue(value + ([Punct(',')] + next)) == Some((t, [Punct(',')] + next))
    ensures ParseProps(before, [TextToken(key), Punct(':')] + value + ([Punct(',')] + next)) ==
            ParseProps(before + [Prop(key, t)], next)
  {
    PropOpens(key, value, [Punct(',')] + next);
    assert ([Punct(',')] + next)[1..] == next;
  }

  lemma PropOpens(key: string, value: seq<Token>, after: seq<Token>)
    ensures var ts := [TextToken(key), Punct(':')] + value + after;
            ts[0] == TextToken(key) && StartsWith(ts[1..], ':') && ts[2..] == value + after
  {
    var ts := [TextToken(key), Punct(':')] + value + after;
    assert ts[1..][0] == Punct(':') && ts[2..] == value + after;
  }

  // ---- Text ----

  lemma GapIsClosed(pretty: bool, depth: nat)
    ensures IsClosed(Gap(pretty, depth), [])
  {
    SpacesAreSpaces(2 * depth);
    SpacesAreClosed(Gap(pretty, depth));
  }

  /** A separator and the gap behind it. */
  lemma MarkIsClosed(c: char, pretty: bool, depth: nat)
    requires IsPunct(c)
    ensures IsClosed([c] + Gap(pretty, depth), [Punct(c)]) && IsBreak([c] + Gap(pretty, depth))
  {
    PunctIsClosed(c);
    GapIsClosed(pretty, depth);
    ClosedConcat([c], [Punct(c)], Gap(pretty, depth), []);
    assert [Punct(c)] + [] == [Punct(c)];
  }

  lemma ClosingIsClosed(c: char, pretty: bool, depth: nat)
    requires IsPunct(c)
    ensures IsClosed(Gap(pretty, depth) + [c], [Punct(c)]) && IsBreak(Gap(pretty, depth) + [c])
  {
    PunctIsClosed(c);
    GapIsClosed(pretty, depth);
    ClosedConcat(Gap(pretty, depth), [], [c], [Punct(c)]);
    assert [] + [Punct(c)] == [Punct(c)];
  }

  lemma BracketedLexes(open: char, s: string, ts: seq<Token>, close: char, pretty: bool, depth: nat)
    requires IsPunct(open) && IsPunct(close) && LexesTo(s, ts)
    ensures LexesTo([open] + Gap(pretty, depth + 1) + s + Gap(pretty, depth) + [close], [Punct(open)] + ts + [Punct(close)])
  {
    var head, tail := [open] + Gap(pretty, depth + 1), Gap(pretty, depth) + [close];
    MarkIsClosed(open, pretty, depth + 1);
    ClosingIsClosed(close, pretty, depth);
    ClosedConcat(head, [Punct(open)], s, ts);
    BreakConcat(head + s, [Punct(open)] + ts, tail, [Punct(close)]);
    Reassociate(head + s, Gap(pretty, depth), [close]);
  }

  lemma EmptyLexes(open: char, close: char)
    requires IsPunct(open) && IsPunct(close)
    ensures LexesTo([open, close], [Punct(open)] + [] + [Punct(close)])
  {
    PunctIsClosed(open);
    PunctIsClosed(close);
    ClosedConcat([open], [Punct(open)], [close], [Punct(close)]);
    assert [open] + [close] == [open, close];
    assert [Punct(open)] + [Punct(close)] == [Punct(open)] + [] + [Punct(close)];
  }

  lemma SeparatedLexes(a: string, ta: seq<Token>, b: string, tb: seq<Token>, pretty: bool, depth: nat)
    requires LexesTo(a, ta) && LexesTo(b, tb)
    ensures LexesTo(a + ("," + Gap(pretty, depth) + b), ta + ([Punct(',')] + tb))
  {
    var head := "," + Gap(pretty, depth);
    MarkIsClosed(',', pretty, depth);
    ClosedConcat(head, [Punct(',')], b, tb);
    assert (head + b)[0] == ',';
    BreakConcat(a, ta, head + b, [Punct(',')] + tb);
  }

  lemma {:induction false} TextLexes(t: Tree, pretty: bool, depth: nat)
    requires IsDocument(t)
    ensures LexesTo(Text(t, pretty, depth), Tokens(t))
    decreases t, 1
  {
    match t {
      case JNull => WordLexes("null");
      case JBool(b) => WordLexes(if b then "true" else "false");
      case JNumber(digits) => WordLexes(digits);
      case JText(s) => StringifiedIsClosed(s);
      case JArray(items) =>
        if items == [] {
          EmptyLexes('[', ']');
        } else {
          ItemsLex(items, pretty, depth + 1);
          BracketedLexes('[', ItemsText(items, pretty, depth + 1), ItemTokens(items), ']', pretty, depth);
        }
      case JObject(props) =>
        if props == [] {
          EmptyLexes('{', '}');
        } else {
          PropsLex(props, pretty, depth + 1);
          BracketedLexes('{', PropsText(props, pretty, depth + 1), PropTokens(props), '}', pretty, depth);
        }
    }
  }

  lemma {:induction false} ItemsLex(items: seq<Tree>, pretty: bool, depth: nat)
    requires items != [] && forall x | x in items :: IsDocument(x)
    ensures LexesTo(ItemsText(items, pretty, depth), ItemTokens(items))
    decreases items
  {
    TextLexes(items[0], pretty, depth);
    if |items| > 1 {
      ItemsLex(items[1..], pretty, depth);
      SeparatedLexes(Text(items[0], pretty, depth), Tokens(items[0]),
                     ItemsText(items[1..], pretty, depth), ItemTokens(items[1..]), pretty, depth);
    }
  }

  lemma {:induction false} PropsLex(props: seq<Prop>, pretty: bool, depth: nat)
    requires props != [] && forall p | p in props :: IsDocument(p.value)
    ensures LexesTo(PropsText(props, pretty, depth), PropTokens(props))
    decreases props
  {
    TextLexes(props[0].value, pretty, depth);
    PropLexes(props[0], Text(props[0].value, pretty, depth), pretty);
    if |props| > 1 {
      PropsLex(props[1..], pretty, depth);
      SeparatedLexes(PropText(props[0], pretty, depth), OnePropTokens(props[0]),
                     PropsText(props[1..], pretty, depth), PropTokens(props[1..]), pretty, depth);
    }
  }

  lemma PropLexes(p: Prop, value: string, pretty: bool)
    requires LexesTo(value, Tokens(p.value))
    ensures LexesTo(Stringified(p.key) + (if pretty then ": " else ":") + value, OnePropTokens(p))
  {
    var colon := if pretty then ": " else ":";
    StringifiedIsClosed(p.key);
    PunctIsClosed(':');
    SpacesAreClosed(" ");
    ClosedConcat(":", [Punct(':')], " ", []);
    assert ":" + " " == ": " && [Punct(':')] + [] == [Punct(':')];
    ClosedConcat(Stringified(p.key), [TextToken(p.key)], colon, [Punct(':')]);
    ClosedConcat(Stringified(p.key) + colon, [TextToken(p.key)] + [Punct(':')], value, Tokens(p.value));
    assert [TextToken(p.key)] + [Punct(':')] == [TextToken(p.key), Punct(':')];
  }

  /** `JSON.parse(JSON.stringify(t))` is `t`, compact or indented. */
  lemma JsonReadsBack(t: Tree, pretty: bool)
    requires IsDocument(t)
    ensures ReadJson(Text(t, pretty, 0)) == Some(t)
  {
    TextLexes(t, pretty, 0);
    ValueRoundTrip(t, []);
    assert Tokens(t) + [] == Tokens(t);
  }

  /** Different documents have different texts. */
  lemma TextIsInjective(a: Tree, b: Tree, pretty: bool)
    requires IsDocument(a) && IsDocument(b)
    ensures Text(a, pretty, 0) == Text(b, pretty, 0) <==> a == b
  {
    JsonReadsBack(a, pretty);
    JsonReadsBack(b, pretty);
  }
}
