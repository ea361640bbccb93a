/** The order `sort()` puts texts in: by UTF-16 code units. */
module KeyOrder {
  /** A strict total order on keys. */
  ghost predicate IsKeyOrder(less: (string, string) -> bool) {
    && (forall x :: !less(x, x))
    && (forall x, y, z :: less(x, y) && less(y, z) ==> less(x, z))
    && (forall x, y :: less(x, y) || x == y || less(y, x))
  }

  /** Where a character stands: one above U+FFFF starts with a surrogate, before U+E000. */
  function UnitRank(c: char): int {
    if 0xE000 <= c as int <= 0xFFFF then c as int + 0x110000 else c as int
  }

  predicate Before(a: string, b: string) {
    if a == [] || b == [] then b != []
    else if a[0] == b[0] then Before(a[1..], b[1..])
    else UnitRank(a[0]) < UnitRank(b[0])
  }

  lemma {:induction false} BeforeIsIrreflexive(a: string)
    ensures !Before(a, a)
  {
    if a != [] {
      BeforeIsIrreflexive(a[1..]);
    }
  }

  lemma {:induction false} BeforeIsTransitive(a: string, b: string, c: string)
    requires Before(a, b) && Before(b, c)
    ensures Before(a, c)
  {
    if a != [] && a[0] == b[0] == c[0] {
      BeforeIsTransitive(a[1..], b[1..], c[1..]);
    }
  }

  lemma BeforeIsAsymmetric(a: string, b: string)
    requires Before(a, b)
    ensures a != b && !Before(b, a)
  {
    BeforeIsIrreflexive(a);
    if Before(b, a) {
      BeforeIsTransitive(a, b, a);
    }
  }

  lemma {:induction false} BeforeIsTotal(a: string, b: string)
    ensures Before(a, b) || a == b || Before(b, a)
  {
    if a != [] && b != [] && a[0] == b[0] {
      BeforeIsTotal(a[1..], b[1..]);
      assert a == [a[0]] + a[1..] && b == [b[0]] + b[1..];
    }
  }

  lemma BeforeIsKeyOrder()
    ensures IsKeyOrder(Before)
  {
    forall x ensures !Before(x, x) {
      BeforeIsIrreflexive(x);
    }
    forall x, y, z | Before(x, y) && Before(y, z) ensures Before(x, z) {
      BeforeIsTransitive(x, y, z);
    }
    forall x, y ensures Before(x, y) || x == y || Before(y, x) {
      BeforeIsTotal(x, y);
    }
  }

  predicate InOrder(keys: seq<string>) {
    forall i, j | 0 <= i < j < |keys| :: Before(keys[i], keys[j])
  }

  /** The keys in front of one are the earlier ones. */
  lemma NextKey(keys: seq<string>, i: nat)
    requires InOrder(keys) && i < |keys|
    ensures keys[i] in keys && forall k | k in keys[..i] :: Before(k, keys[i])
    ensures forall k :: k in keys[..i + 1] <==> k in keys[..i] || k == keys[i]
  {
    assert keys[..i + 1] == keys[..i] + [keys[i]];
  }

  /** `[...map.keys()].sort()`. */
  method SortKeys(keys: set<string>) returns (sorted: seq<string>)
    ensures InOrder(sorted) && forall k :: k in sorted <==> k in keys
  {
    sorted := [];
    var left := keys;
    while left != {}
      invariant left <= keys && InOrder(sorted)
      invariant forall k :: k in sorted <==> k in keys && k !in left
    {
      var k :| k in left;
      sorted := InsertKey(sorted, k);
      left := left - {k};
    }
  }

  method InsertKey(sorted: seq<string>, k: string) returns (r: seq<string>)
    requires InOrder(sorted) && k !in sorted
    ensures InOrder(r) && forall x :: x in r <==> x in sorted || x == k
  {
    var n := 0;
    while n < |sorted| && Before(sorted[n], k)
      invariant n <= |sorted|
      invariant forall i | 0 <= i < n :: Before(sorted[i], k)
    {
      n := n + 1;
    }
    LaterKeys(sorted, n, k);
    r := sorted[..n] + [k] + sorted[n..];
    assert sorted == sorted[..n] + sorted[n..];
  }

  lemma LaterKeys(sorted: seq<string>, n: nat, k: string)
    requires InOrder(sorted) && k !in sorted && n <= |sorted| && (n < |sorted| ==> !Before(sorted[n], k))
    ensures forall i | n <= i < |sorted| :: Before(k, sorted[i])
  {
    if n < |sorted| {
      BeforeIsTotal(sorted[n], k);
      forall i | n < i < |sorted| ensures Before(k, sorted[i]) {
        BeforeIsTransitive(k, sorted[n], sorted[i]);
      }
    }
  }
}
