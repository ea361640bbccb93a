/** Chain resolution: the backtracking search over migration edges, and what it enumerates. */
module Chains {
  import opened Values
  import opened Schema
  import opened Registries

  // ---- Paths, declaratively ----

  ghost predicate NoRepeats<T>(s: seq<T>) {
    forall i, j | 0 <= i < j < |s| :: s[i] != s[j]
  }

  /** The versions a path goes through, its start first. */
  ghost function Versions(start: string, p: seq<Edge>): (vs: seq<string>)
    ensures |vs| == |p| + 1 && vs[0] == start && forall i | 0 <= i < |p| :: vs[i + 1] == p[i].to
  {
    [start] + seq(|p|, i requires 0 <= i < |p| => p[i].to)
  }

  /** Consecutive edges of the adjacency map, from `start`. */
  ghost predicate IsWalk(adj: Adjacency, start: string, p: seq<Edge>)
    decreases |p|
  {
    p != [] ==> start in adj && p[0] in adj[start] && IsWalk(adj, p[0].to, p[1..])
  }

  ghost function WalkEnd(start: string, p: seq<Edge>): string {
    if p == [] then start else p[|p| - 1].to
  }

  ghost predicate Joins(adj: Adjacency, start: string, end: string, p: seq<Edge>) {
    IsWalk(adj, start, p) && WalkEnd(start, p) == end
  }

  /** A walk from `start` to a different `end` that meets no version twice. */
  ghost predicate IsSimplePath(adj: Adjacency, start: string, end: string, p: seq<Edge>) {
    p != [] && Joins(adj, start, end, p) && NoRepeats(Versions(start, p))
  }

  /** A simple path that also stays out of `avoid` after its start. */
  ghost predicate IsPathAvoiding(adj: Adjacency, start: string, end: string, avoid: set<string>, p: seq<Edge>) {
    IsSimplePath(adj, start, end, p) && forall e | e in p :: e.to !in avoid
  }

  ghost function Entries(p: seq<Edge>): seq<MigrationEntry> {
    seq(|p|, i requires 0 <= i < |p| => p[i].entry)
  }

  // ---- The enumeration, in search order ----

  ghost function Targets(adj: Adjacency): set<string> {
    set v, i | v in adj && 0 <= i < |adj[v]| :: adj[v][i].to
  }

  ghost function Paths(adj: Adjacency, current: string, end: string, visited: set<string>): seq<seq<Edge>>
    decreases |Targets(adj) - visited|, 2
  {
    if current in adj then PathsVia(adj, adj[current], end, visited) else []
  }

  ghost function PathsVia(adj: Adjacency, edges: seq<Edge>, end: string, visited: set<string>): seq<seq<Edge>>
    requires forall e | e in edges :: e.to in Targets(adj)
    decreases |Targets(adj) - visited|, 1, |edges|
  {
    if edges == [] then []
    else PathsVia(adj, Front(edges), end, visited) + PathsFrom(adj, LastOf(edges), end, visited)
  }

  ghost function PathsFrom(adj: Adjacency, e: Edge, end: string, visited: set<string>): seq<seq<Edge>>
    requires e.to in Targets(adj)
    decreases |Targets(adj) - visited|, 0
  {
    if e.to in visited then []
    else if e.to == end then [[e]]
    else
      FewerLeft(adj, e.to, visited);
      Prefixed(e, Paths(adj, e.to, end, visited + {e.to}))
  }

  ghost function Prefixed(e: Edge, ps: seq<seq<Edge>>): seq<seq<Edge>> {
    seq(|ps|, i requires 0 <= i < |ps| => [e] + ps[i])
  }

  lemma FewerLeft(adj: Adjacency, v: string, visited: set<string>)
    requires v in Targets(adj) && v !in visited
    ensures |Targets(adj) - (visited + {v})| < |Targets(adj) - visited|
  {
    var left := Targets(adj) - visited;
    assert Targets(adj) - (visited + {v}) == left - {v};
  }

  lemma PrefixedMembers(e: Edge, ps: seq<seq<Edge>>, p: seq<Edge>)
    ensures p in Prefixed(e, ps) <==> p != [] && p[0] == e && p[1..] in ps
  {
    if p != [] && p[0] == e && p[1..] in ps {
      var i :| 0 <= i < |ps| && ps[i] == p[1..];
      assert Prefixed(e, ps)[i] == [e] + p[1..] == p;
    }
    if p in Prefixed(e, ps) {
      var i :| 0 <= i < |ps| && Prefixed(e, ps)[i] == p;
      assert p[1..] == ps[i];
    }
  }

  lemma {:induction false} PathsViaMembers(adj: Adjacency, edges: seq<Edge>, end: string, visited: set<string>, p: seq<Edge>)
    requires forall e | e in edges :: e.to in Targets(adj)
    ensures p in PathsVia(adj, edges, end, visited) <==> p != [] && p[0] in edges && p in PathsFrom(adj, p[0], end, visited)
    decreases |edges|
  {
    if edges != [] {
      var e := LastOf(edges);
      PathsViaMembers(adj, Front(edges), end, visited, p);
      assert edges == Front(edges) + [e];
      if e.to !in visited && e.to != end {
        FewerLeft(adj, e.to, visited);
        PrefixedMembers(e, Paths(adj, e.to, end, visited + {e.to}), p);
      }
      assert p in PathsFrom(adj, e, end, visited) ==> p != [] && p[0] == e;
    }
  }

  lemma NoRepeatsCons<T>(x: T, s: seq<T>)
    ensures NoRepeats([x] + s) <==> x !in s && NoRepeats(s)
  {
    var t := [x] + s;
    assert forall i | 0 <= i < |s| :: t[i + 1] == s[i];
    if NoRepeats(t) {
      forall i | 0 <= i < |s| ensures s[i] != x {
        assert t[0] != t[i + 1];
      }
      forall i, j | 0 <= i < j < |s| ensures s[i] != s[j] {
        assert t[i + 1] != t[j + 1];
      }
    }
  }

  lemma VersionsStep(start: string, p: seq<Edge>)
    requires p != []
    ensures var vs := Versions(p[0].to, p[1..]);
            NoRepeats(Versions(start, p)) <==> start !in vs && NoRepeats(vs)
  {
    var all, vs := Versions(start, p), Versions(p[0].to, p[1..]);
    forall i | 0 <= i < |all| ensures all[i] == ([start] + vs)[i] {
      assert i > 1 ==> all[i] == p[i - 1].to == p[1..][i - 2].to;
    }
    assert all == [start] + vs;
    NoRepeatsCons(start, vs);
  }

  lemma VersionsMembers(start: string, p: seq<Edge>, v: string)
    ensures v in Versions(start, p) <==> v == start || exists e | e in p :: e.to == v
  {
    var vs := Versions(start, p);
    if e :| e in p && e.to == v {
      var i :| 0 <= i < |p| && p[i] == e;
      assert vs[i + 1] == v;
    }
    if v in vs && v != start {
      var i :| 0 <= i < |vs| && vs[i] == v;
      assert p[i - 1] in p;
    }
  }

  lemma EndIsNotStart(start: string, p: seq<Edge>)
    requires p != [] && NoRepeats(Versions(start, p))
    ensures WalkEnd(start, p) != start
  {
    var vs := Versions(start, p);
    assert vs[0] != vs[|p|];
  }

  /** What a path avoiding `avoid` is, read from its first edge. */
  ghost predicate StepsInto(adj: Adjacency, start: string, end: string, avoid: set<string>, p: seq<Edge>) {
    && p != [] && start in adj && p[0] in adj[start] && p[0].to !in avoid
    && if p[0].to == end then |p| == 1
       else IsPathAvoiding(adj, p[0].to, end, avoid + {p[0].to}, p[1..])
  }

  lemma AvoidingPathSteps(adj: Adjacency, start: string, end: string, avoid: set<string>, p: seq<Edge>)
    requires IsPathAvoiding(adj, start, end, avoid, p)
    ensures StepsInto(adj, start, end, avoid, p)
  {
    var e, rest := p[0], p[1..];
    VersionsStep(start, p);
    if rest != [] {
      EndIsNotStart(e.to, rest);
      forall x | x in rest ensures x.to !in avoid + {e.to} {
        assert x in p;
        LaterIsNotFirst(e.to, rest, x);
      }
    }
  }

  lemma LaterIsNotFirst(start: string, p: seq<Edge>, e: Edge)
    requires NoRepeats(Versions(start, p)) && e in p
    ensures e.to != start
  {
    var i :| 0 <= i < |p| && p[i] == e;
    assert Versions(start, p)[0] != Versions(start, p)[i + 1];
  }

  lemma StepsMakeAvoidingPath(adj: Adjacency, start: string, end: string, avoid: set<string>, p: seq<Edge>)
    requires start in avoid && StepsInto(adj, start, end, avoid, p)
    ensures IsPathAvoiding(adj, start, end, avoid, p)
  {
    var e, rest := p[0], p[1..];
    forall x | x in p ensures x.to !in avoid {
      assert x == e || x in rest;
    }
    assert start !in Versions(e.to, rest) by {
      VersionsMembers(e.to, rest, start);
    }
    VersionsStep(start, p);
  }

  lemma PathAvoidingStep(adj: Adjacency, start: string, end: string, avoid: set<string>, p: seq<Edge>)
    requires start in avoid
    ensures IsPathAvoiding(adj, start, end, avoid, p) <==> StepsInto(adj, start, end, avoid, p)
  {
    if IsPathAvoiding(adj, start, end, avoid, p) {
      AvoidingPathSteps(adj, start, end, avoid, p);
    }
    if StepsInto(adj, start, end, avoid, p) {
      StepsMakeAvoidingPath(adj, start, end, avoid, p);
    }
  }

  /** The enumeration holds exactly the simple paths that avoid the visited versions. */
  lemma {:induction false} PathsAreExact(adj: Adjacency, current: string, end: string, visited: set<string>, p: seq<Edge>)
    requires current in visited && end !in visited
    ensures p in Paths(adj, current, end, visited) <==> IsPathAvoiding(adj, current, end, visited, p)
    decreases |Targets(adj) - visited|
  {
    PathAvoidingStep(adj, current, end, visited, p);
    if current in adj {
      PathsViaMembers(adj, adj[current], end, visited, p);
      assert |p| == 1 ==> p == [p[0]];
      if p != [] && p[0] in adj[current] && p[0].to !in visited && p[0].to != end {
        FewerLeft(adj, p[0].to, visited);
        PrefixedMembers(p[0], Paths(adj, p[0].to, end, visited + {p[0].to}), p);
        PathsAreExact(adj, p[0].to, end, visited + {p[0].to}, p[1..]);
      }
    }
  }

  /** Each of them once. */
  lemma {:induction false} PathsAreDistinct(adj: Adjacency, current: string, end: string, visited: set<string>)
    requires IsAdjacency(adj)
    ensures NoRepeats(Paths(adj, current, end, visited))
    decreases |Targets(adj) - visited|, 1
  {
    if current in adj {
      PathsViaAreDistinct(adj, adj[current], end, visited);
    }
  }

  lemma {:induction false} PathsViaAreDistinct(adj: Adjacency, edges: seq<Edge>, end: string, visited: set<string>)
    requires IsAdjacency(adj) && KeysOnce(edges)
    requires forall e | e in edges :: e.to in Targets(adj)
    ensures NoRepeats(PathsVia(adj, edges, end, visited))
    decreases |Targets(adj) - visited|, 0, |edges|
  {
    if edges != [] {
      var e := LastOf(edges);
      var before, last := PathsVia(adj, Front(edges), end, visited), PathsFrom(adj, e, end, visited);
      PathsViaAreDistinct(adj, Front(edges), end, visited);
      if e.to !in visited && e.to != end {
        FewerLeft(adj, e.to, visited);
        PathsAreDistinct(adj, e.to, end, visited + {e.to});
        PrefixedAreDistinct(e, Paths(adj, e.to, end, visited + {e.to}));
      }
      forall p | p in before ensures p !in last {
        PathsViaMembers(adj, Front(edges), end, visited, p);
        if p in last {
          PathsStartWith(adj, e, end, visited, p);
        }
      }
      NoRepeatsAppend(before, last);
    }
  }

  lemma PathsStartWith(adj: Adjacency, e: Edge, end: string, visited: set<string>, p: seq<Edge>)
    requires e.to in Targets(adj) && p in PathsFrom(adj, e, end, visited)
    ensures p != [] && p[0] == e
  {
    if e.to != end {
      FewerLeft(adj, e.to, visited);
      PrefixedMembers(e, Paths(adj, e.to, end, visited + {e.to}), p);
    }
  }

  lemma PrefixedAreDistinct(e: Edge, ps: seq<seq<Edge>>)
    requires NoRepeats(ps)
    ensures NoRepeats(Prefixed(e, ps))
  {
    assert forall i | 0 <= i < |ps| :: Prefixed(e, ps)[i][1..] == ps[i];
  }

  lemma NoRepeatsAppend<T>(s: seq<T>, t: seq<T>)
    requires NoRepeats(s) && NoRepeats(t) && forall x | x in s :: x !in t
    ensures NoRepeats(s + t)
  {
    forall i, j | 0 <= i < j < |s + t| ensures (s + t)[i] != (s + t)[j] {
      if i < |s| <= j {
        assert s[i] in s && t[j - |s|] in t;
      }
    }
  }

  // ---- Walks and simple paths ----

  lemma {:induction false} WalkConcat(adj: Adjacency, start: string, p: seq<Edge>, q: seq<Edge>)
    ensures IsWalk(adj, start, p + q) <==> IsWalk(adj, start, p) && IsWalk(adj, WalkEnd(start, p), q)
    decreases |p|
  {
    if p == [] {
      assert p + q == q;
    } else {
      assert (p + q)[1..] == p[1..] + q && (p + q)[0] == p[0];
      WalkConcat(adj, p[0].to, p[1..], q);
    }
  }

  lemma WithoutCycle(adj: Adjacency, start: string, a: seq<Edge>, cycle: seq<Edge>, c: seq<Edge>)
    requires IsWalk(adj, start, a + cycle + c)
    requires WalkEnd(start, a + cycle) == WalkEnd(start, a)
    ensures IsWalk(adj, start, a + c)
    ensures WalkEnd(start, a + c) == WalkEnd(start, a + cycle + c)
  {
    WalkConcat(adj, start, a + cycle, c);
    WalkConcat(adj, start, a, cycle);
    WalkConcat(adj, start, a, c);
  }

  /** The version met after `i` edges is where the first `i` edges end. */
  lemma VersionAt(start: string, p: seq<Edge>, i: nat)
    requires i <= |p|
    ensures Versions(start, p)[i] == WalkEnd(start, p[..i])
  {
    if i > 0 {
      assert p[..i][i - 1] == p[i - 1] && Versions(start, p)[i - 1 + 1] == p[i - 1].to;
    }
  }

  lemma TwoCuts(p: seq<Edge>, i: nat, j: nat)
    requires i <= j <= |p|
    ensures p == p[..i] + p[i..j] + p[j..] && p[..i] + p[i..j] == p[..j]
  {
    assert p[..i] + p[i..j] == p[..j];
    assert p[..j] + p[j..] == p;
  }

  lemma CutCycle(adj: Adjacency, start: string, p: seq<Edge>, i: nat, j: nat)
    requires IsWalk(adj, start, p) && i < j <= |p| && Versions(start, p)[i] == Versions(start, p)[j]
    ensures IsWalk(adj, start, p[..i] + p[j..]) && WalkEnd(start, p[..i] + p[j..]) == WalkEnd(start, p)
  {
    VersionAt(start, p, i);
    VersionAt(start, p, j);
    TwoCuts(p, i, j);
    WithoutCycle(adj, start, p[..i], p[i..j], p[j..]);
  }

  /** Cutting its cycles out turns any walk into a simple path. */
  lemma {:induction false} LoopErasure(adj: Adjacency, start: string, end: string, p: seq<Edge>) returns (q: seq<Edge>)
    requires start != end && Joins(adj, start, end, p)
    ensures IsSimplePath(adj, start, end, q)
    decreases |p|
  {
    var vs := Versions(start, p);
    if NoRepeats(vs) {
      q := p;
    } else {
      var i, j :| 0 <= i < j < |vs| && vs[i] == vs[j];
      CutCycle(adj, start, p, i, j);
      q := LoopErasure(adj, start, end, p[..i] + p[j..]);
    }
  }

  /** What the search promises: with `start` visited, exactly the simple paths, each once. */
  lemma EnumerationIsExact(adj: Adjacency, start: string, end: string)
    requires IsAdjacency(adj) && start != end
    ensures forall p :: p in Paths(adj, start, end, {start}) <==> IsSimplePath(adj, start, end, p)
    ensures NoRepeats(Paths(adj, start, end, {start}))
  {
    PathsAreDistinct(adj, start, end, {start});
    forall p ensures p in Paths(adj, start, end, {start}) <==> IsSimplePath(adj, start, end, p) {
      PathsAreExact(adj, start, end, {start}, p);
      if IsSimplePath(adj, start, end, p) {
        forall e | e in p ensures e.to != start {
          LaterIsNotFirst(start, p, e);
        }
      }
    }
  }

  /** The search finds nothing exactly when no walk at all joins the versions. */
  lemma NoPathsMeansUnreachable(adj: Adjacency, start: string, end: string)
    requires IsAdjacency(adj) && start != end
    ensures Paths(adj, start, end, {start}) == [] <==> forall p :: !Joins(adj, start, end, p)
  {
    EnumerationIsExact(adj, start, end);
    var ps := Paths(adj, start, end, {start});
    forall p | Joins(adj, start, end, p) ensures ps != [] {
      var q := LoopErasure(adj, start, end, p);
      assert q in ps;
    }
    if ps != [] {
      assert ps[0] in ps && Joins(adj, start, end, ps[0]);
    }
  }

  // ---- The search, mutating its shared state ----

  /** Each path as a chain of entries behind `prefix`. */
  ghost function ChainsBehind(prefix: seq<MigrationEntry>, ps: seq<seq<Edge>>): seq<seq<MigrationEntry>> {
    seq(|ps|, i requires 0 <= i < |ps| => prefix + Entries(ps[i]))
  }

  lemma ChainsBehindPrefixed(prefix: seq<MigrationEntry>, e: Edge, ps: seq<seq<Edge>>)
    ensures ChainsBehind(prefix, Prefixed(e, ps)) == ChainsBehind(prefix + [e.entry], ps)
  {
    forall i | 0 <= i < |ps|
      ensures prefix + Entries([e] + ps[i]) == prefix + [e.entry] + Entries(ps[i])
    {
      assert Entries([e] + ps[i]) == [e.entry] + Entries(ps[i]);
    }
  }

  lemma ChainsBehindAppend(prefix: seq<MigrationEntry>, ps: seq<seq<Edge>>, qs: seq<seq<Edge>>)
    ensures ChainsBehind(prefix, ps + qs) == ChainsBehind(prefix, ps) + ChainsBehind(prefix, qs)
  {
  }

  lemma ChainsBehindStep(adj: Adjacency, prefix: seq<MigrationEntry>, edges: seq<Edge>, i: nat, end: string, visited: set<string>)
    requires i < |edges| && forall e | e in edges :: e.to in Targets(adj)
    ensures ChainsBehind(prefix, PathsVia(adj, edges[..i + 1], end, visited))
         == ChainsBehind(prefix, PathsVia(adj, edges[..i], end, visited))
            + ChainsBehind(prefix, PathsFrom(adj, edges[i], end, visited))
  {
    assert Front(edges[..i + 1]) == edges[..i];
    ChainsBehindAppend(prefix, PathsVia(adj, edges[..i], end, visited), PathsFrom(adj, edges[i], end, visited));
  }

  class ChainSearch {
    var visited: set<string>
    var chain: seq<MigrationEntry>
    var out: seq<seq<MigrationEntry>>

    constructor (start: string)
      ensures visited == {start} && chain == [] && out == []
    {
      visited, chain, out := {start}, [], [];
    }

    /** Restores `visited` and `chain`, and appends the enumerated paths behind the chain it was called with. */
    method Dfs(adj: Adjacency, current: string, end: string)
      modifies this
      ensures visited == old(visited) && chain == old(chain)
      ensures out == old(out) + ChainsBehind(old(chain), Paths(adj, current, end, old(visited)))
      decreases |Targets(adj) - visited|, 1
    {
      if current !in adj {
        return;
      }
      var outgoing := adj[current];
      for i := 0 to |outgoing|
        invariant visited == old(visited) && chain == old(chain)
        invariant out == old(out) + ChainsBehind(chain, PathsVia(adj, outgoing[..i], end, visited))
      {
        ghost var found := ChainsBehind(chain, PathsVia(adj, outgoing[..i], end, visited));
        Follow(adj, outgoing[i], end);
        ChainsBehindStep(adj, chain, outgoing, i, end, visited);
        assert out == old(out) + (found + ChainsBehind(chain, PathsFrom(adj, outgoing[i], end, visited)));
      }
      assert outgoing[..|outgoing|] == outgoing;
    }

    /** One iteration of the search loop. */
    method Follow(adj: Adjacency, e: Edge, end: string)
      requires e.to in Targets(adj)
      modifies this
      ensures visited == old(visited) && chain == old(chain)
      ensures out == old(out) + ChainsBehind(old(chain), PathsFrom(adj, e, end, old(visited)))
      decreases |Targets(adj) - visited|, 0
    {
      if e.to in visited {
        return;
      }
      chain := chain + [e.entry];
      if e.to == end {
        assert Entries([e]) == [e.entry];
        assert ChainsBehind(old(chain), [[e]]) == [chain];
        out := out + [chain];
      } else {
        ChainsBehindPrefixed(old(chain), e, Paths(adj, e.to, end, visited + {e.to}));
        FewerLeft(adj, e.to, visited);
        visited := visited + {e.to};
        Dfs(adj, e.to, end);
        visited := visited - {e.to};
      }
      chain := chain[..|chain| - 1];
    }
  }

  method EnumerateChains(adj: Adjacency, start: string, end: string) returns (out: seq<seq<MigrationEntry>>)
    ensures start == end ==> out == []
    ensures start != end ==> out == ChainsBehind([], Paths(adj, start, end, {start}))
  {
    if start == end {
      return [];
    }
    var search := new ChainSearch(start);
    search.Dfs(adj, start, end);
    out := search.out;
  }
}
