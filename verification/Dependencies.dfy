/**
 Dependency ranks of class definitions: the recursive walk over dependencies counts paths.
 */
module Dependencies {
  import opened Wrappers

  /** The dependencies of every non-external definition, by complete name. */
  type Tree = map<string, seq<string>>

  /** Dependencies among non-external definitions go down in height: there is no cycle. */
  ghost predicate Acyclic(t: Tree, h: map<string, nat>) {
    forall a, d :: a in t && d in t[a] ==> Height(h, d) < Height(h, a)
  }

  ghost function Height(h: map<string, nat>, a: string): nat {
    if a in h then h[a] else 0
  }

  // Paths

  /** A path is the list of the positions of the dependencies it follows. */
  predicate IsPath(t: Tree, from: string, path: seq<nat>, to: string)
    decreases path
  {
    if path == [] then from == to
    else from in t && path[0] < |t[from]| && IsPath(t, t[from][path[0]], path[1..], to)
  }

  function Prefixed(i: nat, paths: seq<seq<nat>>): (r: seq<seq<nat>>)
    ensures |r| == |paths|
  {
    seq(|paths|, k requires 0 <= k < |paths| => [i] + paths[k])
  }

  /** All paths, the empty one included. */
  ghost function Paths(t: Tree, h: map<string, nat>, from: string, to: string): seq<seq<nat>>
    requires Acyclic(t, h)
    decreases Height(h, from), 2, 0
  {
    (if from == to then [[]] else []) + NonemptyPaths(t, h, from, to)
  }

  ghost function NonemptyPaths(t: Tree, h: map<string, nat>, from: string, to: string): seq<seq<nat>>
    requires Acyclic(t, h)
    decreases Height(h, from), 1, 0
  {
    if from in t then PathsVia(t, h, from, |t[from]|, to) else []
  }

  /** The paths that start with one of the first n dependencies. */
  ghost function PathsVia(t: Tree, h: map<string, nat>, from: string, n: nat, to: string): seq<seq<nat>>
    requires Acyclic(t, h) && from in t && n <= |t[from]|
    decreases Height(h, from), 0, n
  {
    if n == 0 then []
    else PathsVia(t, h, from, n - 1, to) + Prefixed(n - 1, Paths(t, h, t[from][n - 1], to))
  }

  lemma PrefixedHas(i: nat, paths: seq<seq<nat>>, p: seq<nat>)
    ensures p in Prefixed(i, paths) <==> p != [] && p[0] == i && p[1..] in paths
  {
    var r := Prefixed(i, paths);
    if p in r {
      var k :| 0 <= k < |r| && r[k] == p;
      assert p == [i] + paths[k] && p[1..] == paths[k];
    }
    if p != [] && p[0] == i && p[1..] in paths {
      var k :| 0 <= k < |paths| && paths[k] == p[1..];
      assert r[k] == [i] + p[1..] == p;
    }
  }

  /** The lists of paths hold exactly the paths. */
  lemma {:induction false} PathsAreComplete(t: Tree, h: map<string, nat>, from: string, to: string, p: seq<nat>)
    requires Acyclic(t, h)
    ensures p in Paths(t, h, from, to) <==> IsPath(t, from, p, to)
    ensures p in NonemptyPaths(t, h, from, to) <==> p != [] && IsPath(t, from, p, to)
    decreases Height(h, from), 1, 0
  {
    if from in t {
      PathsViaComplete(t, h, from, |t[from]|, to, p);
    }
  }

  lemma {:induction false} PathsViaComplete(t: Tree, h: map<string, nat>, from: string, n: nat, to: string, p: seq<nat>)
    requires Acyclic(t, h) && from in t && n <= |t[from]|
    ensures p in PathsVia(t, h, from, n, to) <==> p != [] && p[0] < n && IsPath(t, from, p, to)
    decreases Height(h, from), 0, n
  {
    if n > 0 {
      PathsViaComplete(t, h, from, n - 1, to, p);
      PrefixedHas(n - 1, Paths(t, h, t[from][n - 1], to), p);
      if p != [] && p[0] == n - 1 {
        PathsAreComplete(t, h, t[from][n - 1], to, p[1..]);
      }
    }
  }

  predicate NoDuplicates(paths: seq<seq<nat>>) {
    forall i, j :: 0 <= i < j < |paths| ==> paths[i] != paths[j]
  }

  /** No path is listed twice. */
  lemma {:induction false} PathsAreDistinct(t: Tree, h: map<string, nat>, from: string, to: string)
    requires Acyclic(t, h)
    ensures NoDuplicates(Paths(t, h, from, to)) && NoDuplicates(NonemptyPaths(t, h, from, to))
    decreases Height(h, from), 1, 0
  {
    if from in t {
      PathsViaDistinct(t, h, from, |t[from]|, to);
    }
    PathsAreComplete(t, h, from, to, []);
  }

  lemma {:induction false} PathsViaDistinct(t: Tree, h: map<string, nat>, from: string, n: nat, to: string)
    requires Acyclic(t, h) && from in t && n <= |t[from]|
    ensures NoDuplicates(PathsVia(t, h, from, n, to))
    decreases Height(h, from), 0, n
  {
    if n > 0 {
      var first, last := PathsVia(t, h, from, n - 1, to), Prefixed(n - 1, Paths(t, h, t[from][n - 1], to));
      PathsViaDistinct(t, h, from, n - 1, to);
      PathsAreDistinct(t, h, t[from][n - 1], to);
      forall i, j | 0 <= i < |first| && 0 <= j < |last| ensures first[i] != last[j] {
        assert first[i] in first && last[j] in last;
        PathsViaComplete(t, h, from, n - 1, to, first[i]);
        PrefixedHas(n - 1, Paths(t, h, t[from][n - 1], to), last[j]);
      }
      forall i, j | 0 <= i < j < |last| ensures last[i] != last[j] {
        assert last[i][1..] == Paths(t, h, t[from][n - 1], to)[i] && last[j][1..] == Paths(t, h, t[from][n - 1], to)[j];
      }
    }
  }

  /** All nonempty paths that end in `to`, with the definition they start from. */
  ghost function PathsInto(t: Tree, h: map<string, nat>, order: seq<string>, to: string): seq<(string, seq<nat>)>
    requires Acyclic(t, h)
  {
    if order == [] then []
    else PathsInto(t, h, order[..|order| - 1], to) + From(order[|order| - 1], NonemptyPaths(t, h, order[|order| - 1], to))
  }

  lemma PathsIntoThen(t: Tree, h: map<string, nat>, order: seq<string>, k: nat, to: string)
    requires Acyclic(t, h) && k < |order|
    ensures |PathsInto(t, h, order[..k + 1], to)| == |PathsInto(t, h, order[..k], to)| + |NonemptyPaths(t, h, order[k], to)|
  {
    var longer := order[..k + 1];
    assert longer[..|longer| - 1] == order[..k] && longer[|longer| - 1] == order[k];
  }

  function From(a: string, paths: seq<seq<nat>>): (r: seq<(string, seq<nat>)>)
    ensures |r| == |paths|
  {
    seq(|paths|, k requires 0 <= k < |paths| => (a, paths[k]))
  }

  ghost predicate Repeats<T(!new)>(s: seq<T>) {
    exists i, j :: 0 <= i < j < |s| && s[i] == s[j]
  }

  /** Each path into a definition is counted once, wherever it starts. */
  lemma {:induction false} PathsIntoAreExact(t: Tree, h: map<string, nat>, order: seq<string>, to: string)
    requires Acyclic(t, h) && !Repeats(order)
    ensures !Repeats(PathsInto(t, h, order, to))
    ensures forall a, p :: (a, p) in PathsInto(t, h, order, to) <==> a in order && p != [] && IsPath(t, a, p, to)
  {
    if order != [] {
      var init, a := order[..|order| - 1], order[|order| - 1];
      assert !Repeats(init) by {
        assert forall i, j :: 0 <= i < j < |init| ==> init[i] == order[i] && init[j] == order[j];
      }
      assert a !in init;
      assert order == init + [a];
      var before, own, last := PathsInto(t, h, init, to), NonemptyPaths(t, h, a, to), From(a, NonemptyPaths(t, h, a, to));
      PathsIntoAreExact(t, h, init, to);
      PathsAreDistinct(t, h, a, to);
      forall b, p ensures (b, p) in last <==> b == a && p != [] && IsPath(t, a, p, to) {
        PathsAreComplete(t, h, a, to, p);
        if b == a && p in own {
          var k :| 0 <= k < |own| && own[k] == p;
          assert last[k] == (a, p);
        }
      }
      var all := before + last;
      forall i, j | 0 <= i < j < |all| ensures all[i] != all[j] {
        if i >= |before| {
          assert own[i - |before|] != own[j - |before|];
        } else if j >= |before| {
          assert before[i] in before && last[j - |before|] in last && last[j - |before|].0 == a;
          assert before[i] == (before[i].0, before[i].1);
        }
      }
    }
  }

  // Edges

  /** Where a class comes from, its dependency can be reached too; the dependency alone is one path more. */
  lemma {:induction false} EdgeAdds(t: Tree, h: map<string, nat>, from: string, a: string, i: nat)
    requires Acyclic(t, h) && a in t && i < |t[a]|
    ensures |Paths(t, h, from, a)| <= |Paths(t, h, from, t[a][i])|
    ensures |NonemptyPaths(t, h, from, a)| + (if from == a then 1 else 0) <= |NonemptyPaths(t, h, from, t[a][i])|
    decreases Height(h, from), 1, 0
  {
    if from == a {
      NoPathBack(t, h, a);
      PathsAreComplete(t, h, a, t[a][i], [i]);
      assert IsPath(t, a, [i], t[a][i]) by {
        assert [i][1..] == [];
      }
      assert |NonemptyPaths(t, h, a, t[a][i])| >= 1;
    } else if from in t {
      EdgeAddsVia(t, h, from, |t[from]|, a, i);
    }
  }

  lemma {:induction false} EdgeAddsVia(t: Tree, h: map<string, nat>, from: string, n: nat, a: string, i: nat)
    requires Acyclic(t, h) && from in t && n <= |t[from]| && a in t && i < |t[a]|
    ensures |PathsVia(t, h, from, n, a)| <= |PathsVia(t, h, from, n, t[a][i])|
    decreases Height(h, from), 0, n
  {
    if n > 0 {
      EdgeAddsVia(t, h, from, n - 1, a, i);
      EdgeAdds(t, h, t[from][n - 1], a, i);
    }
  }

  /** Paths descend, so none comes back. */
  lemma {:induction false} PathsDescend(t: Tree, h: map<string, nat>, from: string, p: seq<nat>, to: string)
    requires Acyclic(t, h) && IsPath(t, from, p, to)
    ensures p != [] ==> Height(h, to) < Height(h, from)
    decreases p
  {
    if p != [] {
      PathsDescend(t, h, t[from][p[0]], p[1..], to);
    }
  }

  lemma NoPathBack(t: Tree, h: map<string, nat>, a: string)
    requires Acyclic(t, h)
    ensures NonemptyPaths(t, h, a, a) == []
  {
    var paths := NonemptyPaths(t, h, a, a);
    if paths != [] {
      assert paths[0] in paths;
      PathsAreComplete(t, h, a, a, paths[0]);
      PathsDescend(t, h, a, paths[0], a);
    }
  }

  /** An edge raises the rank of its end by at least one more than the rank of its start. */
  lemma {:induction false} EdgesRaise(t: Tree, h: map<string, nat>, order: seq<string>, a: string, i: nat)
    requires Acyclic(t, h) && a in t && i < |t[a]| && !Repeats(order)
    ensures |PathsInto(t, h, order, a)| + (if a in order then 1 else 0) <= |PathsInto(t, h, order, t[a][i])|
  {
    if order != [] {
      var init, last := order[..|order| - 1], order[|order| - 1];
      assert !Repeats(init) by {
        assert forall j, k :: 0 <= j < k < |init| ==> init[j] == order[j] && init[k] == order[k];
      }
      assert last !in init && order == init + [last];
      EdgesRaise(t, h, init, a, i);
      EdgeAdds(t, h, last, a, i);
    }
  }

  // Acyclic means without cycles

  ghost predicate NoCycle(t: Tree) {
    forall a, p :: p != [] ==> !IsPath(t, a, p, a)
  }

  lemma {:induction false} PathThen(t: Tree, a: string, p: seq<nat>, b: string, q: seq<nat>, c: string)
    requires IsPath(t, a, p, b) && IsPath(t, b, q, c)
    ensures IsPath(t, a, p + q, c)
    decreases p
  {
    if p == [] {
      assert p + q == q;
    } else {
      PathThen(t, t[a][p[0]], p[1..], b, q, c);
      assert (p + q)[1..] == p[1..] + q;
    }
  }

  /** Every definition in `seen` depends on a. */
  ghost predicate LeadsTo(t: Tree, seen: set<string>, a: string) {
    forall s <- seen :: exists p :: p != [] && IsPath(t, s, p, a)
  }

  lemma EdgeIsPath(t: Tree, a: string, d: string) returns (p: seq<nat>)
    requires a in t && d in t[a]
    ensures p != [] && IsPath(t, a, p, d)
  {
    var i :| 0 <= i < |t[a]| && t[a][i] == d;
    p := [i];
    assert p[1..] == [];
  }

  /** Following dependencies inside a set of definitions ends, at one that has none inside. */
  lemma {:induction false} Bottom(t: Tree, group: set<string>, a: string, seen: set<string>) returns (s: string)
    requires NoCycle(t) && group <= t.Keys && a in group && a !in seen && seen <= group && LeadsTo(t, seen, a)
    ensures s in group && forall d <- t[s] :: d !in group
    decreases |group| - |seen|
  {
    if d :| d in t[a] && d in group {
      var e := EdgeIsPath(t, a, d);
      forall s <- seen + {a} ensures exists p :: p != [] && IsPath(t, s, p, d) {
        if s != a {
          var p :| p != [] && IsPath(t, s, p, a);
          PathThen(t, s, p, a, e, d);
        }
      }
      assert d !in seen + {a};
      Smaller(seen + {a}, group, d);
      s := Bottom(t, group, d, seen + {a});
    } else {
      s := a;
    }
  }

  lemma Smaller(seen: set<string>, group: set<string>, d: string)
    requires seen <= group && d in group && d !in seen
    ensures |seen| < |group|
  {
    assert seen <= group - {d};
    assert |group - {d}| == |group| - 1;
    SubsetSize(seen, group - {d});
  }

  lemma {:induction false} SubsetSize(a: set<string>, b: set<string>)
    requires a <= b
    ensures |a| <= |b|
    decreases a
  {
    if x :| x in a {
      SubsetSize(a - {x}, b - {x});
    }
  }

  /** Heights for the definitions of a set, at least 1. */
  ghost predicate Heights(t: Tree, group: set<string>, h: map<string, nat>) {
    h.Keys == group && forall a <- group :: a in t && h[a] >= 1 && forall d <- t[a] :: d in group ==> h[d] < h[a]
  }

  lemma {:induction false} HeightsExist(t: Tree, group: set<string>) returns (h: map<string, nat>)
    requires NoCycle(t) && group <= t.Keys
    ensures Heights(t, group, h)
    decreases |group|
  {
    if a :| a in group {
      var s := Bottom(t, group, a, {});
      var lower := HeightsExist(t, group - {s});
      h := (map b | b in group - {s} :: lower[b] + 1) + map[s := 1];
    } else {
      h := map[];
    }
  }

  /** Dependencies have heights exactly if they have no cycle. */
  lemma AcyclicMeansNoCycle(t: Tree)
    ensures (exists h :: Acyclic(t, h)) <==> NoCycle(t)
  {
    if h :| Acyclic(t, h) {
      forall a, p | p != [] ensures !IsPath(t, a, p, a) {
        if IsPath(t, a, p, a) {
          PathsDescend(t, h, a, p, a);
        }
      }
    }
    if NoCycle(t) {
      var h := HeightsExist(t, t.Keys);
      assert Acyclic(t, h);
    }
  }
}
