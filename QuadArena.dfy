/**
 * The arena both quadtrees keep their nodes in: per-node bounds, objects
 * and children, with ghost parent links. A node has no children or four,
 * made by splitting it into the quadrants of `Quadrant`, and the four are
 * appended to the arena, so a child always comes after its parent.
 */
module QuadArena {
  import opened Geometry
  import opened Forest

  /** Every object stored in node `n` or in a node after it in the arena. */
  ghost function Stored(objects: seq<seq<Item>>, n: nat): multiset<Item>
    decreases |objects| - n
  {
    if n >= |objects| then multiset{} else multiset(objects[n]) + Stored(objects, n + 1)
  }

  /** Replacing the objects of one node replaces exactly those in the total. */
  lemma {:induction false} StoredUpdate(objects: seq<seq<Item>>, j: nat, x: seq<Item>, n: nat)
    requires j < |objects|
    ensures n <= j ==> Stored(objects[j := x], n) + multiset(objects[j]) == Stored(objects, n) + multiset(x)
    ensures n > j ==> Stored(objects[j := x], n) == Stored(objects, n)
    decreases |objects| - n
  {
    if n < |objects| {
      StoredUpdate(objects, j, x, n + 1);
      var updated := objects[j := x];
      assert Stored(updated, n) == multiset(updated[n]) + Stored(updated, n + 1);
      assert Stored(objects, n) == multiset(objects[n]) + Stored(objects, n + 1);
      if n == j {
        assert Stored(updated, n + 1) == Stored(objects, n + 1);
      } else if n < j {
        assert updated[n] == objects[n];
        assert Stored(updated, n + 1) + multiset(objects[j]) == Stored(objects, n + 1) + multiset(x);
        assert Stored(updated, n) + multiset(objects[j])
            == multiset(objects[n]) + (Stored(updated, n + 1) + multiset(objects[j]));
      }
    }
  }

  lemma StoredAppend(objects: seq<seq<Item>>, n: nat, item: Item)
    requires n < |objects|
    ensures Stored(objects[n := objects[n] + [item]], 0) == Stored(objects, 0) + multiset{item}
  {
    var before, after := Stored(objects, 0), Stored(objects[n := objects[n] + [item]], 0);
    StoredUpdate(objects, n, objects[n] + [item], 0);
    assert multiset(objects[n] + [item]) == multiset(objects[n]) + multiset{item};
    assert after + multiset(objects[n]) == before + multiset(objects[n] + [item]);
    assert after + multiset(objects[n]) == (before + multiset{item}) + multiset(objects[n]);
    MultisetCancel(after, before + multiset{item}, multiset(objects[n]));
  }

  lemma MultisetCancel(a: multiset<Item>, b: multiset<Item>, c: multiset<Item>)
    requires a + c == b + c
    ensures a == b
  {
    forall x ensures a[x] == b[x] {
      assert (a + c)[x] == a[x] + c[x] && (b + c)[x] == b[x] + c[x];
    }
  }

  /** Nodes with no objects add nothing to the total. */
  lemma {:induction false} StoredEmpty(objects: seq<seq<Item>>, tail: seq<seq<Item>>, n: nat)
    requires forall t :: 0 <= t < |tail| ==> tail[t] == []
    ensures Stored(objects + tail, n) == Stored(objects, n)
    decreases |objects| + |tail| - n
  {
    if n < |objects| + |tail| {
      StoredEmpty(objects, tail, n + 1);
      assert (objects + tail)[n] == if n < |objects| then objects[n] else tail[n - |objects|];
    }
  }

  lemma {:induction false} StoredShrinks(objects: seq<seq<Item>>, n: nat, m: nat)
    requires n <= m
    ensures Stored(objects, m) <= Stored(objects, n)
    decreases m - n
  {
    if n < m {
      StoredShrinks(objects, n + 1, m);
    }
  }

  /** Every node has no children or four, and children come after their parent. */
  ghost predicate Downward(children: seq<seq<nat>>)
  {
    && (forall n :: 0 <= n < |children| ==> |children[n]| == 0 || |children[n]| == 4)
    && (forall n, i :: 0 <= n < |children| && 0 <= i < |children[n]| ==> n < children[n][i] < |children|)
  }

  /**
   * The arena's links: every node has no children or four, a child comes
   * after its parent, records its parent and its position among the
   * children, and has the bounds a split (`Split` of Quadtree.h, `Subdivide` of Quadtree.cpp) gave that position.
   */
  ghost predicate Shape(bounds: seq<Rect>, children: seq<seq<nat>>, parent: seq<nat>, slot: seq<nat>)
  {
    && |bounds| >= 1 && |children| == |bounds| && |parent| == |bounds| && |slot| == |bounds|
    && Downward(children)
    && (forall n, i :: 0 <= n < |children| && 0 <= i < |children[n]| ==>
          && parent[children[n][i]] == n && slot[children[n][i]] == i
          && bounds[children[n][i]] == Quadrant(bounds[n], i))
    && (forall m :: 0 < m < |parent| ==>
          && parent[m] < m && slot[m] < 4
          && |children[parent[m]]| == 4 && children[parent[m]][slot[m]] == m)
  }

  /** Giving childless node `n` four new quadrant nodes at the end of the arena keeps its links intact. */
  lemma SplitShape(bounds: seq<Rect>, children: seq<seq<nat>>, parent: seq<nat>, slot: seq<nat>, n: nat)
    requires Shape(bounds, children, parent, slot) && n < |bounds| && children[n] == []
    ensures Shape(bounds + Quadrants(bounds[n]), children[n := NewNodes(|bounds|)] + seq(4, _ => []),
                  parent + seq(4, _ => n), slot + NewNodes(0))
  {
    var N := |bounds|;
    var b := bounds + Quadrants(bounds[n]);
    var c := children[n := NewNodes(N)] + seq(4, _ => []);
    var p := parent + seq(4, _ => n);
    var s := slot + NewNodes(0);
    forall m, i | 0 <= m < |c| && 0 <= i < |c[m]|
      ensures m < c[m][i] < |c|
      ensures p[c[m][i]] == m && s[c[m][i]] == i && b[c[m][i]] == Quadrant(b[m], i)
    {
      if m == n {
        assert c[m][i] == N + i && b[m] == bounds[n];
      } else {
        assert m < N && c[m] == children[m];
        var x := children[m][i];
        assert x < N && b[m] == bounds[m];
        assert p[x] == parent[x] && s[x] == slot[x] && b[x] == bounds[x];
      }
    }
    forall m | 0 < m < |p|
      ensures p[m] < m && s[m] < 4 && |c[p[m]]| == 4 && c[p[m]][s[m]] == m
    {
      if m < N {
        assert p[m] == parent[m] && s[m] == slot[m] && parent[m] != n;
      } else {
        assert p[m] == n && s[m] == m - N;
      }
    }
  }

  /** Taking out element `i` takes exactly that element out of the multiset. */
  lemma MultisetRemove(s: seq<Item>, i: int)
    requires 0 <= i < |s|
    ensures multiset(s[..i] + s[i + 1..]) + multiset{s[i]} == multiset(s)
  {
    assert s == s[..i] + [s[i]] + s[i + 1..];
  }

  /** The whole state of an arena, for relating two states of it. */
  datatype Arena = Arena(bounds: seq<Rect>, objects: seq<seq<Item>>, children: seq<seq<nat>>, parent: seq<nat>, slot: seq<nat>)

  /**
   * From `a0` to `a` only the subtree of `n` changed: the old nodes keep
   * their bounds and links, nodes outside the subtree keep their objects and
   * children, and every new node lies in the subtree.
   */
  ghost predicate ChangedBelow(a0: Arena, a: Arena, n: nat)
  {
    && |a0.objects| == |a0.children| == |a0.parent| == |a0.slot| == |a0.bounds|
    && |a.objects| == |a.children| == |a.parent| == |a.slot| == |a.bounds|
    && |a0.bounds| <= |a.bounds|
    && a.bounds[..|a0.bounds|] == a0.bounds && a.parent[..|a0.parent|] == a0.parent && a.slot[..|a0.slot|] == a0.slot
    && (forall j {:trigger Descends(a0.parent, j, n)} :: 0 <= j < |a0.bounds| && !Descends(a0.parent, j, n) ==>
          a.objects[j] == a0.objects[j] && a.children[j] == a0.children[j])
    && (forall j :: |a0.bounds| <= j < |a.bounds| ==> Descends(a.parent, j, n))
  }

  /** A change below a node is a change below each of its ancestors. */
  lemma ChangedBelowWiden(a0: Arena, a: Arena, c: nat, n: nat)
    requires ChangedBelow(a0, a, c) && c < |a0.bounds| && Descends(a0.parent, c, n)
    ensures ChangedBelow(a0, a, n)
  {
    forall j | 0 <= j < |a0.bounds| && !Descends(a0.parent, j, n)
      ensures !Descends(a0.parent, j, c)
    {
      if Descends(a0.parent, j, c) {
        DescendsTrans(a0.parent, j, c, n);
      }
    }
    DescendsPrefix(a0.parent, a.parent, c, n);
    forall j | |a0.bounds| <= j < |a.bounds|
      ensures Descends(a.parent, j, n)
    {
      DescendsTrans(a.parent, j, c, n);
    }
  }

  /** Two changes below `n` in a row are one change below `n`. */
  lemma ChangedBelowTrans(a0: Arena, a1: Arena, a2: Arena, n: nat)
    requires ChangedBelow(a0, a1, n) && ChangedBelow(a1, a2, n)
    ensures ChangedBelow(a0, a2, n)
  {
    assert a2.bounds[..|a0.bounds|] == a1.bounds[..|a1.bounds|][..|a0.bounds|];
    assert a2.parent[..|a0.parent|] == a1.parent[..|a1.parent|][..|a0.parent|];
    assert a2.slot[..|a0.slot|] == a1.slot[..|a1.slot|][..|a0.slot|];
    forall j | 0 <= j < |a0.bounds| && !Descends(a0.parent, j, n)
      ensures a2.objects[j] == a0.objects[j] && a2.children[j] == a0.children[j]
    {
      DescendsPrefix(a0.parent, a1.parent, j, n);
    }
    forall j | |a0.bounds| <= j < |a2.bounds|
      ensures Descends(a2.parent, j, n)
    {
      if j < |a1.bounds| {
        DescendsPrefix(a1.parent, a2.parent, j, n);
      }
    }
  }

  /** Storing `item` at node `n` itself. */
  function Append(a: Arena, n: nat, item: Item): Arena
    requires n < |a.objects|
  {
    a.(objects := a.objects[n := a.objects[n] + [item]])
  }

  lemma ChangedAppend(a: Arena, n: nat, item: Item)
    requires Shape(a.bounds, a.children, a.parent, a.slot) && |a.objects| == |a.bounds| && n < |a.bounds|
    ensures ChangedBelow(a, Append(a, n, item), n)
  {
  }

  /** The arena after splitting childless node `n`: four empty quadrant nodes appended as its children. */
  function Divide(a: Arena, n: nat): Arena
    requires n < |a.bounds| && n < |a.children|
  {
    Arena(a.bounds + Quadrants(a.bounds[n]), a.objects + seq(4, _ => []),
          a.children[n := NewNodes(|a.bounds|)] + seq(4, _ => []),
          a.parent + seq(4, _ => n), a.slot + NewNodes(0))
  }

  lemma ChangedDivide(a: Arena, n: nat)
    requires Shape(a.bounds, a.children, a.parent, a.slot) && |a.objects| == |a.bounds| && n < |a.bounds|
    ensures ChangedBelow(a, Divide(a, n), n)
  {
    var d := Divide(a, n);
    forall j | |a.bounds| <= j < |d.bounds|
      ensures Descends(d.parent, j, n)
    {
      assert d.parent[j] == n < j;
    }
  }

  /** The arena after object `i` of node `n` has been erased from it. */
  function TakeOut(a: Arena, n: nat, i: nat): Arena
    requires n < |a.objects| && i < |a.objects[n]|
  {
    a.(objects := a.objects[n := a.objects[n][..i] + a.objects[n][i + 1..]])
  }

  lemma StoredTakeOut(objects: seq<seq<Item>>, n: nat, i: nat)
    requires n < |objects| && i < |objects[n]|
    ensures Stored(objects[n := objects[n][..i] + objects[n][i + 1..]], 0) + multiset{objects[n][i]} == Stored(objects, 0)
  {
    var x := objects[n][..i] + objects[n][i + 1..];
    var after := Stored(objects[n := x], 0);
    StoredUpdate(objects, n, x, 0);
    MultisetRemove(objects[n], i);
    assert after + multiset(objects[n]) == Stored(objects, 0) + multiset(x);
    assert after + multiset{objects[n][i]} + multiset(x) == Stored(objects, 0) + multiset(x);
    MultisetCancel(after + multiset{objects[n][i]}, Stored(objects, 0), multiset(x));
  }

  /**
   * A change below child `c` of `n` is a change below `n` that leaves the
   * objects and children of `n` itself as they were.
   */
  lemma PassedDown(a0: Arena, a: Arena, c: nat, n: nat)
    requires ChangedBelow(a0, a, c) && n < c < |a0.bounds| && Descends(a0.parent, c, n)
    ensures ChangedBelow(a0, a, n)
    ensures a.objects[n] == a0.objects[n] && a.children[n] == a0.children[n]
  {
    ChangedBelowWiden(a0, a, c, n);
    if Descends(a0.parent, n, c) {
      DescendsAbove(a0.parent, n, c);
    }
  }
}
