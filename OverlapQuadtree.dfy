/**
 * The quadtree of `Quadtree.cpp`: a node stores an object that overlaps it
 * while it has room and is not divided; otherwise it divides (once) and
 * offers the object to all four children, so one object may end up in
 * several nodes. `Query` filters by overlap at every level.
 */
module OverlapQuadtree {
  import opened Geometry
  import opened Forest
  import opened QuadArena

  /** `2^31`: `capacity` is a 32-bit `int`. */
  const IntRange: int := 0x8000_0000
  /** `2^64`: `objects.size()` is a 64-bit `size_t`. */
  const SizeRange: int := 0x1_0000_0000_0000_0000

  /**
   * The bound `objects.size() < capacity` really tests: the usual arithmetic
   * conversions turn a negative `capacity` into a huge unsigned value, so
   * such a node never runs out of room.
   */
  function Limit(capacity: int): (l: nat)
    requires -IntRange <= capacity < IntRange
    ensures capacity >= 0 ==> l == capacity
    ensures capacity < 0 ==> l >= SizeRange - IntRange && l + -capacity == SizeRange
  {
    if capacity < 0 then capacity + SizeRange else capacity
  }

  /** Both extents of `r` are positive. */
  predicate Solid(r: Rect)
  {
    r.width > 0.0 && r.height > 0.0
  }

  /** `r` overlaps node `m` and every ancestor of `m`: the gates `Insert` and `Query` pass on the way down to `m`. */
  ghost predicate Reaches(bounds: seq<Rect>, parent: seq<nat>, m: nat, r: Rect)
    decreases m
  {
    && m < |bounds| && Overlaps(bounds[m], r)
    && (m == 0 || (m < |parent| && parent[m] < m && Reaches(bounds, parent, parent[m], r)))
  }

  /** Appending nodes to the arena does not change what reaches the old ones. */
  lemma {:induction false} ReachesPrefix(b: seq<Rect>, p: seq<nat>, b': seq<Rect>, p': seq<nat>, m: nat, r: Rect)
    requires m < |b| == |p| <= |b'| == |p'| && b'[..|b|] == b && p'[..|p|] == p
    ensures Reaches(b', p', m, r) <==> Reaches(b, p, m, r)
    decreases m
  {
    assert b'[m] == b[m];
    if m != 0 {
      assert p'[m] == p[m];
      if p[m] < m {
        ReachesPrefix(b, p, b', p', p[m], r);
      }
    }
  }

  /** No node holds more than `limit` objects, and every stored object reaches its node. */
  ghost predicate Good(a: Arena, limit: nat)
  {
    && Shape(a.bounds, a.children, a.parent, a.slot) && |a.objects| == |a.bounds|
    && (forall m :: 0 <= m < |a.objects| ==> |a.objects[m]| <= limit)
    && (forall m, k :: 0 <= m < |a.objects| && 0 <= k < |a.objects[m]| ==>
          Reaches(a.bounds, a.parent, m, a.objects[m][k].bounds))
  }

  /** No node loses an object: every node keeps its old objects as a prefix. */
  ghost predicate Grows(o0: seq<seq<Item>>, o: seq<seq<Item>>)
  {
    |o0| <= |o| && forall m :: 0 <= m < |o0| ==> o0[m] <= o[m]
  }

  /** Every entry that `o` has beyond the old entries `o0` (at an old node or a new one) is `item`. */
  ghost predicate OnlyAdded(o0: seq<seq<Item>>, o: seq<seq<Item>>, item: Item)
  {
    forall m, k :: 0 <= m < |o| && 0 <= k < |o[m]| && (m >= |o0| || k >= |o0[m]|) ==> o[m][k] == item
  }

  /** Adding only `item`, twice over, adds only `item`. */
  lemma OnlyAddedTrans(o0: seq<seq<Item>>, o1: seq<seq<Item>>, o2: seq<seq<Item>>, item: Item)
    requires Grows(o0, o1) && Grows(o1, o2) && OnlyAdded(o0, o1, item) && OnlyAdded(o1, o2, item)
    ensures OnlyAdded(o0, o2, item)
  {
    forall m, k | 0 <= m < |o2| && 0 <= k < |o2[m]| && (m >= |o0| || k >= |o0[m]|)
      ensures o2[m][k] == item
    {
      if m < |o1| && k < |o1[m]| {
        assert o2[m][k] == o1[m][k];
      }
    }
  }

  /** A push of `item` adds only `item`; a split adds only empty nodes. */
  lemma PushDivideOnlyAdded(a: Arena, n: nat, item: Item)
    requires n < |a.bounds| && n < |a.children| && n < |a.objects|
    ensures OnlyAdded(a.objects, Append(a, n, item).objects, item)
    ensures OnlyAdded(a.objects, Divide(a, n).objects, item)
  {
    var o := Append(a, n, item).objects;
    forall m, k | 0 <= m < |o| && 0 <= k < |o[m]| && (m >= |a.objects| || k >= |a.objects[m]|)
      ensures o[m][k] == item
    {
      assert m == n && k == |a.objects[n]|;
    }
  }

  /** No node gains more than one entry: at most one beyond what it had in `o0`, and a new node holds at most one. */
  ghost predicate OneMore(o0: seq<seq<Item>>, o: seq<seq<Item>>)
  {
    |o0| <= |o| && forall m :: 0 <= m < |o| ==> |o[m]| <= (if m < |o0| then |o0[m]| else 0) + 1
  }

  /** Nothing in the subtree of `c` changed since `from`: its old nodes keep their objects and its new nodes are empty. */
  ghost predicate Untouched(from: Arena, a: Arena, c: nat)
  {
    forall m {:trigger Descends(a.parent, m, c)} :: 0 <= m < |a.objects| && Descends(a.parent, m, c) ==>
      a.objects[m] == (if m < |from.objects| then from.objects[m] else [])
  }

  /** A push adds one entry at one node; a split adds four empty leaves, which nothing has touched yet. */
  lemma PushDivideOneMore(a: Arena, n: nat, item: Item)
    requires n < |a.bounds| == |a.objects| == |a.children| == |a.parent|
    ensures OneMore(a.objects, Append(a, n, item).objects)
    ensures OneMore(a.objects, Divide(a, n).objects)
    ensures forall q :: 0 <= q < 4 ==> Untouched(a, Divide(a, n), Divide(a, n).children[n][q])
  {
    var d := Divide(a, n);
    forall q | 0 <= q < 4
      ensures Untouched(a, d, d.children[n][q])
    {
      forall m | 0 <= m < |d.objects| && Descends(d.parent, m, d.children[n][q])
        ensures d.objects[m] == (if m < |a.objects| then a.objects[m] else [])
      {
        DescendsAbove(d.parent, m, d.children[n][q]);
      }
    }
  }

  /**
   * Child `q` of `n` was untouched since `from` until it was offered the
   * object, and the offer added at most one entry per node below it: then
   * each node still has at most one entry more than in `from`, and the later
   * children, whose subtrees are disjoint from that of `q`, stay untouched.
   */
  lemma OfferOneMore(from: Arena, a0: Arena, a: Arena, limit: nat, n: nat, q: nat)
    requires Good(a0, limit) && n < |a0.bounds| && a0.children[n] != [] && q < 4
    requires ChangedBelow(a0, a, a0.children[n][q]) && a.children[n] == a0.children[n]
    requires |from.objects| <= |a0.objects| && OneMore(from.objects, a0.objects) && OneMore(a0.objects, a.objects)
    requires Untouched(from, a0, a0.children[n][q])
    requires forall q' :: q < q' < 4 ==> Untouched(from, a0, a0.children[n][q'])
    ensures OneMore(from.objects, a.objects)
    ensures forall q' :: q < q' < 4 ==> Untouched(from, a, a.children[n][q'])
  {
    var c := a0.children[n][q];
    assert a0.parent[c] == n < c;
    forall m | 0 <= m < |a.objects|
      ensures |a.objects[m]| <= (if m < |from.objects| then |from.objects[m]| else 0) + 1
    {
      if m < |a0.objects| && !Descends(a0.parent, m, c) {
        assert a.objects[m] == a0.objects[m];
      } else if m < |a0.objects| {
        assert a0.objects[m] == (if m < |from.objects| then from.objects[m] else []);
      }
    }
    forall q' | q < q' < 4
      ensures Untouched(from, a, a.children[n][q'])
    {
      var d := a0.children[n][q'];
      assert a0.parent[d] == n < d && a.parent[c] == n && a.parent[d] == n;
      forall m | 0 <= m < |a.objects| && Descends(a.parent, m, d)
        ensures a.objects[m] == (if m < |from.objects| then from.objects[m] else [])
      {
        if m < |a0.objects| {
          DescendsPrefix(a0.parent, a.parent, m, d);
          Siblings(a0.parent, m, d, c);
          assert a.objects[m] == a0.objects[m];
        } else {
          Siblings(a.parent, m, d, c);
        }
      }
    }
  }

  /** `item` is stored at `n` or at a node below it. */
  ghost predicate Kept(a: Arena, n: nat, item: Item)
  {
    exists m :: 0 <= m < |a.objects| && Descends(a.parent, m, n) && item in a.objects[m]
  }

  /** Once stored, an object stays stored below the same node while objects only grow and links stay. */
  lemma KeptGrows(a0: Arena, a: Arena, n: nat, item: Item)
    requires Kept(a0, n, item) && Grows(a0.objects, a.objects)
    requires |a0.objects| == |a0.parent| <= |a.parent| && a.parent[..|a0.parent|] == a0.parent
    ensures Kept(a, n, item)
  {
    var m :| 0 <= m < |a0.objects| && Descends(a0.parent, m, n) && item in a0.objects[m];
    DescendsPrefix(a0.parent, a.parent, m, n);
    assert item in a.objects[m] by {
      var k :| 0 <= k < |a0.objects[m]| && a0.objects[m][k] == item;
      assert a.objects[m][k] == item;
    }
  }

  /** Child `q` of `n`, when `item` overlaps it, keeps `item` in its subtree. */
  ghost predicate KeptInChild(a: Arena, n: nat, q: nat, item: Item)
    requires n < |a.children| && q < |a.children[n]|
  {
    a.children[n][q] < |a.bounds| && Overlaps(a.bounds[a.children[n][q]], item.bounds) ==> Kept(a, a.children[n][q], item)
  }

  /** Each of the first `k` children of `n` that `item` overlaps keeps it in its subtree. */
  ghost predicate KeptInChildren(a: Arena, n: nat, k: nat, item: Item)
    decreases k
  {
    && n < |a.children| && k <= |a.children[n]|
    && (k > 0 ==> KeptInChildren(a, n, k - 1, item) && KeptInChild(a, n, k - 1, item))
  }

  /** `KeptInChildren` holds exactly when every one of the first `k` children that `item` overlaps keeps it. */
  lemma {:induction false} KeptInChildrenMeans(a: Arena, n: nat, k: nat, item: Item)
    ensures KeptInChildren(a, n, k, item) <==>
      && n < |a.children| && k <= |a.children[n]|
      && forall q :: 0 <= q < k && a.children[n][q] < |a.bounds| && Overlaps(a.bounds[a.children[n][q]], item.bounds) ==>
           Kept(a, a.children[n][q], item)
    decreases k
  {
    if k > 0 {
      KeptInChildrenMeans(a, n, k - 1, item);
    }
  }

  function Max(x: nat, y: nat): nat { if x < y then y else x }

  /** The height of the subtree of `m`: 0 for a leaf. */
  ghost function Height(children: seq<seq<nat>>, m: nat): nat
    requires Downward(children) && m < |children|
    decreases |children| - m
  {
    if children[m] == [] then 0
    else
      1 + Max(Max(Height(children, children[m][0]), Height(children, children[m][1])),
              Max(Height(children, children[m][2]), Height(children, children[m][3])))
  }

  /** A child is lower than its parent. */
  lemma HeightChild(children: seq<seq<nat>>, m: nat, q: nat)
    requires Downward(children) && m < |children| && children[m] != [] && q < 4
    ensures Height(children, children[m][q]) < Height(children, m)
  {
  }

  /** The height of a subtree depends only on the children lists inside it. */
  lemma {:induction false} HeightFrame(c0: seq<seq<nat>>, c: seq<seq<nat>>, parent: seq<nat>, x: nat)
    requires Downward(c0) && Downward(c) && x < |c0| <= |c| && |c0| <= |parent|
    requires forall n, i :: 0 <= n < |c0| && 0 <= i < |c0[n]| ==> parent[c0[n][i]] == n
    requires forall j {:trigger Descends(parent, j, x)} :: 0 <= j < |c0| && Descends(parent, j, x) ==> c[j] == c0[j]
    ensures Height(c, x) == Height(c0, x)
    decreases |c0| - x
  {
    assert Descends(parent, x, x);
    if c0[x] != [] {
      forall q | 0 <= q < 4
        ensures Height(c, c0[x][q]) == Height(c0, c0[x][q])
      {
        var y := c0[x][q];
        assert parent[y] == x < y && Descends(parent, y, x);
        forall j | 0 <= j < |c0| && Descends(parent, j, y)
          ensures c[j] == c0[j]
        {
          DescendsTrans(parent, j, y, x);
        }
        HeightFrame(c0, c, parent, y);
      }
    }
  }

  /**
   * How much further `Insert` on node `m` may still recurse: the height of its
   * subtree, plus one when it cannot take an object itself.
   */
  ghost function Rank(a: Arena, limit: nat, m: nat): nat
    requires Downward(a.children) && m < |a.children| && m < |a.objects|
  {
    Height(a.children, m) + if a.children[m] != [] || |a.objects[m]| >= limit then 1 else 0
  }

  /** Every child of a node that cannot take an object ranks below it. */
  lemma RankChild(a: Arena, limit: nat, m: nat, q: nat)
    requires Downward(a.children) && |a.objects| == |a.children| && m < |a.children| && a.children[m] != [] && q < 4
    ensures Rank(a, limit, a.children[m][q]) < Rank(a, limit, m)
  {
    HeightChild(a.children, m, q);
  }

  /**
   * A change below child `q` of `n` leaves the rank of every other child of
   * `n` as it was: the two subtrees share no node.
   */
  lemma SiblingRank(a0: Arena, a: Arena, limit: nat, n: nat, q: nat, q': nat)
    requires Good(a0, limit) && Downward(a.children) && n < |a0.bounds| && a0.children[n] != []
    requires q < 4 && q' < 4 && q != q'
    requires ChangedBelow(a0, a, a0.children[n][q])
    ensures Rank(a, limit, a0.children[n][q']) == Rank(a0, limit, a0.children[n][q'])
  {
    var c, d := a0.children[n][q], a0.children[n][q'];
    assert a0.parent[c] == n < c && a0.parent[d] == n < d;
    forall j | 0 <= j < |a0.children| && Descends(a0.parent, j, d)
      ensures a.children[j] == a0.children[j] && a.objects[j] == a0.objects[j]
    {
      Siblings(a0.parent, j, d, c);
    }
    HeightFrame(a0.children, a.children, a0.parent, d);
  }

  /** Storing an object that reaches `n` at `n`, while `n` has room, keeps the tree good and keeps the object. */
  lemma AppendKeeps(a: Arena, limit: nat, n: nat, item: Item)
    requires Good(a, limit) && n < |a.bounds| && |a.objects[n]| < limit
    requires Reaches(a.bounds, a.parent, n, item.bounds)
    ensures Good(Append(a, n, item), limit)
    ensures Grows(a.objects, Append(a, n, item).objects) && Kept(Append(a, n, item), n, item)
    ensures ChangedBelow(a, Append(a, n, item), n)
  {
    var o': seq<seq<Item>> := Append(a, n, item).objects;
    forall m, k | 0 <= m < |o'| && 0 <= k < |o'[m]|
      ensures Reaches(a.bounds, a.parent, m, o'[m][k].bounds)
    {
      if m != n || k < |a.objects[n]| {
        assert o'[m][k] == a.objects[m][k];
      }
    }
    assert Descends(a.parent, n, n) && item == o'[n][|a.objects[n]|];
    ChangedAppend(a, n, item);
  }

  /** Dividing a leaf keeps the tree good, adds no object, and gives it four children of rank 0. */
  lemma DivideKeeps(a: Arena, limit: nat, n: nat)
    requires Good(a, limit) && limit >= 1 && n < |a.bounds| && a.children[n] == []
    ensures Good(Divide(a, n), limit) && Grows(a.objects, Divide(a, n).objects)
    ensures ChangedBelow(a, Divide(a, n), n)
    ensures forall q :: 0 <= q < 4 ==> Rank(Divide(a, n), limit, Divide(a, n).children[n][q]) == 0
  {
    var d := Divide(a, n);
    SplitShape(a.bounds, a.children, a.parent, a.slot, n);
    forall m, k | 0 <= m < |d.objects| && 0 <= k < |d.objects[m]|
      ensures Reaches(d.bounds, d.parent, m, d.objects[m][k].bounds)
    {
      assert m < |a.objects| && d.objects[m] == a.objects[m];
      ReachesPrefix(a.bounds, a.parent, d.bounds, d.parent, m, a.objects[m][k].bounds);
    }
    ChangedDivide(a, n);
  }

  /**
   * The state a full leaf is in once `Insert` has divided it: the tree is
   * still good, no object moved, the object still reaches the node, and each
   * new child ranks below what the leaf ranked.
   */
  lemma DivideReady(a0: Arena, limit: nat, n: nat, item: Item)
    requires Good(a0, limit) && limit >= 1 && n < |a0.bounds| && Reaches(a0.bounds, a0.parent, n, item.bounds)
    requires |a0.objects[n]| >= limit && a0.children[n] == []
    ensures var a := Divide(a0, n);
      && Good(a, limit) && Grows(a0.objects, a.objects) && ChangedBelow(a0, a, n)
      && Reaches(a.bounds, a.parent, n, item.bounds)
      && forall q :: 0 <= q < 4 ==> Rank(a, limit, a.children[n][q]) < Rank(a0, limit, n)
  {
    DivideKeeps(a0, limit, n);
    ReachesPrefix(a0.bounds, a0.parent, Divide(a0, n).bounds, Divide(a0, n).parent, n, item.bounds);
  }

  /** A divided node is ready as it is: each child ranks below it. */
  lemma DividedReady(a: Arena, limit: nat, n: nat)
    requires Good(a, limit) && n < |a.bounds| && a.children[n] != []
    ensures Grows(a.objects, a.objects) && ChangedBelow(a, a, n)
    ensures forall q :: 0 <= q < 4 ==> Rank(a, limit, a.children[n][q]) < Rank(a, limit, n)
  {
    forall q | 0 <= q < 4
      ensures Rank(a, limit, a.children[n][q]) < Rank(a, limit, n)
    {
      RankChild(a, limit, n, q);
    }
  }

  /** The overlapping objects of `s`, in order: the filtering loop of `Query`. */
  function Matches(area: Rect, s: seq<Item>): (r: seq<Item>)
    ensures forall o :: o in r <==> o in s && Overlaps(area, o.bounds)
    ensures multiset(r) <= multiset(s)
  {
    if s == [] then []
    else
      var last := s[|s| - 1];
      assert s == s[..|s| - 1] + [last];
      Matches(area, s[..|s| - 1]) + if Overlaps(area, last.bounds) then [last] else []
  }

  /**
   * What `Query` on node `n` answers: nothing when the area misses the node,
   * otherwise the node's own objects that overlap the area, followed by the
   * answers of the four children in the order NW, NE, SW, SE.
   */
  ghost function Queried(bounds: seq<Rect>, objects: seq<seq<Item>>, children: seq<seq<nat>>, n: nat, area: Rect): seq<Item>
    requires |objects| == |children| == |bounds| && Downward(children) && n < |children|
    decreases |children| - n
  {
    if !Overlaps(bounds[n], area) then []
    else if children[n] == [] then Matches(area, objects[n])
    else
      Matches(area, objects[n]) +
      Queried(bounds, objects, children, children[n][0], area) + Queried(bounds, objects, children, children[n][1], area) +
      Queried(bounds, objects, children, children[n][2], area) + Queried(bounds, objects, children, children[n][3], area)
  }

  /** One more object scanned: `Matches` of the longer prefix adds it exactly when it overlaps. */
  lemma MatchesNext(area: Rect, s: seq<Item>, i: nat)
    requires i < |s|
    ensures Matches(area, s[..i + 1]) == Matches(area, s[..i]) + if Overlaps(area, s[i].bounds) then [s[i]] else []
  {
    assert s[..i + 1][..i] == s[..i];
  }

  /**
   * Everything `Query` from node `n` reports overlaps the area and is
   * stored at a node that the area reaches.
   */
  lemma {:induction false} QueriedSound(bounds: seq<Rect>, objects: seq<seq<Item>>, children: seq<seq<nat>>,
                                         parent: seq<nat>, slot: seq<nat>, n: nat, area: Rect, o: Item)
    requires |objects| == |bounds| && Shape(bounds, children, parent, slot) && n < |bounds|
    requires n == 0 || Reaches(bounds, parent, parent[n], area)
    requires o in Queried(bounds, objects, children, n, area)
    ensures Overlaps(area, o.bounds)
    ensures exists m :: 0 <= m < |objects| && o in objects[m] && Reaches(bounds, parent, m, area)
    decreases |bounds| - n
  {
    assert Overlaps(bounds[n], area) && Reaches(bounds, parent, n, area);
    if o !in Matches(area, objects[n]) {
      var q :| 0 <= q < 4 && o in Queried(bounds, objects, children, children[n][q], area);
      var c := children[n][q];
      assert parent[c] == n;
      QueriedSound(bounds, objects, children, parent, slot, c, area, o);
    }
  }

  /** What `Query` on a child reports, `Query` on its parent reports too, when the area overlaps the parent. */
  lemma QueriedChild(bounds: seq<Rect>, objects: seq<seq<Item>>, children: seq<seq<nat>>, p: nat, q: nat, area: Rect, o: Item)
    requires |objects| == |children| == |bounds| && Downward(children) && p < |children| && children[p] != [] && q < 4
    requires Overlaps(bounds[p], area) && o in Queried(bounds, objects, children, children[p][q], area)
    ensures o in Queried(bounds, objects, children, p, area)
  {
    var k := children[p];
    var r := [Queried(bounds, objects, children, k[0], area), Queried(bounds, objects, children, k[1], area),
              Queried(bounds, objects, children, k[2], area), Queried(bounds, objects, children, k[3], area)];
    assert o in r[q] by {
      if q == 0 { } else if q == 1 { } else if q == 2 { }
    }
    assert Queried(bounds, objects, children, p, area) == Matches(area, objects[p]) + r[0] + r[1] + r[2] + r[3];
  }

  /** Whatever `Query` on node `m` reports, `Query` on its parent reports too, as long as the area overlaps the parent. */
  lemma {:induction false} QueriedFromRoot(bounds: seq<Rect>, objects: seq<seq<Item>>, children: seq<seq<nat>>,
                                           parent: seq<nat>, slot: seq<nat>, m: nat, area: Rect, o: Item)
    requires |objects| == |bounds| && Shape(bounds, children, parent, slot) && m < |bounds|
    requires Reaches(bounds, parent, m, area) && o in Queried(bounds, objects, children, m, area)
    ensures o in Queried(bounds, objects, children, 0, area)
    decreases m
  {
    if m != 0 {
      var p := parent[m];
      QueriedChild(bounds, objects, children, p, slot[m], area, o);
      QueriedFromRoot(bounds, objects, children, parent, slot, p, area, o);
    }
  }

  /** Every object that overlaps the area, stored at a node the area reaches, is reported by `Query` from the root. */
  lemma QueriedComplete(bounds: seq<Rect>, objects: seq<seq<Item>>, children: seq<seq<nat>>,
                        parent: seq<nat>, slot: seq<nat>, m: nat, k: nat, area: Rect)
    requires |objects| == |bounds| && Shape(bounds, children, parent, slot) && m < |bounds| && k < |objects[m]|
    requires Reaches(bounds, parent, m, area) && Overlaps(area, objects[m][k].bounds)
    ensures objects[m][k] in Queried(bounds, objects, children, 0, area)
  {
    QueriedFromRoot(bounds, objects, children, parent, slot, m, area, objects[m][k]);
  }

  /** In a good tree, a solid object stored anywhere is reported by `Query` on its own bounds. */
  lemma KeptFound(a: Arena, limit: nat, item: Item)
    requires Good(a, limit) && Kept(a, 0, item) && Solid(item.bounds)
    ensures item in Queried(a.bounds, a.objects, a.children, 0, item.bounds)
  {
    var m :| 0 <= m < |a.objects| && Descends(a.parent, m, 0) && item in a.objects[m];
    var k :| 0 <= k < |a.objects[m]| && a.objects[m][k] == item;
    OverlapsSelf(item.bounds);
    QueriedComplete(a.bounds, a.objects, a.children, a.parent, a.slot, m, k, item.bounds);
  }

  /**
   * What a child call of `Insert` leaves behind: after the object went below
   * child `q` of `n`, the change still lies below `n`, node `n` itself is
   * as it was, the other children keep their rank, and the object stays
   * stored below `n` if it was, and is stored there now if it is solid and
   * overlaps the quadrant.
   */
  lemma OfferKeeps(a0: Arena, a: Arena, from: Arena, limit: nat, n: nat, q: nat, item: Item)
    requires Good(a0, limit) && Good(a, limit) && n < |a0.bounds| && a0.children[n] != [] && q < 4
    requires ChangedBelow(a0, a, a0.children[n][q]) && Grows(a0.objects, a.objects)
    requires Grows(from.objects, a0.objects) && ChangedBelow(from, a0, n)
    requires Overlaps(a0.bounds[a0.children[n][q]], item.bounds) && Solid(item.bounds) ==> Kept(a, a0.children[n][q], item)
    ensures Grows(from.objects, a.objects) && ChangedBelow(from, a, n)
    ensures a.bounds[n] == a0.bounds[n] && a.objects[n] == a0.objects[n] && a.children[n] == a0.children[n]
    ensures forall q' :: 0 <= q' < 4 && q' != q ==> Rank(a, limit, a.children[n][q']) == Rank(a0, limit, a0.children[n][q'])
    ensures Reaches(a0.bounds, a0.parent, n, item.bounds) ==> Reaches(a.bounds, a.parent, n, item.bounds)
    ensures Kept(a0, n, item) ==> Kept(a, n, item)
    ensures Overlaps(Quadrant(a0.bounds[n], q), item.bounds) && Solid(item.bounds) ==> Kept(a, n, item)
  {
    var c := a0.children[n][q];
    assert a0.parent[c] == n < c && Descends(a0.parent, c, n);
    PassedDown(a0, a, c, n);
    ChangedBelowTrans(from, a0, a, n);
    ReachesPrefix(a0.bounds, a0.parent, a.bounds, a.parent, n, item.bounds);
    forall q' | 0 <= q' < 4 && q' != q
      ensures Rank(a, limit, a.children[n][q']) == Rank(a0, limit, a0.children[n][q'])
    {
      SiblingRank(a0, a, limit, n, q, q');
    }
    if Kept(a0, n, item) {
      KeptGrows(a0, a, n, item);
    }
    if Overlaps(Quadrant(a0.bounds[n], q), item.bounds) && Solid(item.bounds) {
      var m :| 0 <= m < |a.objects| && Descends(a.parent, m, c) && item in a.objects[m];
      DescendsPrefix(a0.parent, a.parent, c, n);
      DescendsTrans(a.parent, m, c, n);
    }
  }

  /**
   * After child `q` of `n` is offered the object, the children up to and
   * including `q` that it overlaps all keep it.
   */
  lemma OfferInChildren(a0: Arena, a: Arena, limit: nat, n: nat, q: nat, item: Item)
    requires Good(a0, limit) && n < |a0.bounds| && a0.children[n] != [] && q < 4
    requires ChangedBelow(a0, a, a0.children[n][q]) && Grows(a0.objects, a.objects) && a.children[n] == a0.children[n]
    requires Overlaps(a0.bounds[a0.children[n][q]], item.bounds) && Solid(item.bounds) ==> Kept(a, a0.children[n][q], item)
    ensures KeptInChildren(a0, n, q, item) && Solid(item.bounds) ==> KeptInChildren(a, n, q + 1, item)
  {
    KeptInChildrenMeans(a0, n, q, item);
    KeptInChildrenMeans(a, n, q + 1, item);
    if KeptInChildren(a0, n, q, item) && Solid(item.bounds) {
      forall q' | 0 <= q' < q + 1 && a.children[n][q'] < |a.bounds| && Overlaps(a.bounds[a.children[n][q']], item.bounds)
        ensures Kept(a, a.children[n][q'], item)
      {
        var c := a0.children[n][q'];
        assert a.bounds[..|a0.bounds|][c] == a0.bounds[c];
        if q' < q {
          KeptGrows(a0, a, c, item);
        }
      }
    }
  }

  /**
   * The arena form of one `Quadtree` with all the nodes below it: node `n`
   * has `bounds[n]`, `objects[n]`, `divided[n]` and `children[n]` (empty, or
   * the indices of `northwest`, `northeast`, `southwest`, `southeast`).
   * Node 0 is the tree itself; every node shares its `capacity`.
   */
  class Quadtree {
    var bounds: seq<Rect>
    var objects: seq<seq<Item>>
    var divided: seq<bool>
    var children: seq<seq<nat>>
    /** The node whose `children` lists each node, and at which position. */
    ghost var parent: seq<nat>
    ghost var slot: seq<nat>
    const capacity: int
    /** The room test of every node: `objects.size() < capacity` is `|objects[n]| < limit`. */
    const limit: nat

    ghost predicate Valid()
      reads this
    {
      && Good(Snapshot(), limit) && limit >= 1
      && |divided| == |bounds| && forall m :: 0 <= m < |divided| ==> divided[m] == (children[m] != [])
    }

    ghost function Snapshot(): Arena
      reads this
    {
      Arena(bounds, objects, children, parent, slot)
    }

    /** The part of `Valid` that `Query` relies on: the links lead down, and `divided` tells whether there are children. */
    ghost predicate Linked()
      reads this
    {
      && |objects| == |children| == |bounds| == |divided| && Downward(children)
      && forall m :: 0 <= m < |divided| ==> divided[m] == (children[m] != [])
    }

    /** A capacity of 0 is refused: such a tree subdivides without end on its first `Insert`. */
    constructor (bounds: Rect, capacity: int)
      requires capacity != 0 && -IntRange <= capacity < IntRange
      ensures Valid() && this.capacity == capacity && limit == Limit(capacity)
      ensures this.bounds == [bounds] && objects == [[]] && divided == [false] && children == [[]]
    {
      this.bounds := [bounds];
      this.capacity := capacity;
      limit := Limit(capacity);
      objects := [[]];
      divided := [false];
      children := [[]];
      parent := [0];
      slot := [0];
    }

    /**
     * `Subdivide` on node `n`: four empty children of half its width and
     * height, `northwest`, `northeast`, `southwest`, `southeast`, and the
     * node is divided.
     */
    method Subdivide(n: nat)
      requires Valid() && n < |bounds| && !divided[n]
      modifies this
      ensures Snapshot() == Divide(old(Snapshot()), n) && divided == old(divided)[n := true] + [false, false, false, false]
      ensures Valid()
    {
      var N := |bounds|;
      DivideKeeps(Snapshot(), limit, n);
      bounds := bounds + Quadrants(bounds[n]);
      objects := objects + seq(4, _ => []);
      divided := divided[n := true] + [false, false, false, false];
      children := children[n := NewNodes(N)] + seq(4, _ => []);
      parent := parent + seq(4, _ => n);
      slot := slot + NewNodes(0);
    }

    /**
     * `Insert` on node `n`, which the object has reached through the overlap
     * gate of every ancestor.
     */
    method InsertAt(n: nat, item: Item)
      requires Valid() && n < |bounds| && (n == 0 || Reaches(bounds, parent, parent[n], item.bounds))
      modifies this
      decreases Rank(Snapshot(), limit, n), 4
      ensures Valid() && Grows(old(objects), objects) && ChangedBelow(old(Snapshot()), Snapshot(), n)
      // the only entries added anywhere are copies of `item`, at most one per node
      ensures OnlyAdded(old(objects), objects, item) && OneMore(old(objects), objects)
      // an object that misses the node changes nothing
      ensures !Overlaps(old(bounds[n]), item.bounds) ==> Snapshot() == old(Snapshot()) && divided == old(divided)
      // a node with room that is not divided stores it
      ensures Overlaps(old(bounds[n]), item.bounds) && |old(objects[n])| < limit && !old(divided[n]) ==>
        Snapshot() == Append(old(Snapshot()), n, item) && divided == old(divided)
      // otherwise the node is divided from now on and keeps its own objects as they were
      ensures Overlaps(old(bounds[n]), item.bounds) && (|old(objects[n])| >= limit || old(divided[n])) ==>
        && divided[n] && objects[n] == old(objects[n])
        && (old(divided[n]) ==> children[n] == old(children[n]))
      // a solid object that overlaps the node ends up stored at it or below it
      ensures Overlaps(old(bounds[n]), item.bounds) && Solid(item.bounds) ==> Kept(Snapshot(), n, item)
      // a full or divided node passes a solid object to every child it overlaps
      ensures Overlaps(old(bounds[n]), item.bounds) && (|old(objects[n])| >= limit || old(divided[n])) && Solid(item.bounds) ==>
        KeptInChildren(Snapshot(), n, 4, item)
    {
      if !Overlaps(bounds[n], item.bounds) {
        return;
      }
      if |objects[n]| < limit && !divided[n] {
        ghost var before := Snapshot();
        AppendKeeps(before, limit, n, item);
        PushDivideOnlyAdded(before, n, item);
        PushDivideOneMore(before, n, item);
        objects := objects[n := objects[n] + [item]];
        assert Snapshot() == Append(before, n, item);
      } else {
        Spread(n, item);
      }
    }

    /**
     * The branch of `Insert` for a node that is full or divided: divide it if
     * it is not yet, then offer the object to the four children. The node
     * keeps its own objects.
     */
    method Spread(n: nat, item: Item)
      requires Valid() && n < |bounds| && Reaches(bounds, parent, n, item.bounds)
      requires |objects[n]| >= limit || divided[n]
      modifies this
      decreases Rank(Snapshot(), limit, n), 3
      ensures Valid() && Grows(old(objects), objects) && ChangedBelow(old(Snapshot()), Snapshot(), n)
      ensures OnlyAdded(old(objects), objects, item) && OneMore(old(objects), objects)
      ensures divided[n] && objects[n] == old(objects[n]) && (old(divided[n]) ==> children[n] == old(children[n]))
      ensures Solid(item.bounds) ==> Kept(Snapshot(), n, item)
      // a solid object goes to every child it overlaps
      ensures Solid(item.bounds) ==> KeptInChildren(Snapshot(), n, 4, item)
    {
      ghost var R := Rank(Snapshot(), limit, n);
      if !divided[n] {
        DivideReady(Snapshot(), limit, n, item);
        PushDivideOnlyAdded(Snapshot(), n, item);
        PushDivideOneMore(Snapshot(), n, item);
        Subdivide(n);
      } else {
        DividedReady(Snapshot(), limit, n);
      }
      OfferAll(n, item, R, old(Snapshot()));
    }

    /**
     * The four child calls of `Insert` on the divided node `n`, to
     * `northwest`, `northeast`, `southwest` and `southeast` in turn: each
     * child the object overlaps receives it. Everything changed since `from`
     * still lies below `n`.
     */
    method OfferAll(n: nat, item: Item, ghost R: nat, ghost from: Arena)
      requires Valid() && n < |bounds| && divided[n] && Reaches(bounds, parent, n, item.bounds)
      requires forall q :: 0 <= q < 4 ==> Rank(Snapshot(), limit, children[n][q]) < R
      requires Grows(from.objects, objects) && ChangedBelow(from, Snapshot(), n) && OnlyAdded(from.objects, objects, item)
      requires OneMore(from.objects, objects) && forall q :: 0 <= q < 4 ==> Untouched(from, Snapshot(), children[n][q])
      modifies this
      decreases R, 2
      ensures Valid() && old(|bounds|) <= |bounds| && Grows(from.objects, objects) && ChangedBelow(from, Snapshot(), n)
      ensures OnlyAdded(from.objects, objects, item) && OneMore(from.objects, objects)
      ensures objects[n] == old(objects[n]) && children[n] == old(children[n]) && divided[n]
      ensures Solid(item.bounds) ==> Kept(Snapshot(), n, item)
      ensures Solid(item.bounds) ==> KeptInChildren(Snapshot(), n, 4, item)
    {
      if Solid(item.bounds) {
        QuadrantsCover(bounds[n], item.bounds);
      }
      assert KeptInChildren(Snapshot(), n, 0, item);
      Offer(n, 0, item, R, from);
      Offer(n, 1, item, R, from);
      Offer(n, 2, item, R, from);
      Offer(n, 3, item, R, from);
    }

    /**
     * One of the four child calls of `Insert` on the divided node `n`: the
     * object goes to child `q`. Everything changed since `from` still lies
     * below `n`, and the children still to be offered the object keep a rank
     * below `R`.
     */
    method Offer(n: nat, q: nat, item: Item, ghost R: nat, ghost from: Arena)
      requires Valid() && n < |bounds| && divided[n] && q < 4 && Reaches(bounds, parent, n, item.bounds)
      requires forall q' :: q <= q' < 4 ==> Rank(Snapshot(), limit, children[n][q']) < R
      requires Grows(from.objects, objects) && ChangedBelow(from, Snapshot(), n) && OnlyAdded(from.objects, objects, item)
      requires OneMore(from.objects, objects) && forall q' :: q <= q' < 4 ==> Untouched(from, Snapshot(), children[n][q'])
      modifies this
      decreases R, 1
      ensures Valid() && old(|bounds|) <= |bounds| && Grows(from.objects, objects) && ChangedBelow(from, Snapshot(), n)
      ensures OnlyAdded(from.objects, objects, item) && OneMore(from.objects, objects)
      ensures bounds[n] == old(bounds[n]) && objects[n] == old(objects[n]) && children[n] == old(children[n]) && divided[n]
      ensures forall q' :: q < q' < 4 ==> Rank(Snapshot(), limit, children[n][q']) < R
      // the children still to be offered the object are untouched since `from`
      ensures forall q' :: q < q' < 4 ==> Untouched(from, Snapshot(), children[n][q'])
      ensures Reaches(bounds, parent, n, item.bounds)
      ensures old(Kept(Snapshot(), n, item)) ==> Kept(Snapshot(), n, item)
      ensures Overlaps(Quadrant(bounds[n], q), item.bounds) && Solid(item.bounds) ==> Kept(Snapshot(), n, item)
      // child `q` itself keeps a solid object it overlaps, and the children that already kept it still do
      ensures Overlaps(bounds[children[n][q]], item.bounds) && Solid(item.bounds) ==> Kept(Snapshot(), children[n][q], item)
      ensures old(KeptInChildren(Snapshot(), n, q, item)) && Solid(item.bounds) ==> KeptInChildren(Snapshot(), n, q + 1, item)
    {
      var c := children[n][q];
      ghost var before := Snapshot();
      InsertAt(c, item);
      OfferKeeps(before, Snapshot(), from, limit, n, q, item);
      OfferInChildren(before, Snapshot(), limit, n, q, item);
      OnlyAddedTrans(from.objects, before.objects, objects, item);
      OfferOneMore(from, before, Snapshot(), limit, n, q);
    }

    /**
     * The public `Insert`, on the root: the tree stays valid, no stored object
     * is lost, and a solid object that overlaps the root is found again by a
     * `Query` on its own bounds.
     */
    method Insert(item: Item)
      requires Valid()
      modifies this
      ensures Valid() && Grows(old(objects), objects) && bounds[0] == old(bounds[0])
      // nothing but `item` is ever stored, and no node stores it twice
      ensures OnlyAdded(old(objects), objects, item) && OneMore(old(objects), objects)
      ensures !Overlaps(bounds[0], item.bounds) ==> Snapshot() == old(Snapshot())
      ensures Overlaps(bounds[0], item.bounds) && Solid(item.bounds) ==>
        item in Queried(bounds, objects, children, 0, item.bounds)
    {
      InsertAt(0, item);
      if Overlaps(bounds[0], item.bounds) && Solid(item.bounds) {
        KeptFound(Snapshot(), limit, item);
      }
    }

    /** `Query` on node `n`. */
    method QueryAt(n: nat, area: Rect) returns (found: seq<Item>)
      requires Linked() && n < |bounds|
      ensures found == Queried(bounds, objects, children, n, area)
      decreases |bounds| - n
    {
      found := [];
      if !Overlaps(bounds[n], area) {
        return;
      }
      var here := objects[n];
      var i := 0;
      while i < |here|
        invariant 0 <= i <= |here| && found == Matches(area, here[..i])
      {
        var obj := here[i];
        MatchesNext(area, here, i);
        if Overlaps(area, obj.bounds) {
          found := found + [obj];
        }
        i := i + 1;
      }
      assert here[..i] == here;
      if divided[n] {
        var nwResults := QueryAt(children[n][0], area);
        var neResults := QueryAt(children[n][1], area);
        var swResults := QueryAt(children[n][2], area);
        var seResults := QueryAt(children[n][3], area);
        found := found + nwResults + neResults + swResults + seResults;
      }
    }

    /**
     * The public `Query`: exactly the stored objects that overlap the area
     * and sit at a node the area reaches, possibly more than once.
     */
    method Query(area: Rect) returns (found: seq<Item>)
      requires Valid()
      ensures found == Queried(bounds, objects, children, 0, area)
      ensures !Overlaps(bounds[0], area) ==> found == []
      ensures forall o :: o in found ==> Overlaps(area, o.bounds)
      ensures forall o :: o in found <==>
        Overlaps(area, o.bounds) && exists m :: 0 <= m < |objects| && o in objects[m] && Reaches(bounds, parent, m, area)
    {
      found := QueryAt(0, area);
      forall o ensures o in found <==>
        Overlaps(area, o.bounds) && exists m :: 0 <= m < |objects| && o in objects[m] && Reaches(bounds, parent, m, area)
      {
        if o in found {
          QueriedSound(bounds, objects, children, parent, slot, 0, area, o);
        } else if Overlaps(area, o.bounds) && exists m :: 0 <= m < |objects| && o in objects[m] && Reaches(bounds, parent, m, area) {
          var m :| 0 <= m < |objects| && o in objects[m] && Reaches(bounds, parent, m, area);
          var k :| 0 <= k < |objects[m]| && objects[m][k] == o;
          QueriedComplete(bounds, objects, children, parent, slot, m, k, area);
        }
      }
    }

    /** `Clear`: no objects, not divided, and every child released. */
    method Clear()
      requires Valid()
      modifies this
      ensures Valid()
      ensures bounds == [old(bounds[0])] && objects == [[]] && divided == [false] && children == [[]]
    {
      bounds := [bounds[0]];
      objects := [[]];
      divided := [false];
      children := [[]];
      parent := [0];
      slot := [0];
    }
  }
}
