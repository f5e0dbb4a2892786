/**
 * The header-only quadtree of `Quadtree.h`: a node keeps an object at the
 * deepest level whose quadrant it fits into strictly, splits lazily once it
 * holds more than `MaxObjects` objects, and answers `Retrieve` along a single
 * path without any overlap filtering.
 */
module FitQuadtree {
  import opened Geometry
  import opened Forest
  import opened QuadArena

  /** Objects a childless node holds before it splits. */
  const MaxObjects: nat := 5
  /** Declared by the source and never read: the depth of the tree is not limited. */
  const MaxLevels: nat := 5

  /** The closed extent of `r` reaches a midline of `b` on some axis. */
  predicate TouchesMidline(b: Rect, r: Rect)
  {
    (r.x <= MidX(b) <= Right(r)) || (r.y <= MidY(b) <= Bottom(r))
  }

  /**
   * `GetIndex`: the quadrant `r` lies in strictly, judged only against the
   * midlines of `b` (whether `r` lies inside `b` is not checked), or -1.
   */
  function GetIndex(b: Rect, r: Rect): (q: int)
    ensures -1 <= q <= 3
    ensures q == -1 <==> TouchesMidline(b, r)
    ensures q != -1 ==> (if q % 2 == 0 then Right(r) < MidX(b) else MidX(b) < r.x)
    ensures q != -1 ==> (if q < 2 then Bottom(r) < MidY(b) else MidY(b) < r.y)
  {
    var top := Bottom(r) < MidY(b);
    var bottom := r.y > MidY(b);
    var left := Right(r) < MidX(b);
    var right := r.x > MidX(b);
    if top && left then 0
    else if top && right then 1
    else if bottom && left then 2
    else if bottom && right then 3
    else -1
  }

  /** The horizontal extent of `r` lies within that of `b`. */
  predicate XInside(r: Rect, b: Rect)
  {
    b.x <= r.x && Right(r) <= Right(b)
  }

  /** Objects of `s` that straddle a midline of `b`, in their order in `s`. */
  function Straddlers(b: Rect, s: seq<Item>): (r: seq<Item>)
    ensures forall k :: 0 <= k < |r| ==> GetIndex(b, r[k].bounds) == -1
    ensures multiset(r) <= multiset(s)
  {
    if s == [] then []
    else
      assert s == [s[0]] + s[1..];
      (if GetIndex(b, s[0].bounds) == -1 then [s[0]] else []) + Straddlers(b, s[1..])
  }

  lemma {:induction false} StraddlersAppend(b: Rect, s: seq<Item>, x: Item)
    ensures Straddlers(b, s + [x]) == Straddlers(b, s) + Straddlers(b, [x])
  {
    if s == [] {
      assert s + [x] == [x];
    } else {
      assert (s + [x])[1..] == s[1..] + [x];
      StraddlersAppend(b, s[1..], x);
    }
  }

  /**
   * An object that lies across `b` horizontally and fits quadrant `q` lies
   * across that quadrant too, and is narrower than it.
   */
  lemma FitsQuadrant(b: Rect, r: Rect, q: int)
    requires XInside(r, b) && 0 <= q < 4 && GetIndex(b, r) == q
    ensures XInside(r, Quadrant(b, q))
    ensures r.width < Quadrant(b, q).width
  {
  }

  /** The termination measure of `Insert`: how many times `unit` fits into the width of `b`. */
  function Gauge(b: Rect, unit: real): int
    requires unit > 0.0
  {
    (b.width / unit).Floor
  }

  /** Halving a node at least twice as wide as `unit` makes its gauge smaller. */
  lemma GaugeShrinks(b: Rect, unit: real, q: int)
    requires unit > 0.0 && 0 <= q < 4 && b.width >= 2.0 * unit
    ensures 0 <= Gauge(Quadrant(b, q), unit) < Gauge(b, unit)
  {
    var t := b.width / unit;
    assert t >= 2.0 by {
      assert b.width == t * unit;
    }
    assert Quadrant(b, q).width / unit == t / 2.0;
    assert (t / 2.0).Floor as real <= t / 2.0 <= t - 1.0 < t.Floor as real;
  }

  /**
   * `r` is routed to node `m`: at every ancestor of `m`, `GetIndex` picks
   * the quadrant that leads towards `m`.
   */
  ghost predicate Admits(bounds: seq<Rect>, parent: seq<nat>, slot: seq<nat>, m: nat, r: Rect)
    decreases m
  {
    m == 0 ||
    (&& 0 < m < |parent| && m < |slot| && parent[m] < m && parent[m] < |bounds|
     && GetIndex(bounds[parent[m]], r) == slot[m]
     && Admits(bounds, parent, slot, parent[m], r))
  }

  /** Appending nodes to the arena does not change the routes to the old ones. */
  lemma {:induction false} AdmitsPrefix(b: seq<Rect>, p: seq<nat>, s: seq<nat>,
                                        b': seq<Rect>, p': seq<nat>, s': seq<nat>, m: nat, r: Rect)
    requires m < |b| == |p| == |s| <= |b'| == |p'| == |s'|
    requires b'[..|b|] == b && p'[..|p|] == p && s'[..|s|] == s
    ensures Admits(b', p', s', m, r) <==> Admits(b, p, s, m, r)
    decreases m
  {
    if m != 0 {
      assert p'[m] == p[m] && s'[m] == s[m];
      if p[m] < m {
        assert b'[p[m]] == b[p[m]];
        AdmitsPrefix(b, p, s, b', p', s', p[m], r);
      }
    }
  }

  /** Every stored object lies across its node, is at least `unit` wide and is routed to its node. */
  ghost predicate Placed(bounds: seq<Rect>, objects: seq<seq<Item>>, parent: seq<nat>, slot: seq<nat>, unit: real)
    requires |objects| <= |bounds|
  {
    forall n, k :: 0 <= n < |objects| && 0 <= k < |objects[n]| ==>
      && XInside(objects[n][k].bounds, bounds[n])
      && objects[n][k].bounds.width >= unit
      && Admits(bounds, parent, slot, n, objects[n][k].bounds)
  }

  /** Appending empty nodes keeps every stored object placed. */
  lemma PlacedGrow(b: seq<Rect>, o: seq<seq<Item>>, p: seq<nat>, s: seq<nat>,
                   b': seq<Rect>, o': seq<seq<Item>>, p': seq<nat>, s': seq<nat>, unit: real)
    requires |o| == |b| == |p| == |s| <= |b'| == |o'| == |p'| == |s'|
    requires b'[..|b|] == b && o'[..|o|] == o && p'[..|p|] == p && s'[..|s|] == s
    requires forall t :: |o| <= t < |o'| ==> o'[t] == []
    requires Placed(b, o, p, s, unit)
    ensures Placed(b', o', p', s', unit)
  {
    forall m, k | 0 <= m < |o'| && 0 <= k < |o'[m]|
      ensures XInside(o'[m][k].bounds, b'[m]) && o'[m][k].bounds.width >= unit
      ensures Admits(b', p', s', m, o'[m][k].bounds)
    {
      assert m < |o| && o'[m] == o[m] && b'[m] == b[m];
      AdmitsPrefix(b, p, s, b', p', s', m, o[m][k].bounds);
    }
  }

  /**
   * Outside `exempt`, a node without children holds at most `MaxObjects`
   * objects and a node with children holds only objects straddling its
   * midlines.
   */
  ghost predicate Balanced(bounds: seq<Rect>, objects: seq<seq<Item>>, children: seq<seq<nat>>, exempt: set<nat>)
    requires |objects| <= |bounds| && |objects| <= |children|
  {
    && (forall n :: 0 <= n < |objects| && n !in exempt && children[n] == [] ==> |objects[n]| <= MaxObjects)
    && (forall n, k :: 0 <= n < |objects| && n !in exempt && children[n] != [] && 0 <= k < |objects[n]| ==>
          GetIndex(bounds[n], objects[n][k].bounds) == -1)
  }

  /** Moving the redistribution scan on by one element extends the straddlers by that element's share. */
  lemma Advance(b: Rect, all: seq<Item>, k: int)
    requires 0 <= k < |all|
    ensures Straddlers(b, all[..k + 1]) == Straddlers(b, all[..k]) + Straddlers(b, [all[k]])
  {
    assert all[..k + 1] == all[..k] + [all[k]];
    StraddlersAppend(b, all[..k], all[k]);
  }

  /**
   * One step of the redistribution scan over `all`, with `xs` the current
   * objects of the node: the straddlers seen so far come first, the unseen
   * rest follows. Erasing a fitting object, or stepping past a straddler,
   * keeps that shape one element further on.
   */
  lemma ScanStep(b: Rect, all: seq<Item>, k: nat, xs: seq<Item>, i: nat)
    requires k < |all| && i < |xs| && xs[..i] == Straddlers(b, all[..k]) && xs[i..] == all[k..]
    ensures xs[i] == all[k]
    ensures GetIndex(b, xs[i].bounds) != -1 ==>
      && (xs[..i] + xs[i + 1..])[..i] == Straddlers(b, all[..k + 1])
      && (xs[..i] + xs[i + 1..])[i..] == all[k + 1..]
    ensures GetIndex(b, xs[i].bounds) == -1 ==>
      xs[..i + 1] == Straddlers(b, all[..k + 1]) && xs[i + 1..] == all[k + 1..]
  {
    assert xs[i] == xs[i..][0] == all[k..][0] == all[k];
    assert xs[i + 1..] == xs[i..][1..] == all[k..][1..] == all[k + 1..];
    Advance(b, all, k);
    if GetIndex(b, xs[i].bounds) == -1 {
      assert Straddlers(b, [all[k]]) == [all[k]];
      assert xs[..i + 1] == xs[..i] + [xs[i]];
    } else {
      assert Straddlers(b, [all[k]]) == [];
      var ys := xs[..i] + xs[i + 1..];
      assert ys[..i] == xs[..i];
      assert ys[i..] == xs[i + 1..];
    }
  }

  /** The quadtree invariant on an arena, except at the nodes in `exempt`. */
  ghost predicate Good(a: Arena, unit: real, exempt: set<nat>)
  {
    && unit > 0.0
    && Shape(a.bounds, a.children, a.parent, a.slot)
    && |a.objects| == |a.bounds|
    && Placed(a.bounds, a.objects, a.parent, a.slot, unit)
    && Balanced(a.bounds, a.objects, a.children, exempt)
  }

  lemma PlacedAppend(bounds: seq<Rect>, objects: seq<seq<Item>>, parent: seq<nat>, slot: seq<nat>, unit: real, n: nat, item: Item)
    requires |objects| <= |bounds| && n < |objects| && Placed(bounds, objects, parent, slot, unit)
    requires XInside(item.bounds, bounds[n]) && item.bounds.width >= unit
    requires Admits(bounds, parent, slot, n, item.bounds)
    ensures Placed(bounds, objects[n := objects[n] + [item]], parent, slot, unit)
  {
    var o': seq<seq<Item>> := objects[n := objects[n] + [item]];
    forall m, k | 0 <= m < |o'| && 0 <= k < |o'[m]|
      ensures XInside(o'[m][k].bounds, bounds[m]) && o'[m][k].bounds.width >= unit
      ensures Admits(bounds, parent, slot, m, o'[m][k].bounds)
    {
      if m != n || k < |objects[n]| {
        assert o'[m][k] == objects[m][k];
      }
    }
  }

  lemma BalancedAppend(bounds: seq<Rect>, objects: seq<seq<Item>>, children: seq<seq<nat>>, exempt: set<nat>, n: nat, item: Item)
    requires |objects| <= |bounds| && |objects| <= |children| && n < |objects|
    requires Balanced(bounds, objects, children, exempt)
    ensures Balanced(bounds, objects[n := objects[n] + [item]], children, exempt + {n})
    ensures (children[n] != [] && GetIndex(bounds[n], item.bounds) == -1) ||
            (children[n] == [] && |objects[n]| < MaxObjects) ==>
      Balanced(bounds, objects[n := objects[n] + [item]], children, exempt)
  {
    var o': seq<seq<Item>> := objects[n := objects[n] + [item]];
    forall m, k | 0 <= m < |o'| && m !in exempt && children[m] != [] && 0 <= k < |o'[m]| && (m != n || k < |objects[n]|)
      ensures GetIndex(bounds[m], o'[m][k].bounds) == -1
    {
      assert o'[m][k] == objects[m][k];
    }
  }

  /**
   * Storing an object routed to `n` at `n` keeps the invariant everywhere
   * but at `n`, and at `n` too when `n` has children and the object
   * straddles, or `n` has none and stays within `MaxObjects`.
   */
  lemma AppendKeeps(a: Arena, unit: real, exempt: set<nat>, n: nat, item: Item)
    requires Good(a, unit, exempt) && n < |a.bounds|
    requires XInside(item.bounds, a.bounds[n]) && item.bounds.width >= unit
    requires Admits(a.bounds, a.parent, a.slot, n, item.bounds)
    ensures Good(Append(a, n, item), unit, exempt + {n})
    ensures (a.children[n] != [] && GetIndex(a.bounds[n], item.bounds) == -1) ||
            (a.children[n] == [] && |a.objects[n]| < MaxObjects) ==>
      Good(Append(a, n, item), unit, exempt)
    ensures Stored(Append(a, n, item).objects, 0) == Stored(a.objects, 0) + multiset{item}
    ensures ChangedBelow(a, Append(a, n, item), n)
  {
    GoodAppend(a, unit, exempt, n, item);
    StoredAppend(a.objects, n, item);
    ChangedAppend(a, n, item);
  }

  lemma GoodAppend(a: Arena, unit: real, exempt: set<nat>, n: nat, item: Item)
    requires Good(a, unit, exempt) && n < |a.bounds|
    requires XInside(item.bounds, a.bounds[n]) && item.bounds.width >= unit
    requires Admits(a.bounds, a.parent, a.slot, n, item.bounds)
    ensures Good(Append(a, n, item), unit, exempt + {n})
    ensures (a.children[n] != [] && GetIndex(a.bounds[n], item.bounds) == -1) ||
            (a.children[n] == [] && |a.objects[n]| < MaxObjects) ==>
      Good(Append(a, n, item), unit, exempt)
  {
    PlacedAppend(a.bounds, a.objects, a.parent, a.slot, unit, n, item);
    BalancedAppend(a.bounds, a.objects, a.children, exempt, n, item);
  }

  lemma BalancedDivide(a: Arena, exempt: set<nat>, n: nat)
    requires n < |a.bounds| == |a.objects| == |a.children| && n in exempt
    requires Balanced(a.bounds, a.objects, a.children, exempt)
    ensures Balanced(Divide(a, n).bounds, Divide(a, n).objects, Divide(a, n).children, exempt)
  {
    var d := Divide(a, n);
    forall m | 0 <= m < |d.objects|
      ensures m < |a.objects| ==> d.objects[m] == a.objects[m] && d.bounds[m] == a.bounds[m]
      ensures m < |a.objects| && m != n ==> d.children[m] == a.children[m]
      ensures m >= |a.objects| ==> d.objects[m] == [] && d.children[m] == []
    {
    }
  }

  /**
   * `Split` keeps the invariant at every node but the one split, adds no
   * object, and changes nothing outside the subtree of that node.
   */
  lemma DivideKeeps(a: Arena, unit: real, exempt: set<nat>, n: nat)
    requires Good(a, unit, exempt) && n in exempt && n < |a.bounds| && a.children[n] == []
    ensures Good(Divide(a, n), unit, exempt)
    ensures Stored(Divide(a, n).objects, 0) == Stored(a.objects, 0)
    ensures ChangedBelow(a, Divide(a, n), n)
  {
    GoodDivide(a, unit, exempt, n);
    StoredEmpty(a.objects, seq(4, _ => []), 0);
    ChangedDivide(a, n);
  }

  lemma GoodDivide(a: Arena, unit: real, exempt: set<nat>, n: nat)
    requires Good(a, unit, exempt) && n in exempt && n < |a.bounds| && a.children[n] == []
    ensures Good(Divide(a, n), unit, exempt)
  {
    var d := Divide(a, n);
    SplitShape(a.bounds, a.children, a.parent, a.slot, n);
    PlacedGrow(a.bounds, a.objects, a.parent, a.slot, d.bounds, d.objects, d.parent, d.slot, unit);
    BalancedDivide(a, exempt, n);
  }

  lemma PlacedTakeOut(bounds: seq<Rect>, objects: seq<seq<Item>>, parent: seq<nat>, slot: seq<nat>, unit: real, n: nat, i: nat)
    requires |objects| <= |bounds| && n < |objects| && i < |objects[n]| && Placed(bounds, objects, parent, slot, unit)
    ensures Placed(bounds, objects[n := objects[n][..i] + objects[n][i + 1..]], parent, slot, unit)
  {
    var o': seq<seq<Item>> := objects[n := objects[n][..i] + objects[n][i + 1..]];
    forall m, k | 0 <= m < |o'| && 0 <= k < |o'[m]|
      ensures XInside(o'[m][k].bounds, bounds[m]) && o'[m][k].bounds.width >= unit
      ensures Admits(bounds, parent, slot, m, o'[m][k].bounds)
    {
      if m == n {
        assert o'[m][k] == objects[n][if k < i then k else k + 1];
      } else {
        assert o'[m][k] == objects[m][k];
      }
    }
  }

  lemma BalancedTakeOut(bounds: seq<Rect>, objects: seq<seq<Item>>, children: seq<seq<nat>>, exempt: set<nat>, n: nat, i: nat)
    requires |objects| <= |bounds| && |objects| <= |children| && n < |objects| && i < |objects[n]| && n in exempt
    requires Balanced(bounds, objects, children, exempt)
    ensures Balanced(bounds, objects[n := objects[n][..i] + objects[n][i + 1..]], children, exempt)
  {
    var o': seq<seq<Item>> := objects[n := objects[n][..i] + objects[n][i + 1..]];
    forall m | 0 <= m < |o'| && m != n
      ensures o'[m] == objects[m]
    {
    }
  }

  /**
   * Erasing an object from an exempt node keeps the invariant, removes just
   * that object from the total and changes nothing outside the node.
   */
  lemma TakeOutKeeps(a: Arena, unit: real, exempt: set<nat>, n: nat, i: nat)
    requires Good(a, unit, exempt) && n in exempt && n < |a.objects| && i < |a.objects[n]|
    ensures Good(TakeOut(a, n, i), unit, exempt)
    ensures Stored(TakeOut(a, n, i).objects, 0) + multiset{a.objects[n][i]} == Stored(a.objects, 0)
    ensures ChangedBelow(a, TakeOut(a, n, i), n)
  {
    PlacedTakeOut(a.bounds, a.objects, a.parent, a.slot, unit, n, i);
    BalancedTakeOut(a.bounds, a.objects, a.children, exempt, n, i);
    StoredTakeOut(a.objects, n, i);
  }

  /** What `Placed` says about object `i` of node `n`. */
  lemma StoredPlaced(a: Arena, unit: real, exempt: set<nat>, n: nat, i: nat)
    requires Good(a, unit, exempt) && n < |a.objects| && i < |a.objects[n]|
    ensures XInside(a.objects[n][i].bounds, a.bounds[n]) && a.objects[n][i].bounds.width >= unit
    ensures Admits(a.bounds, a.parent, a.slot, n, a.objects[n][i].bounds)
  {
  }

  /**
   * The child of `n` that an object routed to `n` fits into comes after `n`
   * and lies below it, the object is routed to it and lies across it, and
   * its gauge is smaller than that of `n`.
   */
  lemma ChildRoute(a: Arena, unit: real, exempt: set<nat>, n: nat, r: Rect)
    requires Good(a, unit, exempt) && n < |a.bounds| && a.children[n] != []
    requires XInside(r, a.bounds[n]) && r.width >= unit && Admits(a.bounds, a.parent, a.slot, n, r)
    requires GetIndex(a.bounds[n], r) != -1
    ensures var c := a.children[n][GetIndex(a.bounds[n], r)];
      && n < c < |a.bounds| && Descends(a.parent, c, n)
      && XInside(r, a.bounds[c]) && r.width >= unit && Admits(a.bounds, a.parent, a.slot, c, r)
      && 0 <= Gauge(a.bounds[c], unit) < Gauge(a.bounds[n], unit)
  {
    var q := GetIndex(a.bounds[n], r);
    var c := a.children[n][q];
    assert a.parent[c] == n && a.slot[c] == q && a.bounds[c] == Quadrant(a.bounds[n], q);
    FitsQuadrant(a.bounds[n], r, q);
    GaugeShrinks(a.bounds[n], unit, q);
  }

  /** `ChildRoute` for object `i` of node `n`, which `Placed` routes to `n`. */
  lemma StoredRoute(a: Arena, unit: real, exempt: set<nat>, n: nat, i: nat)
    requires Good(a, unit, exempt) && n < |a.bounds| && a.children[n] != [] && i < |a.objects[n]|
    requires GetIndex(a.bounds[n], a.objects[n][i].bounds) != -1
    ensures var r := a.objects[n][i].bounds; var c := a.children[n][GetIndex(a.bounds[n], r)];
      && n < c < |a.bounds| && Descends(a.parent, c, n)
      && XInside(r, a.bounds[c]) && r.width >= unit && Admits(a.bounds, a.parent, a.slot, c, r)
      && 0 <= Gauge(a.bounds[c], unit) < Gauge(a.bounds[n], unit)
  {
    StoredPlaced(a, unit, exempt, n, i);
    ChildRoute(a, unit, exempt, n, a.objects[n][i].bounds);
  }

  /**
   * One step of the redistribution loop: once object `i` of the exempt node
   * `n` has been inserted below child `c`, erasing it from `n` keeps the
   * invariant and the total, and the two steps together change only the
   * subtree of `n`.
   */
  lemma RelocateKeeps(a0: Arena, a: Arena, from: Arena, unit: real, exempt: set<nat>, n: nat, i: nat, c: nat)
    requires ChangedBelow(a0, a, c) && n < c < |a0.bounds| && Descends(a0.parent, c, n)
    requires ChangedBelow(from, a0, n)
    requires Good(a, unit, exempt) && n in exempt && i < |a0.objects[n]|
    requires Stored(a.objects, 0) == Stored(a0.objects, 0) + multiset{a0.objects[n][i]}
    ensures a.objects[n] == a0.objects[n] && a.children[n] == a0.children[n]
    ensures Good(TakeOut(a, n, i), unit, exempt)
    ensures ChangedBelow(from, TakeOut(a, n, i), n)
    ensures Stored(TakeOut(a, n, i).objects, 0) == Stored(a0.objects, 0)
  {
    PassedDown(a0, a, c, n);
    TakeOutKeeps(a, unit, exempt, n, i);
    ChangedBelowTrans(a0, a, TakeOut(a, n, i), n);
    ChangedBelowTrans(from, a0, TakeOut(a, n, i), n);
    MultisetCancel(Stored(TakeOut(a, n, i).objects, 0), Stored(a0.objects, 0), multiset{a0.objects[n][i]});
  }

  /** A node with children whose objects all straddle needs no exemption. */
  lemma Settle(a: Arena, unit: real, exempt: set<nat>, n: nat)
    requires Good(a, unit, exempt + {n}) && n < |a.objects| && a.children[n] != []
    requires forall k :: 0 <= k < |a.objects[n]| ==> GetIndex(a.bounds[n], a.objects[n][k].bounds) == -1
    ensures Good(a, unit, exempt)
  {
  }

  /**
   * What `Retrieve` on node `n` answers: the answer of the child whose
   * quadrant `rect` fits, when `n` has children and `rect` fits one, then
   * every object of `n`.
   */
  ghost function Retrieved(bounds: seq<Rect>, objects: seq<seq<Item>>, children: seq<seq<nat>>, n: nat, rect: Rect): seq<Item>
    requires |objects| == |children| == |bounds| && Downward(children) && n < |children|
    decreases |children| - n
  {
    var index := GetIndex(bounds[n], rect);
    (if index != -1 && children[n] != [] then Retrieved(bounds, objects, children, children[n][index], rect) else [])
      + objects[n]
  }

  /** `Retrieve` reports only stored objects, and each no more often than it is stored. */
  lemma {:induction false} RetrievedWithin(bounds: seq<Rect>, objects: seq<seq<Item>>, children: seq<seq<nat>>, n: nat, rect: Rect)
    requires |objects| == |children| == |bounds| && Downward(children) && n < |children|
    ensures multiset(Retrieved(bounds, objects, children, n, rect)) <= Stored(objects, n)
    decreases |children| - n
  {
    var index := GetIndex(bounds[n], rect);
    if index != -1 && children[n] != [] {
      var c := children[n][index];
      RetrievedWithin(bounds, objects, children, c, rect);
      StoredShrinks(objects, n + 1, c);
    }
  }

  /** A rectangle routed to node `m` finds there everything the search from `m` finds, starting from the root. */
  lemma {:induction false} RetrievedFromRoot(bounds: seq<Rect>, objects: seq<seq<Item>>, children: seq<seq<nat>>,
                                             parent: seq<nat>, slot: seq<nat>, m: nat, r: Rect, o: Item)
    requires |objects| == |bounds| && Shape(bounds, children, parent, slot) && m < |bounds|
    requires Admits(bounds, parent, slot, m, r) && o in Retrieved(bounds, objects, children, m, r)
    ensures o in Retrieved(bounds, objects, children, 0, r)
    decreases m
  {
    if m != 0 {
      var p := parent[m];
      assert children[p][slot[m]] == m;
      RetrievedFromRoot(bounds, objects, children, parent, slot, p, r, o);
    }
  }

  /** Everything stored at a node that a rectangle is routed to is reported by `Retrieve` from the root. */
  lemma RoutedFound(bounds: seq<Rect>, objects: seq<seq<Item>>, children: seq<seq<nat>>,
                    parent: seq<nat>, slot: seq<nat>, m: nat, r: Rect, k: nat)
    requires |objects| == |bounds| && Shape(bounds, children, parent, slot) && m < |bounds| && k < |objects[m]|
    requires Admits(bounds, parent, slot, m, r)
    ensures objects[m][k] in Retrieved(bounds, objects, children, 0, r)
  {
    RetrievedFromRoot(bounds, objects, children, parent, slot, m, r, objects[m][k]);
  }

  /** In a valid tree, `Retrieve` on the bounds of any stored object reports that object. */
  lemma StoredFound(a: Arena, unit: real, m: nat, k: nat)
    requires Good(a, unit, {}) && m < |a.objects| && k < |a.objects[m]|
    ensures a.objects[m][k] in Retrieved(a.bounds, a.objects, a.children, 0, a.objects[m][k].bounds)
  {
    RoutedFound(a.bounds, a.objects, a.children, a.parent, a.slot, m, a.objects[m][k].bounds, k);
  }

  /**
   * The arena form of one `Quadtree` with all the nodes below it: node `n`
   * has `bounds[n]`, `objects[n]` and `children[n]` (empty, or the indices
   * of its four quadrants in `Split` order). Node 0 is the tree itself.
   */
  class Quadtree {
    var bounds: seq<Rect>
    var objects: seq<seq<Item>>
    var children: seq<seq<nat>>
    /** The node whose `children` lists each node, and at which position. */
    ghost var parent: seq<nat>
    ghost var slot: seq<nat>
    /** A lower bound on the width of every object the tree will hold; it bounds the depth. */
    ghost const minExtent: real

    /** The tree invariant, except at the nodes in `exempt`, which are being filled or redistributed. */
    ghost predicate Inv(exempt: set<nat>)
      reads this
    {
      Good(Snapshot(), minExtent, exempt)
    }

    ghost predicate Valid()
      reads this
    {
      Inv({})
    }

    ghost function Snapshot(): Arena
      reads this
    {
      Arena(bounds, objects, children, parent, slot)
    }

    /** Everything stored in the tree. */
    ghost function Contents(): multiset<Item>
      reads this
    {
      Stored(objects, 0)
    }

    constructor (bounds: Rect, ghost minExtent: real)
      requires minExtent > 0.0
      ensures Valid()
      ensures this.bounds == [bounds] && this.minExtent == minExtent
      ensures objects == [[]] && children == [[]] && Contents() == multiset{}
    {
      this.bounds := [bounds];
      this.minExtent := minExtent;
      objects := [[]];
      children := [[]];
      parent := [0];
      slot := [0];
    }

    /** `Clear`: drop every object and every child. */
    method Clear()
      requires Valid()
      modifies this
      ensures Valid()
      ensures bounds == [old(bounds[0])] && objects == [[]] && children == [[]] && Contents() == multiset{}
    {
      bounds := [bounds[0]];
      objects := [[]];
      children := [[]];
      parent := [0];
      slot := [0];
    }

    /**
     * `Split` on node `n`: append its four quadrants as empty nodes, in the
     * order top-left, top-right, bottom-left, bottom-right. The node may
     * not yet hold only straddlers, so it must be exempt.
     */
    method Split(n: nat, ghost exempt: set<nat>)
      requires Inv(exempt) && n in exempt && n < |bounds| && children[n] == []
      modifies this
      ensures Snapshot() == Divide(old(Snapshot()), n)
      ensures Inv(exempt) && Contents() == old(Contents())
      ensures ChangedBelow(old(Snapshot()), Snapshot(), n)
    {
      var N := |bounds|;
      DivideKeeps(Snapshot(), minExtent, exempt, n);
      bounds := bounds + Quadrants(bounds[n]);
      objects := objects + seq(4, _ => []);
      children := children[n := NewNodes(N)] + seq(4, _ => []);
      parent := parent + seq(4, _ => n);
      slot := slot + NewNodes(0);
    }

    /**
     * `Insert` on node `n`. The caller promises that the object lies across
     * the node horizontally, is at least `minExtent` wide and is routed to
     * the node: without the first two the source recurses without end on an
     * object lying outside the root.
     */
    method InsertAt(n: nat, item: Item, ghost exempt: set<nat>)
      requires Inv(exempt) && n < |bounds| && forall e :: e in exempt ==> e < n
      requires XInside(item.bounds, bounds[n]) && item.bounds.width >= minExtent
      requires Admits(bounds, parent, slot, n, item.bounds)
      modifies this
      decreases Gauge(bounds[n], minExtent), 3
      ensures Inv(exempt)
      ensures ChangedBelow(old(Snapshot()), Snapshot(), n)
      ensures Contents() == old(Contents()) + multiset{item}
      // a node with children passes a fitting object on to that child and keeps its own objects
      ensures old(children[n]) != [] && GetIndex(bounds[n], item.bounds) != -1 ==>
        && objects[n] == old(objects[n]) && children[n] == old(children[n])
        && ChangedBelow(old(Snapshot()), Snapshot(), children[n][GetIndex(bounds[n], item.bounds)])
      // a straddling object, or one for a childless node that stays within MaxObjects, is stored here
      ensures (old(children[n]) != [] && GetIndex(bounds[n], item.bounds) == -1) ||
              (old(children[n]) == [] && |old(objects[n])| < MaxObjects) ==>
        Snapshot() == Append(old(Snapshot()), n, item)
      // a childless node with more than MaxObjects splits and keeps only the straddlers
      ensures old(children[n]) == [] && |old(objects[n])| >= MaxObjects ==>
        && |children[n]| == 4
        && objects[n] == Straddlers(bounds[n], old(objects[n]) + [item])
    {
      if children[n] != [] {
        var index := GetIndex(bounds[n], item.bounds);
        if index != -1 {
          var c := children[n][index];
          ChildRoute(Snapshot(), minExtent, exempt, n, item.bounds);
          ghost var before := Snapshot();
          InsertAt(c, item, exempt);
          PassedDown(before, Snapshot(), c, n);
          return;
        }
      }
      Store(n, item, exempt);
    }

    /**
     * The part of `Insert` that stores the object at node `n` itself: push
     * it, and once a childless node holds more than `MaxObjects` objects,
     * `Split` and pass every object that fits a quadrant to that child.
     */
    method Store(n: nat, item: Item, ghost exempt: set<nat>)
      requires Inv(exempt) && n < |bounds| && forall e :: e in exempt ==> e < n
      requires XInside(item.bounds, bounds[n]) && item.bounds.width >= minExtent
      requires Admits(bounds, parent, slot, n, item.bounds)
      requires children[n] == [] || GetIndex(bounds[n], item.bounds) == -1
      modifies this
      decreases Gauge(bounds[n], minExtent), 2
      ensures Inv(exempt)
      ensures ChangedBelow(old(Snapshot()), Snapshot(), n)
      ensures Contents() == old(Contents()) + multiset{item}
      // a node with children, or one that stays within MaxObjects, just gains the object
      ensures old(children[n]) != [] || |old(objects[n])| < MaxObjects ==>
        Snapshot() == Append(old(Snapshot()), n, item)
      // a childless node with more than MaxObjects splits and keeps only the straddlers
      ensures old(children[n]) == [] && |old(objects[n])| >= MaxObjects ==>
        && |children[n]| == 4
        && objects[n] == Straddlers(bounds[n], old(objects[n]) + [item])
    {
      AppendKeeps(Snapshot(), minExtent, exempt, n, item);
      objects := objects[n := objects[n] + [item]];
      if |objects[n]| > MaxObjects && children[n] == [] {
        ghost var appended := Snapshot();
        Split(n, exempt + {n});
        ghost var divided := Snapshot();
        Redistribute(n, exempt);
        ChangedBelowTrans(appended, divided, Snapshot(), n);
        ChangedBelowTrans(old(Snapshot()), appended, Snapshot(), n);
      }
    }

    /**
     * The loop of `Insert` that runs right after `Split`: every object of node
     * `n` that fits a quadrant is passed to that child and erased here; the
     * straddlers stay, in their order.
     */
    method Redistribute(n: nat, ghost exempt: set<nat>)
      requires Inv(exempt + {n}) && n < |bounds| && children[n] != [] && forall e :: e in exempt ==> e < n
      modifies this
      decreases Gauge(bounds[n], minExtent), 1
      ensures Inv(exempt)
      ensures ChangedBelow(old(Snapshot()), Snapshot(), n)
      ensures Contents() == old(Contents())
      ensures children[n] == old(children[n]) && objects[n] == Straddlers(bounds[n], old(objects[n]))
    {
      ghost var all := objects[n];
      var i := 0;
      ghost var k := 0;
      while i < |objects[n]|
        invariant Inv(exempt + {n}) && n < |bounds| && children[n] == old(children[n])
        invariant ChangedBelow(old(Snapshot()), Snapshot(), n)
        invariant Contents() == old(Contents()) && bounds[n] == old(bounds[n])
        invariant 0 <= i <= |objects[n]| && 0 <= k <= |all|
        invariant objects[n][..i] == Straddlers(bounds[n], all[..k])
        invariant objects[n][i..] == all[k..]
        decreases |all| - k
      {
        var index := GetIndex(bounds[n], objects[n][i].bounds);
        ScanStep(bounds[n], all, k, objects[n], i);
        if index != -1 {
          Relocate(n, i, exempt + {n}, old(Snapshot()));
        } else {
          i := i + 1;
        }
        k := k + 1;
      }
      assert k == |all| by {
        assert |objects[n][i..]| == 0;
      }
      assert all[..k] == all;
      assert objects[n] == objects[n][..i];
      Settle(Snapshot(), minExtent, exempt, n);
    }

    /**
     * One pass of the redistribution loop: object `i` goes to the child it
     * fits and leaves node `n`. Everything changed since `from` still lies
     * below `n`.
     */
    method Relocate(n: nat, i: nat, ghost exempt: set<nat>, ghost from: Arena)
      requires Inv(exempt) && n in exempt && n < |bounds| && children[n] != [] && i < |objects[n]|
      requires forall e :: e in exempt ==> e <= n
      requires GetIndex(bounds[n], objects[n][i].bounds) != -1
      requires ChangedBelow(from, Snapshot(), n)
      modifies this
      decreases Gauge(bounds[n], minExtent), 0
      ensures Inv(exempt) && old(|bounds|) <= |bounds|
      ensures ChangedBelow(from, Snapshot(), n)
      ensures Contents() == old(Contents())
      ensures children[n] == old(children[n]) && objects[n] == old(objects[n][..i] + objects[n][i + 1..])
    {
      var o := objects[n][i];
      var c := children[n][GetIndex(bounds[n], o.bounds)];
      StoredRoute(Snapshot(), minExtent, exempt, n, i);
      ghost var before := Snapshot();
      InsertAt(c, o, exempt);
      ghost var mid := Snapshot();
      RelocateKeeps(before, mid, from, minExtent, exempt, n, i, c);
      objects := objects[n := objects[n][..i] + objects[n][i + 1..]];
      assert Snapshot() == TakeOut(mid, n, i);
    }

    /**
     * The public `Insert`, on the root. The object must lie across the root
     * horizontally and be at least `minExtent` wide.
     */
    method Insert(item: Item)
      requires Valid() && XInside(item.bounds, bounds[0]) && item.bounds.width >= minExtent
      modifies this
      ensures Valid() && bounds[0] == old(bounds[0])
      ensures Contents() == old(Contents()) + multiset{item}
    {
      InsertAt(0, item, {});
    }

    /** `Retrieve` on node `n`: the answer of the child `rect` fits when there are children, then the objects of `n`. */
    method RetrieveAt(n: nat, rect: Rect) returns (result: seq<Item>)
      requires Valid() && n < |bounds|
      ensures result == Retrieved(bounds, objects, children, n, rect)
      decreases |bounds| - n
    {
      result := [];
      var index := GetIndex(bounds[n], rect);
      if index != -1 && children[n] != [] {
        var childResult := RetrieveAt(children[n][index], rect);
        result := result + childResult;
      }
      result := result + objects[n];
    }

    /**
     * The public `Retrieve`. It reports only stored objects, and every object
     * stored at a node the rectangle is routed to; in particular every stored
     * object is reported for its own bounds.
     */
    method Retrieve(rect: Rect) returns (result: seq<Item>)
      requires Valid()
      ensures result == Retrieved(bounds, objects, children, 0, rect)
      ensures multiset(result) <= Contents()
      ensures forall m, k :: 0 <= m < |objects| && 0 <= k < |objects[m]| && Admits(bounds, parent, slot, m, rect) ==>
        objects[m][k] in result
    {
      result := RetrieveAt(0, rect);
      RetrievedWithin(bounds, objects, children, 0, rect);
      forall m, k | 0 <= m < |objects| && 0 <= k < |objects[m]| && Admits(bounds, parent, slot, m, rect)
        ensures objects[m][k] in result
      {
        RoutedFound(bounds, objects, children, parent, slot, m, rect, k);
      }
    }
  }
}
