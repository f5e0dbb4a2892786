/**
 * The scene-node tree of SceneNode.cpp. All nodes live in one arena and are
 * named by their index: a node has an optional sprite, an optional parent
 * (the raw `parent` pointer) and an ordered list of children (the vector of
 * shared pointers). The arena keeps, as ghost state, a rank per node that
 * grows from parent to child; its existence is what makes the links acyclic.
 *
 * A sprite's own `Update` and `Draw` are virtual calls into code outside
 * this file: the traversals return the calls they make, in order.
 */
module SceneTree {
  import opened Geometry
  import opened Wrappers

  /** The parts of a `Sprite` the scene graph reads. */
  datatype Sprite = Sprite(position: Vec2, rotation: real, size: Vec2)

  /** The arena's nodes, by index. */
  datatype Tree = Tree(sprite: seq<Option<Sprite>>, parent: seq<Option<nat>>, children: seq<seq<nat>>)

  /** A call the traversal makes into a sprite: `sprite->Update(deltaTime, screenWidth, screenHeight)`. */
  datatype SpriteCall = SpriteUpdate(node: nat, deltaTime: real, screenWidth: int, screenHeight: int)

  /** One entry per node in every per-node sequence, the ghost ranks included. */
  ghost predicate Sized(t: Tree, rank: seq<nat>)
  {
    |t.sprite| == |t.parent| == |t.children| == |rank|
  }

  /**
   * Parent and child links agree: a node with a parent is listed among that
   * parent's children, every listed child names the node listing it as its
   * parent, and no child is listed twice.
   */
  ghost predicate Linked(parent: seq<Option<nat>>, children: seq<seq<nat>>)
  {
    && |parent| == |children|
    && (forall n :: 0 <= n < |parent| && parent[n].Some? ==> parent[n].value < |parent| && n in children[parent[n].value])
    && (forall p, i :: 0 <= p < |children| && 0 <= i < |children[p]| ==>
          children[p][i] < |parent| && parent[children[p][i]] == Some(p))
    && (forall p, i, j :: 0 <= p < |children| && 0 <= i < j < |children[p]| ==> children[p][i] != children[p][j])
  }

  /** A parent always has a lower rank than its child, so parent links never form a cycle. */
  ghost predicate Ranked(parent: seq<Option<nat>>, rank: seq<nat>)
  {
    && |rank| == |parent|
    && forall n :: 0 <= n < |parent| && parent[n].Some? ==> parent[n].value < |parent| && rank[parent[n].value] < rank[n]
  }

  /** The invariant of the arena: sizes agree, links agree, and the ranks witness acyclicity. */
  ghost predicate Valid(t: Tree, rank: seq<nat>)
  {
    Sized(t, rank) && Linked(t.parent, t.children) && Ranked(t.parent, rank)
  }

  /**
   * Every listed child of a node ranks above it: all a traversal needs to
   * end, and a consequence of `Valid` (`ValidOrdered`).
   */
  ghost predicate Ordered(t: Tree, rank: seq<nat>)
  {
    && Sized(t, rank)
    && forall n, i :: 0 <= n < |t.children| && 0 <= i < |t.children[n]| ==>
         t.children[n][i] < |rank| && rank[n] < rank[t.children[n][i]]
  }

  /** In a consistent arena every listed child ranks above its parent. */
  lemma ValidOrdered(t: Tree, rank: seq<nat>)
    requires Valid(t, rank)
    ensures Ordered(t, rank)
  {
    forall n, i | 0 <= n < |t.children| && 0 <= i < |t.children[n]|
      ensures t.children[n][i] < |rank| && rank[n] < rank[t.children[n][i]]
    {
      assert t.parent[t.children[n][i]] == Some(n);
    }
  }

  /** `m` is `a` or lies below it: following parent links from `m` reaches `a`. */
  ghost predicate Under(parent: seq<Option<nat>>, rank: seq<nat>, m: nat, a: nat)
    requires Ranked(parent, rank) && m < |parent|
    decreases rank[m]
  {
    m == a || (parent[m].Some? && Under(parent, rank, parent[m].value, a))
  }

  /** Climbing parent links only lowers the rank, so a node ranks at least as high as anything above it. */
  lemma {:induction false} UnderRank(parent: seq<Option<nat>>, rank: seq<nat>, m: nat, a: nat)
    requires Ranked(parent, rank) && m < |parent| && Under(parent, rank, m, a)
    ensures a < |parent| && rank[a] <= rank[m]
    decreases rank[m]
  {
    if m != a {
      UnderRank(parent, rank, parent[m].value, a);
    }
  }

  /** Every node on the chain from `n` up to its root has a sprite, as the global queries need. */
  ghost predicate Placed(t: Tree, rank: seq<nat>, n: nat)
    requires Sized(t, rank) && Ranked(t.parent, rank) && n < |t.parent|
    decreases rank[n]
  {
    t.sprite[n].Some? && (t.parent[n].Some? ==> Placed(t, rank, t.parent[n].value))
  }

  /**
   * `GetGlobalPosition`: a root's own position; below a root, the parent's
   * global position plus the node's own.
   */
  function GlobalPosition(t: Tree, ghost rank: seq<nat>, n: nat): (g: Vec2)
    requires Sized(t, rank) && Ranked(t.parent, rank) && n < |t.parent| && Placed(t, rank, n)
    ensures t.parent[n] == None ==> g == t.sprite[n].value.position
    decreases rank[n]
  {
    match t.parent[n]
    case None => t.sprite[n].value.position
    case Some(q) => Add(GlobalPosition(t, rank, q), t.sprite[n].value.position)
  }

  /** `GetGlobalRotation`: the sum of the rotations from the node up to its root. */
  function GlobalRotation(t: Tree, ghost rank: seq<nat>, n: nat): (g: real)
    requires Sized(t, rank) && Ranked(t.parent, rank) && n < |t.parent| && Placed(t, rank, n)
    ensures t.parent[n] == None ==> g == t.sprite[n].value.rotation
    decreases rank[n]
  {
    match t.parent[n]
    case None => t.sprite[n].value.rotation
    case Some(q) => GlobalRotation(t, rank, q) + t.sprite[n].value.rotation
  }

  /**
   * `GetBounds`: the sprite's extent placed with its top-left corner, not its
   * centre, at the node's global position.
   */
  function Bounds(t: Tree, ghost rank: seq<nat>, n: nat): (r: Rect)
    requires Sized(t, rank) && Ranked(t.parent, rank) && n < |t.parent| && Placed(t, rank, n)
    ensures r.x == GlobalPosition(t, rank, n).x && r.y == GlobalPosition(t, rank, n).y
    ensures r.width == t.sprite[n].value.size.x && r.height == t.sprite[n].value.size.y
    ensures r.width >= 0.0 && r.height >= 0.0 ==> Contains(r, GlobalPosition(t, rank, n))
  {
    var g := GlobalPosition(t, rank, n);
    Rect(g.x, g.y, t.sprite[n].value.size.x, t.sprite[n].value.size.y)
  }

  // ---------------------------------------------------------------------
  // Attaching

  /**
   * The ranks after attaching the root `c` under `p`: the whole subtree of
   * `c` moves up by `rank[p] + 1`, which puts `c` above `p` and keeps every
   * other parent below its child.
   */
  ghost function Lifted(parent: seq<Option<nat>>, rank: seq<nat>, p: nat, c: nat): (r: seq<nat>)
    requires Ranked(parent, rank) && p < |parent|
    ensures |r| == |rank|
  {
    seq(|rank|, m requires 0 <= m < |rank| => if Under(parent, rank, m, c) then rank[m] + rank[p] + 1 else rank[m])
  }

  /** A node other than `a` lies under `a` exactly when its parent does. */
  lemma UnderStep(parent: seq<Option<nat>>, rank: seq<nat>, m: nat, a: nat)
    requires Ranked(parent, rank) && m < |parent| && m != a && parent[m].Some?
    ensures parent[m].value < |parent| && (Under(parent, rank, m, a) <==> Under(parent, rank, parent[m].value, a))
  {
  }

  /** Attaching a root under a node outside its subtree keeps the links acyclic. */
  lemma AttachRanked(parent: seq<Option<nat>>, rank: seq<nat>, p: nat, c: nat)
    requires Ranked(parent, rank) && p < |parent| && c < |parent| && parent[c] == None
    requires !Under(parent, rank, p, c)
    ensures Ranked(parent[c := Some(p)], Lifted(parent, rank, p, c))
  {
    var parent', rank' := parent[c := Some(p)], Lifted(parent, rank, p, c);
    forall n | 0 <= n < |parent'| && parent'[n].Some?
      ensures parent'[n].value < |parent'| && rank'[parent'[n].value] < rank'[n]
    {
      if n == c {
        assert Under(parent, rank, c, c);
      } else {
        UnderStep(parent, rank, n, c);
      }
    }
  }

  /**
   * Along the parent chain from `m` up to `c`, ranks that witness the links
   * after `c` gets a parent never drop below the rank of `c`.
   */
  lemma {:induction false} ChainRank(parent: seq<Option<nat>>, rank: seq<nat>, p: nat, c: nat, r: seq<nat>, m: nat)
    requires Ranked(parent, rank) && m < |parent| && c < |parent| && Under(parent, rank, m, c)
    requires Ranked(parent[c := Some(p)], r)
    ensures r[c] <= r[m]
    decreases rank[m]
  {
    if m != c {
      ChainRank(parent, rank, p, c, r, parent[m].value);
      assert parent[c := Some(p)][m] == parent[m];
    }
  }

  /**
   * Attaching `c` below `p` when `p` already lies in the subtree of `c`
   * (`p == c` included) closes a cycle: no ranks witness the new links, so
   * the climb of `GetGlobalPosition` would not end.
   */
  lemma AttachAncestorCycles(parent: seq<Option<nat>>, rank: seq<nat>, p: nat, c: nat, parent': seq<Option<nat>>)
    requires Ranked(parent, rank) && p < |parent| && c < |parent| && parent[c] == None
    requires Under(parent, rank, p, c) && parent' == parent[c := Some(p)]
    ensures forall r :: !Ranked(parent', r)
  {
    forall r | Ranked(parent', r)
      ensures false
    {
      assert parent'[c] == Some(p);
      ChainRank(parent, rank, p, c, r, p);
    }
  }

  /** Attaching a node that has no parent keeps parent and child links in agreement. */
  lemma AttachLinked(parent: seq<Option<nat>>, children: seq<seq<nat>>, p: nat, c: nat)
    requires Linked(parent, children) && p < |parent| && c < |parent| && parent[c] == None
    ensures Linked(parent[c := Some(p)], children[p := children[p] + [c]])
  {
    var parent', children' := parent[c := Some(p)], children[p := children[p] + [c]];
    forall q, i | 0 <= q < |children| && 0 <= i < |children[q]|
      ensures children[q][i] != c
    {
      assert parent[children[q][i]] == Some(q);
    }
    forall n | 0 <= n < |parent'| && parent'[n].Some?
      ensures parent'[n].value < |parent'| && n in children'[parent'[n].value]
    {
      if n == c {
        assert children'[p][|children[p]|] == c;
      } else {
        var q := parent[n].value;
        assert n in children[q];
        if q == p {
          assert children'[p] == children[p] + [c];
        }
      }
    }
  }

  /**
   * Attaching a node that already has a parent leaves the links in
   * disagreement: the old parent still lists it, or the new one lists it twice.
   */
  lemma AttachAttachedUnlinks(parent: seq<Option<nat>>, children: seq<seq<nat>>, p: nat, c: nat)
    requires Linked(parent, children) && p < |parent| && c < |parent| && parent[c].Some?
    ensures !Linked(parent[c := Some(p)], children[p := children[p] + [c]])
  {
    var parent', children' := parent[c := Some(p)], children[p := children[p] + [c]];
    var q := parent[c].value;
    var i :| 0 <= i < |children[q]| && children[q][i] == c;
    if q == p {
      assert children'[p][i] == c && children'[p][|children[p]|] == c;
    } else {
      assert children'[q][i] == c && parent'[c] != Some(q);
    }
  }

  /** Outside the subtree of the attached root, nothing about positions and rotations changes. */
  lemma {:induction false} AttachKeepsOthers(t: Tree, rank: seq<nat>, p: nat, c: nat, m: nat)
    requires Sized(t, rank) && Ranked(t.parent, rank) && p < |t.parent| && c < |t.parent| && t.parent[c] == None
    requires !Under(t.parent, rank, p, c)
    requires m < |t.parent| && !Under(t.parent, rank, m, c) && Placed(t, rank, m)
    ensures var t', rank' := t.(parent := t.parent[c := Some(p)]), Lifted(t.parent, rank, p, c);
      Ranked(t'.parent, rank') && Placed(t', rank', m)
      && GlobalPosition(t', rank', m) == GlobalPosition(t, rank, m)
      && GlobalRotation(t', rank', m) == GlobalRotation(t, rank, m)
    decreases rank[m]
  {
    AttachRanked(t.parent, rank, p, c);
    if t.parent[m].Some? {
      UnderStep(t.parent, rank, m, c);
      AttachKeepsOthers(t, rank, p, c, t.parent[m].value);
    }
  }

  /**
   * Attaching the root `c` under `p` moves its whole subtree by the global
   * position of `p` and turns it by the global rotation of `p`.
   */
  lemma {:induction false} AttachMovesSubtree(t: Tree, rank: seq<nat>, p: nat, c: nat, m: nat)
    requires Sized(t, rank) && Ranked(t.parent, rank) && p < |t.parent| && c < |t.parent| && t.parent[c] == None
    requires !Under(t.parent, rank, p, c) && Placed(t, rank, p)
    requires m < |t.parent| && Under(t.parent, rank, m, c) && Placed(t, rank, m)
    ensures var t', rank' := t.(parent := t.parent[c := Some(p)]), Lifted(t.parent, rank, p, c);
      Ranked(t'.parent, rank') && Placed(t', rank', m)
      && GlobalPosition(t', rank', m) == Add(GlobalPosition(t, rank, p), GlobalPosition(t, rank, m))
      && GlobalRotation(t', rank', m) == GlobalRotation(t, rank, p) + GlobalRotation(t, rank, m)
    decreases rank[m]
  {
    AttachRanked(t.parent, rank, p, c);
    AttachKeepsOthers(t, rank, p, c, p);
    if m != c {
      UnderStep(t.parent, rank, m, c);
      AttachMovesSubtree(t, rank, p, c, t.parent[m].value);
    }
  }

  // ---------------------------------------------------------------------
  // Detaching

  /** The position of the first occurrence of `x` in `s`. */
  function FirstIndex(s: seq<nat>, x: nat): (i: nat)
    requires x in s
    ensures i < |s| && s[i] == x && x !in s[..i]
  {
    if s[0] == x then 0 else (assert x in s[1..]; 1 + FirstIndex(s[1..], x))
  }

  /** A position where `x` occurs with no earlier occurrence is the first one. */
  lemma {:induction false} FirstIndexAt(s: seq<nat>, x: nat, i: nat)
    requires i < |s| && s[i] == x && x !in s[..i]
    ensures FirstIndex(s, x) == i
  {
    if i > 0 {
      assert s[0] in s[..i];
      assert s[1..][..i - 1] == s[1..i];
      assert x !in s[1..i] by {
        forall j | 0 <= j < i - 1 ensures s[1..i][j] != x {
          assert s[1..i][j] == s[..i][j + 1];
        }
      }
      FirstIndexAt(s[1..], x, i - 1);
    }
  }

  /** `s` without the entry at `i`, the others in their order. */
  function Erase(s: seq<nat>, i: nat): (r: seq<nat>)
    requires i < |s|
    ensures |r| == |s| - 1 && multiset(r) == multiset(s) - multiset{s[i]}
    ensures forall j :: 0 <= j < |r| ==> r[j] == if j < i then s[j] else s[j + 1]
  {
    assert s == s[..i] + [s[i]] + s[i + 1..];
    s[..i] + s[i + 1..]
  }

  /**
   * Detaching a node right after attaching it restores the links: it is found
   * at the end of the list it was appended to, and erasing it there gives the
   * list back. (`NotListed`: in linked arenas a node without a parent is
   * listed nowhere.)
   */
  lemma AttachDetachRoundTrip(parent: seq<Option<nat>>, children: seq<seq<nat>>, p: nat, c: nat)
    requires p < |children| && c < |parent| && parent[c] == None && c !in children[p]
    ensures var s := children[p] + [c];
      && c in s && FirstIndex(s, c) == |children[p]|
      && parent[c := Some(p)][c := None] == parent
      && children[p := s][p := Erase(s, FirstIndex(s, c))] == children
  {
    AppendErase(children[p], c);
    assert parent[c := Some(p)][c := None] == parent;
  }

  /** A node without a parent is nobody's listed child. */
  lemma NotListed(parent: seq<Option<nat>>, children: seq<seq<nat>>, p: nat, c: nat)
    requires Linked(parent, children) && p < |parent| && c < |parent| && parent[c] == None
    ensures c !in children[p]
  {
    forall i | 0 <= i < |children[p]| ensures children[p][i] != c {
      assert parent[children[p][i]] == Some(p);
    }
  }

  /** An entry appended to a list not holding it is found last, and erasing it gives the list back. */
  lemma AppendErase(s: seq<nat>, c: nat)
    requires c !in s
    ensures c in s + [c] && FirstIndex(s + [c], c) == |s| && Erase(s + [c], |s|) == s
  {
    assert (s + [c])[..|s|] == s;
    FirstIndexAt(s + [c], c, |s|);
    assert Erase(s + [c], |s|) == s;
  }

  /** Detaching a listed child keeps the links acyclic: no parent link is added. */
  lemma DetachRanked(parent: seq<Option<nat>>, rank: seq<nat>, c: nat)
    requires Ranked(parent, rank) && c < |parent|
    ensures Ranked(parent[c := None], rank)
  {
  }

  /** Detaching a listed child keeps parent and child links in agreement. */
  lemma DetachLinked(parent: seq<Option<nat>>, children: seq<seq<nat>>, p: nat, i: nat)
    requires Linked(parent, children) && p < |children| && i < |children[p]|
    ensures var c := children[p][i];
      Linked(parent[c := None], children[p := Erase(children[p], i)])
  {
    DetachKeepsListed(parent, children, p, i);
    DetachKeepsDistinct(children, p, i);
  }

  /** After detaching, every node that keeps its parent is still listed by it. */
  lemma DetachKeepsListed(parent: seq<Option<nat>>, children: seq<seq<nat>>, p: nat, i: nat)
    requires Linked(parent, children) && p < |children| && i < |children[p]|
    ensures var c := children[p][i];
      var parent', children' := parent[c := None], children[p := Erase(children[p], i)];
      forall n :: 0 <= n < |parent'| && parent'[n].Some? ==> parent'[n].value < |parent'| && n in children'[parent'[n].value]
  {
    var c := children[p][i];
    var parent', children' := parent[c := None], children[p := Erase(children[p], i)];
    forall n | 0 <= n < |parent'| && parent'[n].Some?
      ensures parent'[n].value < |parent'| && n in children'[parent'[n].value]
    {
      var q := parent[n].value;
      var k :| 0 <= k < |children[q]| && children[q][k] == n;
      if q == p {
        assert k != i;
        assert children'[p][if k < i then k else k - 1] == n;
      }
    }
  }

  /** Erasing an entry keeps a list free of repeats. */
  lemma DetachKeepsDistinct(children: seq<seq<nat>>, p: nat, i: nat)
    requires p < |children| && i < |children[p]|
    requires forall q, a, b :: 0 <= q < |children| && 0 <= a < b < |children[q]| ==> children[q][a] != children[q][b]
    ensures var children' := children[p := Erase(children[p], i)];
      forall q, a, b :: 0 <= q < |children'| && 0 <= a < b < |children'[q]| ==> children'[q][a] != children'[q][b]
  {
    var children' := children[p := Erase(children[p], i)];
    forall q, a, b | 0 <= q < |children'| && 0 <= a < b < |children'[q]|
      ensures children'[q][a] != children'[q][b]
    {
      if q == p {
        var a', b' := if a < i then a else a + 1, if b < i then b else b + 1;
        assert children'[q][a] == children[q][a'] && children'[q][b] == children[q][b'];
      }
    }
  }


  /** Outside the subtree of the detached node, nothing about positions and rotations changes. */
  lemma {:induction false} DetachKeepsOthers(t: Tree, rank: seq<nat>, c: nat, m: nat)
    requires Sized(t, rank) && Ranked(t.parent, rank) && c < |t.parent|
    requires m < |t.parent| && !Under(t.parent, rank, m, c) && Placed(t, rank, m)
    ensures var t' := t.(parent := t.parent[c := None]);
      Ranked(t'.parent, rank) && Placed(t', rank, m)
      && GlobalPosition(t', rank, m) == GlobalPosition(t, rank, m)
      && GlobalRotation(t', rank, m) == GlobalRotation(t, rank, m)
    decreases rank[m]
  {
    if t.parent[m].Some? {
      UnderStep(t.parent, rank, m, c);
      DetachKeepsOthers(t, rank, c, t.parent[m].value);
    }
  }

  /**
   * Detaching `c` from its parent `p` undoes the attachment: each node of the
   * subtree of `c` was where the global position of `p` puts its new one,
   * and was turned by the global rotation of `p`.
   */
  lemma {:induction false} DetachMovesSubtree(t: Tree, rank: seq<nat>, p: nat, c: nat, m: nat)
    requires Sized(t, rank) && Ranked(t.parent, rank) && c < |t.parent| && t.parent[c] == Some(p)
    requires m < |t.parent| && Under(t.parent, rank, m, c) && Placed(t, rank, m)
    ensures p < |t.parent| && Placed(t, rank, p)
    ensures var t' := t.(parent := t.parent[c := None]);
      Ranked(t'.parent, rank) && Placed(t', rank, m)
      && GlobalPosition(t, rank, m) == Add(GlobalPosition(t, rank, p), GlobalPosition(t', rank, m))
      && GlobalRotation(t, rank, m) == GlobalRotation(t, rank, p) + GlobalRotation(t', rank, m)
    decreases rank[m]
  {
    if m != c {
      UnderStep(t.parent, rank, m, c);
      DetachMovesSubtree(t, rank, p, c, t.parent[m].value);
    } else {
      if Under(t.parent, rank, p, c) {
        UnderRank(t.parent, rank, p, c);
        assert false;
      }
      DetachKeepsOthers(t, rank, c, p);
    }
  }

  // ---------------------------------------------------------------------
  // Traversal

  /** A bound on all ranks, so that ranks can count down a descent. */
  ghost function Top(rank: seq<nat>): (top: nat)
    ensures forall m :: 0 <= m < |rank| ==> rank[m] <= top
  {
    if rank == [] then 0 else var rest := Top(rank[1..]); if rank[0] > rest then rank[0] else rest
  }

  /** The nodes whose sprite `Update` or `Draw` reaches from `n`: `n` first when it has a sprite, then its children's, in list order. */
  function Visit(t: Tree, ghost rank: seq<nat>, n: nat): (v: seq<nat>)
    requires Ordered(t, rank) && n < |t.parent|
    decreases Top(rank) - rank[n], 1, 0
  {
    (if t.sprite[n].Some? then [n] else []) + VisitChildren(t, rank, n, |t.children[n]|)
  }

  /** What the first `i` children of `n` contribute to `Visit(n)`. */
  function VisitChildren(t: Tree, ghost rank: seq<nat>, n: nat, i: nat): (v: seq<nat>)
    requires Ordered(t, rank) && n < |t.parent| && i <= |t.children[n]|
    decreases Top(rank) - rank[n], 0, i
  {
    if i == 0 then []
    else
      VisitChildren(t, rank, n, i - 1) + Visit(t, rank, t.children[n][i - 1])
  }

  /** One more child extends the traversal by that child's own traversal. */
  lemma VisitNext(t: Tree, rank: seq<nat>, n: nat, i: nat)
    requires Ordered(t, rank) && n < |t.parent| && i < |t.children[n]|
    ensures t.children[n][i] < |t.parent| && rank[n] < rank[t.children[n][i]]
    ensures VisitChildren(t, rank, n, i + 1) == VisitChildren(t, rank, n, i) + Visit(t, rank, t.children[n][i])
  {
  }

  /** Everything a traversal from `n` reaches lies in the subtree of `n` and has a sprite. */
  lemma {:induction false} VisitSound(t: Tree, rank: seq<nat>, n: nat, x: nat)
    requires Valid(t, rank) && Ordered(t, rank) && n < |t.parent| && x in Visit(t, rank, n)
    ensures x < |t.parent| && Under(t.parent, rank, x, n) && t.sprite[x].Some?
    decreases Top(rank) - rank[n], 1, 0
  {
    if x !in (if t.sprite[n].Some? then [n] else []) {
      VisitChildrenSound(t, rank, n, |t.children[n]|, x);
    }
  }

  lemma {:induction false} VisitChildrenSound(t: Tree, rank: seq<nat>, n: nat, i: nat, x: nat)
    requires Valid(t, rank) && Ordered(t, rank) && n < |t.parent| && i <= |t.children[n]| && x in VisitChildren(t, rank, n, i)
    ensures x < |t.parent| && Under(t.parent, rank, x, n) && t.sprite[x].Some?
    decreases Top(rank) - rank[n], 0, i
  {
    var c := t.children[n][i - 1];
    if x in VisitChildren(t, rank, n, i - 1) {
      VisitChildrenSound(t, rank, n, i - 1, x);
    } else {
      VisitSound(t, rank, c, x);
      UnderThrough(t.parent, rank, x, c, n);
    }
  }

  /** A node under a child of `n` is under `n`. */
  lemma {:induction false} UnderThrough(parent: seq<Option<nat>>, rank: seq<nat>, x: nat, c: nat, n: nat)
    requires Ranked(parent, rank) && x < |parent| && c < |parent| && parent[c] == Some(n)
    requires Under(parent, rank, x, c)
    ensures Under(parent, rank, x, n)
    decreases rank[x]
  {
    if x != c {
      UnderThrough(parent, rank, parent[x].value, c, n);
    }
  }

  /** The traversal from a child of `n` is part of the traversal from `n`. */
  lemma {:induction false} VisitChildIncluded(t: Tree, rank: seq<nat>, n: nat, j: nat, i: nat, x: nat)
    requires Valid(t, rank) && Ordered(t, rank) && n < |t.parent| && j < i <= |t.children[n]|
    requires t.children[n][j] < |t.parent| && x in Visit(t, rank, t.children[n][j])
    ensures x in VisitChildren(t, rank, n, i)
    decreases i
  {
    if j < i - 1 {
      VisitChildIncluded(t, rank, n, j, i - 1, x);
    }
  }

  /** Every node of the subtree of `n` that has a sprite is reached by a traversal from `n`. */
  lemma {:induction false} VisitComplete(t: Tree, rank: seq<nat>, n: nat, x: nat)
    requires Valid(t, rank) && Ordered(t, rank) && n < |t.parent| && x < |t.parent|
    requires Under(t.parent, rank, x, n) && t.sprite[x].Some?
    ensures x in Visit(t, rank, n)
  {
    VisitAbove(t, rank, n, x, x);
  }

  /** What is reached from `m` is reached from every node above `m`. */
  lemma {:induction false} VisitAbove(t: Tree, rank: seq<nat>, n: nat, m: nat, x: nat)
    requires Valid(t, rank) && Ordered(t, rank) && n < |t.parent| && m < |t.parent|
    requires Under(t.parent, rank, m, n) && x in Visit(t, rank, m)
    ensures x in Visit(t, rank, n)
    decreases rank[m]
  {
    if m != n {
      var q := t.parent[m].value;
      var j :| 0 <= j < |t.children[q]| && t.children[q][j] == m;
      VisitChildIncluded(t, rank, q, j, |t.children[q]|, x);
      VisitAbove(t, rank, n, q, x);
    }
  }

  /** The sprite updates of a traversal: each gets the frame time and a screen size of 0 by 0. */
  function UpdateCalls(nodes: seq<nat>, deltaTime: real): (calls: seq<SpriteCall>)
    ensures |calls| == |nodes|
    ensures forall i :: 0 <= i < |nodes| ==> calls[i] == SpriteUpdate(nodes[i], deltaTime, 0, 0)
  {
    seq(|nodes|, i requires 0 <= i < |nodes| => SpriteUpdate(nodes[i], deltaTime, 0, 0))
  }

  lemma UpdateCallsAppend(a: seq<nat>, b: seq<nat>, deltaTime: real)
    ensures UpdateCalls(a + b, deltaTime) == UpdateCalls(a, deltaTime) + UpdateCalls(b, deltaTime)
  {
  }

  /** The arena of scene nodes, with the node-level operations of `SceneNode`. */
  class SceneGraph {
    var sprite: seq<Option<Sprite>>
    var parent: seq<Option<nat>>
    var children: seq<seq<nat>>
    ghost var rank: seq<nat>

    function Nodes(): Tree
      reads this
    {
      Tree(sprite, parent, children)
    }

    ghost predicate Consistent()
      reads this
    {
      Valid(Nodes(), rank)
    }

    /** An arena without nodes. */
    constructor ()
      ensures Consistent() && sprite == [] && parent == [] && children == []
    {
      sprite, parent, children := [], [], [];
      rank := [];
    }

    /** `SceneNode::SceneNode`: a new node with the given sprite, no parent and no children. */
    method NewNode(s: Option<Sprite>) returns (n: nat)
      requires Sized(Nodes(), rank)
      modifies this
      ensures n == old(|parent|)
      ensures sprite == old(sprite) + [s] && parent == old(parent) + [None] && children == old(children) + [[]]
      ensures Sized(Nodes(), rank)
      ensures old(Consistent()) ==> Consistent()
    {
      n := |parent|;
      sprite, parent, children := sprite + [s], parent + [None], children + [[]];
      rank := rank + [0];
    }

    /**
     * `SceneNode::AttachChild`: `c` names `p` as its parent and is listed
     * last among the children of `p`, the others keeping their order. No
     * check is made: attached as a root to a node outside its own subtree,
     * `c` leaves the arena consistent; attached while it still has a parent,
     * it leaves the links in disagreement.
     */
    method AttachChild(p: nat, c: nat)
      requires Sized(Nodes(), rank) && p < |parent| && c < |parent|
      modifies this
      ensures sprite == old(sprite) && parent == old(parent)[c := Some(p)] && children == old(children)[p := old(children[p]) + [c]]
      ensures Sized(Nodes(), rank)
      ensures old(Consistent() && parent[c] == None && !Under(parent, rank, p, c)) ==> Consistent()
      ensures old(Consistent() && parent[c].Some?) ==> !Linked(parent, children)
      // a root attached below a node of its own subtree closes a cycle
      ensures old(Consistent() && parent[c] == None && Under(parent, rank, p, c)) ==> forall r :: !Ranked(parent, r)
    {
      ghost var t, r := Nodes(), rank;
      if Valid(t, r) && t.parent[c] == None && !Under(t.parent, r, p, c) {
        AttachRanked(t.parent, r, p, c);
        AttachLinked(t.parent, t.children, p, c);
        rank := Lifted(t.parent, r, p, c);
      } else if Valid(t, r) && t.parent[c].Some? {
        AttachAttachedUnlinks(t.parent, t.children, p, c);
      } else if Valid(t, r) && t.parent[c] == None {
        AttachAncestorCycles(t.parent, r, p, c, t.parent[c := Some(p)]);
      }
      parent := parent[c := Some(p)];
      children := children[p := children[p] + [c]];
    }

    /**
     * `SceneNode::DetachChild`: when `node` is not a child of `p` this is an
     * error and nothing changes; otherwise its entry is removed, the others
     * keeping their order, it loses its parent and it is returned.
     */
    method DetachChild(p: nat, node: nat) returns (r: Result<nat>)
      requires Sized(Nodes(), rank) && p < |parent| && node < |parent|
      modifies this
      ensures node !in old(children[p]) ==> r == Err(NotFound) && sprite == old(sprite) && parent == old(parent) && children == old(children)
      ensures node in old(children[p]) ==>
        && r == Ok(node) && sprite == old(sprite) && parent == old(parent)[node := None]
        && children == old(children)[p := Erase(old(children[p]), FirstIndex(old(children[p]), node))]
      ensures Sized(Nodes(), rank) && rank == old(rank)
      ensures old(Consistent()) ==> Consistent()
      ensures old(Consistent()) ==> node !in children[p]
    {
      var i := 0;
      while i < |children[p]| && children[p][i] != node
        invariant i <= |children[p]| && node !in children[p][..i]
      {
        assert children[p][..i + 1] == children[p][..i] + [children[p][i]];
        i := i + 1;
      }
      if i == |children[p]| {
        assert children[p][..i] == children[p];
        return Err(NotFound);
      }
      FirstIndexAt(children[p], node, i);
      if Consistent() {
        DetachLinked(parent, children, p, i);
        DetachRanked(parent, rank, node);
        forall j | 0 <= j < |children[p]| - 1 ensures Erase(children[p], i)[j] != node {
          if j < i { assert children[p][j] != children[p][i]; }
          else { assert children[p][j + 1] != children[p][i]; }
        }
      }
      parent := parent[node := None];
      children := children[p := Erase(children[p], i)];
      r := Ok(node);
    }

    /** `SceneNode::GetChildren`: the children of `n` in list order, each naming `n` as its parent. */
    method GetChildren(n: nat) returns (cs: seq<nat>)
      requires n < |children|
      ensures cs == children[n]
      ensures Consistent() ==> forall i :: 0 <= i < |cs| ==> cs[i] < |parent| && parent[cs[i]] == Some(n)
    {
      cs := children[n];
    }
  }

  /**
   * `SceneNode::Update`: the node's own sprite, if it has one, gets
   * `Update(deltaTime, 0, 0)`; then each child, in list order, is updated
   * the same way.
   */
  method Update(t: Tree, ghost rank: seq<nat>, n: nat, deltaTime: real) returns (calls: seq<SpriteCall>)
    requires Ordered(t, rank) && n < |t.parent|
    ensures calls == UpdateCalls(Visit(t, rank, n), deltaTime)
    decreases Top(rank) - rank[n]
  {
    var own := if t.sprite[n].Some? then [SpriteUpdate(n, deltaTime, 0, 0)] else [];
    var cs := t.children[n];
    var rest := [];
    var i := 0;
    while i < |cs|
      invariant i <= |cs| && cs == t.children[n]
      invariant rest == UpdateCalls(VisitChildren(t, rank, n, i), deltaTime)
    {
      VisitNext(t, rank, n, i);
      var sub := Update(t, rank, cs[i], deltaTime);
      UpdateCallsAppend(VisitChildren(t, rank, n, i), Visit(t, rank, cs[i]), deltaTime);
      rest := rest + sub;
      i := i + 1;
    }
    UpdateCallsAppend(if t.sprite[n].Some? then [n] else [], VisitChildren(t, rank, n, i), deltaTime);
    calls := own + rest;
  }

  /** `SceneNode::Draw`: the nodes whose sprite is drawn, in the same order as `Update`. */
  method Draw(t: Tree, ghost rank: seq<nat>, n: nat) returns (drawn: seq<nat>)
    requires Ordered(t, rank) && n < |t.parent|
    ensures drawn == Visit(t, rank, n)
    decreases Top(rank) - rank[n]
  {
    var own := if t.sprite[n].Some? then [n] else [];
    var cs := t.children[n];
    var rest := [];
    var i := 0;
    while i < |cs|
      invariant i <= |cs| && cs == t.children[n]
      invariant rest == VisitChildren(t, rank, n, i)
    {
      VisitNext(t, rank, n, i);
      var sub := Draw(t, rank, cs[i]);
      rest := rest + sub;
      i := i + 1;
    }
    drawn := own + rest;
  }
}
