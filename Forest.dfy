/**
 * Parent links of a tree stored as an arena: node `m > 0` has parent
 * `parent[m] < m`, so following parents always ends at the root, node 0.
 * Both quadtrees keep their tree in this form.
 */
module Forest {
  /** `x` lies in the subtree of `a`: following parent links from `x` reaches `a`. */
  ghost predicate Descends(parent: seq<nat>, x: nat, a: nat)
    decreases x
  {
    x == a || (0 < x < |parent| && parent[x] < x && Descends(parent, parent[x], a))
  }

  /** A descendant never has a smaller index than its ancestor. */
  lemma {:induction false} DescendsAbove(parent: seq<nat>, x: nat, a: nat)
    requires Descends(parent, x, a)
    ensures a <= x
    decreases x
  {
    if x != a {
      DescendsAbove(parent, parent[x], a);
    }
  }

  /** Parent links below `|p|` decide descent for the nodes below `|p|`; appending nodes changes nothing there. */
  lemma {:induction false} DescendsPrefix(p: seq<nat>, q: seq<nat>, x: nat, a: nat)
    requires x < |p| <= |q| && q[..|p|] == p
    ensures Descends(q, x, a) <==> Descends(p, x, a)
    decreases x
  {
    if x != a && 0 < x && q[x] < x {
      assert q[x] == p[x];
      DescendsPrefix(p, q, q[x], a);
    }
  }

  /** Descent is transitive. */
  lemma {:induction false} DescendsTrans(parent: seq<nat>, x: nat, b: nat, a: nat)
    requires Descends(parent, x, b) && Descends(parent, b, a)
    ensures Descends(parent, x, a)
    decreases x
  {
    if x != b {
      DescendsTrans(parent, parent[x], b, a);
    }
  }

  /** The ancestors of a node form a chain: two of them are always related. */
  lemma {:induction false} DescendsChain(parent: seq<nat>, x: nat, a: nat, b: nat)
    requires Descends(parent, x, a) && Descends(parent, x, b)
    ensures Descends(parent, a, b) || Descends(parent, b, a)
    decreases x
  {
    if x != a && x != b {
      DescendsChain(parent, parent[x], a, b);
    }
  }

  /** Subtrees of two different children of one node share no node. */
  lemma Siblings(parent: seq<nat>, x: nat, a: nat, b: nat)
    requires 0 < a < |parent| && 0 < b < |parent| && a != b
    requires parent[a] == parent[b] && parent[a] < a && parent[b] < b
    requires Descends(parent, x, a)
    ensures !Descends(parent, x, b)
  {
    if Descends(parent, x, b) {
      DescendsChain(parent, x, a, b);
      if Descends(parent, a, b) {
        DescendsAbove(parent, parent[a], b);
      } else {
        DescendsAbove(parent, parent[b], a);
      }
    }
  }

  /** The indices `N` to `N + 3` that a split gives the four new nodes appended to an arena of `N` nodes. */
  function NewNodes(N: nat): (s: seq<nat>)
    ensures |s| == 4 && forall i :: 0 <= i < 4 ==> s[i] == N + i
  {
    seq(4, i => N + i)
  }
}
