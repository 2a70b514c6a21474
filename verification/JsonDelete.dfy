/** Deleting trees: which nodes are freed, and that each is freed once and none is read afterwards
    (utils/cJSON/cJSON.c, cJSON_Delete and its callers). */
module JsonDelete {
  import opened JsonList

  /** The nodes a tree owns, in the order they are freed: a node goes after its children, unless those are borrowed. */
  ghost function Freed(t: Tree): seq<Node>
    decreases t, 1
  {
    (if t.data.isReference then [] else FreedAll(t.kids)) + [t.node]
  }

  ghost function FreedAll(ts: seq<Tree>): seq<Node>
    decreases ts, 0
  {
    if ts == [] then [] else FreedAll(ts[..|ts| - 1]) + Freed(ts[|ts| - 1])
  }

  /** Nothing in the tree is borrowed. */
  ghost predicate Owning(t: Tree)
    decreases t, 1
  {
    !t.data.isReference && AllOwning(t.kids)
  }

  ghost predicate AllOwning(ts: seq<Tree>)
    decreases ts, 0
  {
    ts == [] || (AllOwning(ts[..|ts| - 1]) && Owning(ts[|ts| - 1]))
  }

  /** No node is freed twice, only nodes of the tree are, and all of them if it owns them. */
  lemma {:induction false} FreedOnce(t: Tree)
    requires IsTree(t)
    ensures Distinct(Freed(t)) && (forall n :: n in Freed(t) ==> n in Nodes(t))
    ensures Owning(t) ==> forall n :: n in Nodes(t) ==> n in Freed(t)
    decreases t, 1
  {
    hide Linked;
    FreedAllOnce(t.kids, t.below);
    if !t.data.isReference {
      DistinctAppend(FreedAll(t.kids), t.node);
    }
  }

  lemma {:induction false} FreedAllOnce(ts: seq<Tree>, all: set<Node>)
    requires IsForest(ts, all)
    ensures Distinct(FreedAll(ts)) && (forall n :: n in FreedAll(ts) ==> n in all)
    ensures AllOwning(ts) ==> forall n :: n in all ==> n in FreedAll(ts)
    decreases ts, 0
  {
    hide IsTree, Freed, Nodes;
    if ts != [] {
      var n := |ts| - 1;
      FreedOnce(ts[n]);
      FreedAllOnce(ts[..n], all - Nodes(ts[n]));
      DistinctJoin(FreedAll(ts[..n]), Freed(ts[n]));
    }
  }

  lemma DistinctJoin(a: seq<Node>, b: seq<Node>)
    requires Distinct(a) && Distinct(b) && forall n :: n in a ==> n !in b
    ensures Distinct(a + b)
  {
    forall i, j | 0 <= i < j < |a + b| ensures (a + b)[i] != (a + b)[j] {
      if i < |a| <= j {
        assert a[i] in a && b[j - |a|] in b;
      }
    }
  }

  /** What the trees before the `k`-th one have freed is none of its nodes. */
  lemma {:induction false} FreedApart(ts: seq<Tree>, all: set<Node>, k: nat)
    requires IsForest(ts, all) && k < |ts|
    ensures IsTree(ts[k]) && Nodes(ts[k]) <= all
    ensures forall n :: n in FreedAll(ts[..k]) ==> n in all && n !in Nodes(ts[k])
    decreases |ts|
  {
    hide IsTree, Nodes;
    var m := |ts| - 1;
    if k == m {
      FreedAllOnce(ts[..m], all - Nodes(ts[m]));
    } else {
      FreedApart(ts[..m], all - Nodes(ts[m]), k);
      assert ts[..m][..k] == ts[..k];
    }
  }

  /** The trees hang together by the links of their roots. */
  ghost predicate Chained(first: Node?, ts: seq<Tree>)
    reads Roots(ts)
  {
    && first == (if ts == [] then null else ts[0].node)
    && forall i :: 0 <= i < |ts| ==> Roots(ts)[i].next == After(Roots(ts), i)
  }

  lemma KidsChained(t: Tree)
    requires IsTree(t)
    ensures Chained(t.node.child, t.kids) && IsForest(t.kids, t.below) && t.node.data == t.data
  {
  }

  /** `cJSON_Delete` on a chain of trees. `gone` holds the nodes freed before the call: no node that is read is one of
      them or has been freed since. */
  method Delete(first: Node?, ghost ts: seq<Tree>, ghost all: set<Node>, ghost gone: set<Node>) returns (ghost freed: seq<Node>)
    requires IsForest(ts, all) && Chained(first, ts) && all !! gone
    ensures freed == FreedAll(ts)
    decreases ts
  {
    hide IsForest, IsTree, Freed, Roots, Linked, Nodes, Distinct, Before;
    freed := [];
    var item := first;
    ghost var k := 0;
    while item != null
      invariant k <= |ts| && item == (if k == |ts| then null else ts[k].node) && freed == FreedAll(ts[..k])
      decreases |ts| - k
    {
      FreedApart(ts, all, k);
      KidsChained(ts[k]);
      NodeOf(ts[k]);
      ghost var before := gone + set n | n in freed;
      assert item !in before;
      assert item.next == After(Roots(ts), k);
      var next := item.next;
      ghost var kids: seq<Node> := [];
      if !item.data.isReference && item.child != null {
        kids := Delete(item.child, ts[k].kids, ts[k].below, before);
      }
      FreedNext(ts, k);
      freed := freed + kids + [item];
      item := next;
      k := k + 1;
    }
    assert ts[..|ts|] == ts;
  }

  lemma NodeOf(t: Tree)
    ensures t.node in Nodes(t) && t.below <= Nodes(t)
  {
  }

  lemma FreedNext(ts: seq<Tree>, k: nat)
    requires k < |ts|
    ensures var t := ts[k];
      FreedAll(ts[..k + 1]) ==
        FreedAll(ts[..k]) + (if t.data.isReference || t.kids == [] then [] else FreedAll(t.kids)) + [t.node]
  {
    assert ts[..k + 1][..k] == ts[..k];
  }

  /** The item's tree has nothing to do with the list but its root. */
  ghost predicate Apart(parent: Node, replacement: Node, s: seq<Node>, t: Tree) {
    parent !in t.below && replacement !in t.below && forall n :: n in s ==> n !in t.below
  }

  /** The replacement takes the place of the item, whose tree stays whole. */
  method Swap(parent: Node, item: Node, replacement: Node, ghost s: seq<Node>, ghost k: nat, ghost t: Tree)
    requires Linked(parent, s) && k < |s| && item == s[k] && replacement != parent
    requires replacement != item && Free(replacement) && replacement !in s
    requires IsTree(t) && t.node == item && Apart(parent, replacement, s, t)
    modifies parent`child, (set n | n in s)`next, (set n | n in s)`prev, replacement`next, replacement`prev
    ensures Linked(parent, s[k := replacement]) && Free(item) && IsTree(t)
  {
    hide IsForest, Roots, IsTree, Distinct, Before, After;
    TreeRoots(t);
    Replace(parent, item, replacement, s, k);
    assert IsForest(t.kids, t.below) && Linked(item, Roots(t.kids));
    TreeOf(t);
  }

  lemma TreeOf(t: Tree)
    requires IsForest(t.kids, t.below) && Linked(t.node, Roots(t.kids)) && (forall n :: n in Roots(t.kids) ==> n in t.below)
    requires t.node.data == t.data && t.node !in t.below
    ensures IsTree(t)
  {
  }

  /** `cJSON_ReplaceItemViaPointer`: the replacement takes the place of the item, and the item's tree is deleted. */
  method ReplaceItem(parent: Node?, item: Node, replacement: Node?, ghost s: seq<Node>, ghost k: nat, ghost t: Tree)
    returns (ok: bool, ghost freed: seq<Node>)
    requires parent != null && replacement != null ==>
      && Linked(parent, s) && k < |s| && item == s[k] && replacement != parent
      && (replacement == item || (Free(replacement) && replacement !in s))
      && IsTree(t) && t.node == item && Apart(parent, replacement, s, t)
    modifies (if parent == null then {} else {parent})`child, (set n | n in s)`next, (set n | n in s)`prev,
      (if replacement == null then {} else {replacement})`next, (if replacement == null then {} else {replacement})`prev
    ensures ok <==> parent != null && replacement != null
    ensures ok ==> Linked(parent, s[k := replacement])
    ensures freed == if ok && replacement != item then Freed(t) else []
  {
    hide IsTree, Linked, Freed, Apart, Free;
    freed := [];
    ok := parent != null && replacement != null;
    if ok && replacement != item {
      Swap(parent, item, replacement, s, k, t);
      freed := DeleteOne(item, t);
    } else if ok {
      assert s[k := replacement] == s;
    }
  }

  /** `cJSON_ReplaceItemInArray`: outside the list nothing happens. */
  method ReplaceItemInArray(parent: Node, which: int, replacement: Node, ghost s: seq<Node>, ghost t: Tree)
    returns (ghost freed: seq<Node>)
    requires Linked(parent, s) && replacement != parent
    requires (0 <= which < |s| && replacement == s[which]) || (Free(replacement) && replacement !in s)
    requires 0 <= which < |s| ==> IsTree(t) && t.node == s[which] && Apart(parent, replacement, s, t)
    modifies parent`child, (set n | n in s)`next, (set n | n in s)`prev, replacement`next, replacement`prev
    ensures Linked(parent, if 0 <= which < |s| then s[which := replacement] else s)
    ensures freed == if 0 <= which < |s| && replacement != s[which] then Freed(t) else []
  {
    hide IsForest, Linked, Freed, Free;
    freed := [];
    if which < 0 {
      return;
    }
    var item := ArrayItem(parent, which, s);
    if item == null {
      return;
    }
    var ok;
    ok, freed := ReplaceItem(parent, item, replacement, s, which, t);
  }

  lemma TreeRoots(t: Tree)
    requires IsTree(t)
    ensures IsForest(t.kids, t.below) && Linked(t.node, Roots(t.kids)) && (forall n :: n in Roots(t.kids) ==> n in t.below)
    ensures t.node.data == t.data && t.node !in t.below
  {
  }

  /** A tree in no list is deleted whole. */
  method DeleteOne(item: Node, ghost t: Tree) returns (ghost freed: seq<Node>)
    requires IsTree(t) && t.node == item && Free(item)
    ensures freed == Freed(t)
  {
    hide IsTree, Freed, Linked;
    OneTree(t);
    freed := Delete(item, [t], Nodes(t), {});
    assert FreedAll([]) == [] && [t][..0] == [];
  }

  lemma OneTree(t: Tree)
    requires IsTree(t) && Free(t.node)
    ensures IsForest([t], Nodes(t)) && Chained(t.node, [t])
  {
    assert [t][..0] == [] && Nodes(t) - Nodes(t) == {};
    assert Roots([t]) == [t.node];
  }
}
