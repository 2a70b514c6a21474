/** Child lists and whole trees of linked nodes (utils/cJSON/cJSON.c: add, insert, detach, replace, duplicate). */
module JsonList {
  import opened JsonTypes

  /** What a node holds besides its links; `isReference` is the flag that marks borrowed children. */
  datatype Data = Data(kind: nat, isReference: bool, text: Option<Bytes>, name: Option<Bytes>, num: Num)

  class Node {
    var next: Node?
    var prev: Node?
    var child: Node?
    var data: Data

    constructor (data: Data)
      ensures next == null && prev == null && child == null && this.data == data
    {
      next, prev, child, this.data := null, null, null, data;
    }
  }

  function Before(s: seq<Node>, i: nat): Node?
    requires i < |s|
  {
    if i == 0 then null else s[i - 1]
  }

  function After(s: seq<Node>, i: nat): Node?
    requires i < |s|
  {
    if i == |s| - 1 then null else s[i + 1]
  }

  ghost predicate Distinct(s: seq<Node>) {
    forall i, j :: 0 <= i < j < |s| ==> s[i] != s[j]
  }

  /** The children of `parent` are exactly `s`: `next` and `prev` are mutually inverse, the head has no `prev`, the
      last has no `next`, and no node occurs twice. */
  ghost predicate Linked(parent: Node, s: seq<Node>)
    reads parent`child, s
  {
    && parent.child == (if s == [] then null else s[0])
    && (forall i :: 0 <= i < |s| ==> s[i].prev == Before(s, i) && s[i].next == After(s, i))
    && Distinct(s)
    && parent !in s
  }

  /** A node that is in no list. */
  ghost predicate Free(n: Node)
    reads n
  {
    n.next == null && n.prev == null
  }

  /** The heap determines the list. */
  lemma {:induction false} LinkedUnique(parent: Node, s: seq<Node>, t: seq<Node>)
    requires Linked(parent, s) && Linked(parent, t)
    ensures s == t
  {
    var n := if |s| < |t| then |s| else |t|;
    SameFront(parent, s, t, n);
    if n > 0 {
      assert s[n - 1].next == After(s, n - 1) && t[n - 1].next == After(t, n - 1);
    }
  }

  lemma {:induction false} SameFront(parent: Node, s: seq<Node>, t: seq<Node>, n: nat)
    requires Linked(parent, s) && Linked(parent, t) && n <= |s| && n <= |t|
    ensures forall i :: 0 <= i < n ==> s[i] == t[i]
  {
    if n > 1 {
      SameFront(parent, s, t, n - 1);
      assert s[n - 2].next == s[n - 1] && t[n - 2].next == t[n - 1];
    }
  }

  // ---------------------------------------------------------------------------------------------
  // Lists

  method ArraySize(parent: Node, ghost s: seq<Node>) returns (n: nat)
    requires Linked(parent, s)
    ensures n == |s|
  {
    var c := parent.child;
    n := 0;
    while c != null
      invariant n <= |s| && c == (if n == |s| then null else s[n])
      decreases |s| - n
    {
      n := n + 1;
      c := c.next;
    }
  }

  method ArrayItem(parent: Node, index: nat, ghost s: seq<Node>) returns (r: Node?)
    requires Linked(parent, s)
    ensures r == if index < |s| then s[index] else null
  {
    r := parent.child;
    var left := index;
    while r != null && left > 0
      invariant 0 <= left <= index
      invariant r == if index - left < |s| then s[index - left] else null
      decreases left
    {
      left := left - 1;
      r := r.next;
    }
  }

  method AddItem(parent: Node, item: Node, ghost s: seq<Node>)
    requires Linked(parent, s) && Free(item) && item !in s && item != parent
    modifies parent`child, (set n | n in s)`next, item`prev
    ensures Linked(parent, s + [item])
  {
    hide Distinct;
    var c := parent.child;
    if c != null {
      ghost var k := 0;
      while c.next != null
        invariant k < |s| && c == s[k]
        decreases |s| - k
      {
        k := k + 1;
        c := c.next;
      }
    }
    Hang(parent, c, item, s);
  }

  /** An index before the list changes nothing; one past it appends. */
  function Inserted<T>(s: seq<T>, which: int, x: T): seq<T> {
    if which < 0 then s else if which < |s| then s[..which] + [x] + s[which..] else s + [x]
  }

  function Removed<T>(s: seq<T>, k: nat): (r: seq<T>)
    requires k < |s|
    ensures |r| == |s| - 1
    ensures forall i :: 0 <= i < |r| ==> r[i] == if i < k then s[i] else s[i + 1]
  {
    s[..k] + s[k + 1..]
  }

  lemma DistinctInsert(s: seq<Node>, k: nat, x: Node)
    requires Distinct(s) && k < |s| && x !in s
    ensures Distinct(Inserted(s, k, x))
  {
  }

  lemma DistinctRemove(s: seq<Node>, k: nat)
    requires Distinct(s) && k < |s|
    ensures Distinct(Removed(s, k))
  {
  }

  lemma DistinctReplace(s: seq<Node>, k: nat, x: Node)
    requires Distinct(s) && k < |s| && x !in s
    ensures Distinct(s[k := x])
  {
  }

  lemma DistinctAppend(s: seq<Node>, x: Node)
    requires Distinct(s) && x !in s
    ensures Distinct(s + [x])
  {
  }

  /** Links after an insertion at `k`: only the new node's neighbours have changed. */
  lemma InsertLinks(parent: Node, s: seq<Node>, k: nat, x: Node)
    requires k < |s| && x !in s && parent !in s && x != parent
    requires Distinct(s)
    requires forall i :: 0 <= i < |s| ==> s[i].prev == if i == k then x else Before(s, i)
    requires forall i :: 0 <= i < |s| ==> s[i].next == if i + 1 == k then x else After(s, i)
    requires x.next == s[k] && x.prev == Before(s, k) && parent.child == (if k == 0 then x else s[0])
    ensures Linked(parent, Inserted(s, k, x))
  {
    hide Distinct;
    DistinctInsert(s, k, x);
    var t := Inserted(s, k, x);
    forall i | 0 <= i < |t| ensures t[i].prev == Before(t, i) && t[i].next == After(t, i) {
      if i < k {
        assert t[i] == s[i];
      } else if i > k {
        assert t[i] == s[i - 1];
      }
    }
  }

  lemma RemoveLinks(parent: Node, s: seq<Node>, k: nat)
    requires k < |s| && parent !in s
    requires Distinct(s)
    requires forall i :: 0 <= i < |s| && i != k ==> s[i].prev == if i == k + 1 then Before(s, k) else Before(s, i)
    requires forall i :: 0 <= i < |s| && i != k ==> s[i].next == if i + 1 == k then After(s, k) else After(s, i)
    requires parent.child == (if k == 0 then After(s, 0) else s[0])
    ensures Linked(parent, Removed(s, k))
  {
    hide Distinct;
    DistinctRemove(s, k);
    var t := Removed(s, k);
    forall i | 0 <= i < |t| ensures t[i].prev == Before(t, i) && t[i].next == After(t, i) {
      if i < k {
        assert t[i] == s[i];
      } else {
        assert t[i] == s[i + 1];
      }
    }
  }

  lemma ReplaceLinks(parent: Node, s: seq<Node>, k: nat, x: Node)
    requires k < |s| && x !in s && parent !in s && x != parent
    requires Distinct(s)
    requires forall i :: 0 <= i < |s| && i != k ==> s[i].prev == if i == k + 1 then x else Before(s, i)
    requires forall i :: 0 <= i < |s| && i != k ==> s[i].next == if i + 1 == k then x else After(s, i)
    requires x.prev == Before(s, k) && x.next == After(s, k) && parent.child == (if k == 0 then x else s[0])
    ensures Linked(parent, s[k := x])
  {
    hide Distinct;
    DistinctReplace(s, k, x);
    var t := s[k := x];
    forall i | 0 <= i < |t| ensures t[i].prev == Before(t, i) && t[i].next == After(t, i) {
      if i != k {
        assert t[i] == s[i];
      }
    }
  }

  method InsertItem(parent: Node, which: int, item: Node, ghost s: seq<Node>)
    requires Linked(parent, s) && Free(item) && item !in s && item != parent
    modifies parent`child, (set n | n in s)`next, (set n | n in s)`prev, item`prev, item`next
    ensures Linked(parent, Inserted(s, which, item))
  {
    if which < 0 {
      return;
    }
    var after := ArrayItem(parent, which, s);
    if after == null {
      AddItem(parent, item, s);
      return;
    }
    LinkBefore(parent, after, item, s, which);
    hide Linked, Distinct;
    InsertLinks(parent, s, which, item);
  }

  /** The neighbours, or the parent, point at the new item. */
  method LinkBefore(parent: Node, after: Node, item: Node, ghost s: seq<Node>, ghost k: nat)
    requires Linked(parent, s) && k < |s| && after == s[k] && item !in s && item != parent
    modifies parent`child, (set n | n in s)`next, (set n | n in s)`prev, item`prev, item`next
    ensures forall i :: 0 <= i < |s| ==> s[i].prev == if i == k then item else Before(s, i)
    ensures forall i :: 0 <= i < |s| ==> s[i].next == if i + 1 == k then item else After(s, i)
    ensures item.next == s[k] && item.prev == Before(s, k) && parent.child == if k == 0 then item else s[0]
  {
    item.next := after;
    item.prev := after.prev;
    after.prev := item;
    if after == parent.child {
      parent.child := item;
    } else {
      item.prev.next := item;
    }
  }

  method Detach(parent: Node, item: Node, ghost s: seq<Node>, ghost k: nat)
    requires Linked(parent, s) && k < |s| && item == s[k]
    modifies parent`child, (set n | n in s)`next, (set n | n in s)`prev
    ensures Linked(parent, Removed(s, k)) && Free(item)
  {
    if item.prev != null {
      item.prev.next := item.next;
    }
    if item.next != null {
      item.next.prev := item.prev;
    }
    if item == parent.child {
      parent.child := item.next;
    }
    item.prev := null;
    item.next := null;
    RemoveLinks(parent, s, k);
  }

  method DetachFromArray(parent: Node, which: int, ghost s: seq<Node>) returns (r: Node?)
    requires Linked(parent, s)
    modifies parent`child, (set n | n in s)`next, (set n | n in s)`prev
    ensures 0 <= which < |s| ==> r == s[which] && Linked(parent, Removed(s, which)) && Free(s[which])
    ensures !(0 <= which < |s|) ==> r == null && Linked(parent, s)
  {
    if which < 0 {
      return null;
    }
    r := ArrayItem(parent, which, s);
    if r != null {
      Detach(parent, r, s, which);
    }
  }

  method Replace(parent: Node, item: Node, replacement: Node, ghost s: seq<Node>, ghost k: nat)
    requires Linked(parent, s) && k < |s| && item == s[k] && replacement != parent
    requires replacement == item || (Free(replacement) && replacement !in s)
    modifies parent`child, (set n | n in s)`next, (set n | n in s)`prev, replacement`next, replacement`prev
    ensures Linked(parent, s[k := replacement]) && (item != replacement ==> Free(item))
  {
    if replacement == item {
      assert s[k := item] == s;
      return;
    }
    TakePlace(parent, item, replacement, s, k);
    item.next := null;
    item.prev := null;
    hide Linked, Distinct;
    ReplaceLinks(parent, s, k, replacement);
  }

  /** The neighbours and the parent point at the replacement. */
  method TakePlace(parent: Node, item: Node, replacement: Node, ghost s: seq<Node>, ghost k: nat)
    requires Linked(parent, s) && k < |s| && item == s[k] && replacement != parent
    requires Free(replacement) && replacement !in s
    modifies parent`child, (set n | n in s)`next, (set n | n in s)`prev, replacement`next, replacement`prev
    ensures forall i :: 0 <= i < |s| && i != k ==> s[i].prev == if i == k + 1 then replacement else Before(s, i)
    ensures forall i :: 0 <= i < |s| && i != k ==> s[i].next == if i + 1 == k then replacement else After(s, i)
    ensures replacement.prev == Before(s, k) && replacement.next == After(s, k)
    ensures parent.child == if k == 0 then replacement else s[0]
  {
    replacement.next := item.next;
    replacement.prev := item.prev;
    if replacement.next != null {
      replacement.next.prev := replacement;
    }
    if replacement.prev != null {
      replacement.prev.next := replacement;
    }
    if parent.child == item {
      parent.child := replacement;
    }
  }

  /** Inserting within the list and detaching again gives the list back. */
  lemma InsertDetach<T>(s: seq<T>, which: nat, x: T)
    requires which <= |s|
    ensures which < |Inserted(s, which, x)| && Inserted(s, which, x)[which] == x
    ensures Removed(Inserted(s, which, x), which) == s
  {
  }

  // ---------------------------------------------------------------------------------------------
  // Trees

  /** The nodes reached from a node, as a value; `below` is the set of all of them but the first. */
  datatype Tree = Tree(node: Node, data: Data, kids: seq<Tree>, below: set<Node>)

  ghost function Nodes(t: Tree): set<Node> {
    {t.node} + t.below
  }

  ghost function Roots(ts: seq<Tree>): (r: seq<Node>)
    ensures |r| == |ts| && forall i :: 0 <= i < |ts| ==> r[i] == ts[i].node
  {
    if ts == [] then [] else Roots(ts[..|ts| - 1]) + [ts[|ts| - 1].node]
  }

  /** The heap holds the tree, and no node is shared within it. */
  ghost predicate IsTree(t: Tree)
    reads Nodes(t)
    decreases t, 1
  {
    && t.node.data == t.data && t.node !in t.below
    && (forall n :: n in Roots(t.kids) ==> n in t.below)
    && Linked(t.node, Roots(t.kids)) && IsForest(t.kids, t.below)
  }

  /** Trees that share no node and have the nodes `all`. */
  ghost predicate IsForest(ts: seq<Tree>, all: set<Node>)
    reads all
    decreases ts, 0
  {
    if ts == [] then all == {}
    else
      var last := ts[|ts| - 1];
      Nodes(last) <= all && IsTree(last) && IsForest(ts[..|ts| - 1], all - Nodes(last))
  }

  function CopiedData(d: Data): Data {
    d.(isReference := false)
  }

  /** The same kind, strings and number, in a node that owns its children. */
  predicate Copies(d: Data, e: Data) {
    e.kind == d.kind && e.text == d.text && e.name == d.name && e.num == d.num && !e.isReference
  }

  /** `u` has the data and the shape of `t`; the reference flag is not copied. */
  ghost predicate SameValues(t: Tree, u: Tree)
    decreases t, 1
  {
    Copies(t.data, u.data) && SameForest(t.kids, u.kids)
  }

  ghost predicate SameForest(ts: seq<Tree>, us: seq<Tree>)
    decreases ts, 0
  {
    && |us| == |ts|
    && (ts != [] ==>
          SameForest(ts[..|ts| - 1], us[..|ts| - 1]) && SameValues(ts[|ts| - 1], us[|ts| - 1]))
  }

  lemma {:induction false} ForestAt(ts: seq<Tree>, all: set<Node>, k: nat)
    requires IsForest(ts, all) && k < |ts|
    ensures IsTree(ts[k]) && Nodes(ts[k]) <= all
    decreases |ts|
  {
    if k < |ts| - 1 {
      ForestAt(ts[..|ts| - 1], all - Nodes(ts[|ts| - 1]), k);
    }
  }

  /** The heap determines the tree. */
  lemma {:induction false} TreeUnique(t: Tree, u: Tree)
    requires IsTree(t) && IsTree(u) && t.node == u.node
    ensures t == u
    decreases t, 1
  {
    LinkedUnique(t.node, Roots(t.kids), Roots(u.kids));
    ForestUnique(t.kids, t.below, u.kids, u.below);
  }

  lemma {:induction false} ForestUnique(ts: seq<Tree>, all: set<Node>, us: seq<Tree>, others: set<Node>)
    requires IsForest(ts, all) && IsForest(us, others) && Roots(ts) == Roots(us)
    ensures ts == us && all == others
    decreases ts, 0
  {
    hide Linked, IsTree, Roots;
    if ts != [] {
      var n := |ts| - 1;
      RootsFront(ts, us);
      TreeUnique(ts[n], us[n]);
      ForestUnique(ts[..n], all - Nodes(ts[n]), us[..n], others - Nodes(us[n]));
      assert all == all - Nodes(ts[n]) + Nodes(ts[n]) && others == others - Nodes(us[n]) + Nodes(us[n]);
      assert ts == ts[..n] + [ts[n]] && us == us[..n] + [us[n]];
    }
  }

  lemma RootsFront(ts: seq<Tree>, us: seq<Tree>)
    requires Roots(ts) == Roots(us) && ts != []
    ensures |ts| == |us| && ts[|ts| - 1].node == us[|ts| - 1].node
    ensures Roots(ts[..|ts| - 1]) == Roots(us[..|ts| - 1])
  {
    var n := |ts| - 1;
    assert Roots(ts)[n] == Roots(us)[n] && Roots(ts)[..n] == Roots(us)[..n];
    assert Roots(ts[..n]) == Roots(ts)[..n] && Roots(us[..n]) == Roots(us)[..n];
  }

  lemma AppendLinks(parent: Node, s: seq<Node>, x: Node)
    requires parent !in s && x !in s && x != parent && parent.child == (if s == [] then x else s[0])
    requires Distinct(s)
    requires forall i :: 0 <= i < |s| ==> s[i].prev == Before(s, i) && s[i].next == if i == |s| - 1 then x else After(s, i)
    requires x.next == null && x.prev == if s == [] then null else s[|s| - 1]
    ensures Linked(parent, s + [x])
  {
    hide Distinct;
    DistinctAppend(s, x);
    var t := s + [x];
    forall i | 0 <= i < |t| ensures t[i].prev == Before(t, i) && t[i].next == After(t, i) {
      if i < |s| {
        assert t[i] == s[i];
      }
    }
  }

  /** Hangs a node behind the last one. */
  method Hang(parent: Node, last: Node?, c: Node, ghost s: seq<Node>)
    requires Linked(parent, s) && last == (if s == [] then null else s[|s| - 1])
    requires Free(c) && c !in s && c != parent
    modifies parent`child, (if last == null then {} else {last})`next, c`prev
    ensures Linked(parent, s + [c])
  {
    if last != null {
      last.next := c;
      c.prev := last;
    } else {
      parent.child := c;
    }
    AppendLinks(parent, s, c);
  }

  lemma ForestOneMore(us: seq<Tree>, all: set<Node>, u: Tree)
    requires IsForest(us, all) && IsTree(u) && Nodes(u) !! all
    ensures IsForest(us + [u], all + Nodes(u)) && Roots(us + [u]) == Roots(us) + [u.node]
  {
    assert (us + [u])[..|us|] == us;
    assert all + Nodes(u) - Nodes(u) == all;
  }

  lemma {:induction false} RootsIn(ts: seq<Tree>, all: set<Node>)
    requires IsForest(ts, all)
    ensures forall n :: n in Roots(ts) ==> n in all
  {
    if ts != [] {
      RootsIn(ts[..|ts| - 1], all - Nodes(ts[|ts| - 1]));
    }
  }

  /** Hangs a copied child behind the others. */
  method Append(parent: Node, last: Node?, c: Node, ghost us: seq<Tree>, ghost all: set<Node>, ghost u: Tree)
    requires IsForest(us, all) && Linked(parent, Roots(us)) && parent !in all
    requires last == (if us == [] then null else us[|us| - 1].node)
    requires IsTree(u) && u.node == c && Free(c) && parent !in Nodes(u) && Nodes(u) !! all
    modifies parent`child, (if last == null then {} else {last})`next, c`prev
    ensures IsForest(us + [u], all + Nodes(u)) && Linked(parent, Roots(us + [u]))
  {
    hide Linked, Roots;
    RootsIn(us, all);
    Hang(parent, last, c, Roots(us));
    assert IsForest(u.kids, u.below) && Linked(c, Roots(u.kids));
    assert IsTree(u);
    if us != [] {
      ghost var t := us[|us| - 1];
      assert IsForest(t.kids, t.below) && Linked(last, Roots(t.kids));
      assert IsTree(t) && IsForest(us[..|us| - 1], all - Nodes(t));
    }
    assert IsForest(us, all);
    hide IsForest, IsTree;
    ForestOneMore(us, all, u);
  }

  /** `cJSON_Duplicate` with recursion: an equal tree of new nodes; the original is not modified. */
  method Duplicate(item: Node, ghost t: Tree) returns (copy: Node, ghost u: Tree)
    requires IsTree(t) && t.node == item
    ensures IsTree(u) && u.node == copy && SameValues(t, u) && Free(copy) && fresh(Nodes(u))
    decreases t, 1
  {
    hide Linked, Roots, IsForest, SameForest, SameValues, CopiedData, IsTree;
    FirstKid(t);
    copy := new Node(CopiedData(item.data));
    var child, last := item.child, null;
    ghost var us: seq<Tree>, all: set<Node> := [], {};
    NothingCopied(copy, t);
    while child != null
      invariant |us| <= |t.kids| && child == (if |us| == |t.kids| then null else t.kids[|us|].node)
      invariant IsForest(us, all) && Linked(copy, Roots(us)) && copy !in all && fresh(all)
      invariant SameForest(t.kids[..|us|], us)
      invariant last == (if us == [] then null else us[|us| - 1].node) && (last != null ==> last in all)
      invariant Free(copy) && copy.data == CopiedData(t.data)
      invariant copy !in Nodes(t) && Nodes(t) !! all
      invariant IsForest(t.kids, t.below) && Linked(item, Roots(t.kids))
      decreases |t.kids| - |us|
    {
      ghost var k := |us|;
      var c, kid := CopyKid(copy, last, child, t, us, all);
      ForestOneMoreSame(t.kids, us, kid);
      last := c;
      us, all := us + [kid], all + Nodes(kid);
      child := child.next;
    }
    u := Tree(copy, copy.data, us, all);
    AllCopied(t, u);
  }

  /** One turn of the loop over the children. */
  method CopyKid(parent: Node, last: Node?, child: Node, ghost t: Tree, ghost us: seq<Tree>, ghost all: set<Node>)
    returns (c: Node, ghost kid: Tree)
    requires IsForest(t.kids, t.below) && Linked(t.node, Roots(t.kids)) && |us| < |t.kids| && t.kids[|us|].node == child
    requires parent !in Nodes(t) && Nodes(t) !! all && Free(parent)
    requires IsForest(us, all) && Linked(parent, Roots(us)) && parent !in all
    requires last == (if us == [] then null else us[|us| - 1].node) && (last != null ==> last in all)
    modifies parent`child, (if last == null then {} else {last})`next
    ensures IsForest(t.kids, t.below) && Linked(t.node, Roots(t.kids)) && Free(parent) && parent.data == old(parent.data)
    ensures child.next == if |us| + 1 == |t.kids| then null else t.kids[|us| + 1].node
    ensures SameValues(t.kids[|us|], kid) && kid.node == c && fresh(Nodes(kid))
    ensures IsForest(us + [kid], all + Nodes(kid)) && Linked(parent, Roots(us + [kid]))
    decreases t, 0
  {
    hide Linked, Roots, IsForest, IsTree, SameForest, SameValues;
    KidAt(t, |us|);
    RootsIn(t.kids, t.below);
    c, kid := Duplicate(child, t.kids[|us|]);
    Append(parent, last, c, us, all, kid);
  }

  lemma NothingCopied(copy: Node, t: Tree)
    requires copy.child == null
    ensures IsForest([], {}) && Linked(copy, Roots([])) && SameForest(t.kids[..0], [])
  {
  }

  lemma FirstKid(t: Tree)
    requires IsTree(t)
    ensures t.node.child == if t.kids == [] then null else t.kids[0].node
    ensures t.node.data == t.data && IsForest(t.kids, t.below) && Linked(t.node, Roots(t.kids))
    ensures forall n :: n in Roots(t.kids) ==> n in t.below
  {
  }

  lemma KidAt(t: Tree, k: nat)
    requires IsForest(t.kids, t.below) && Linked(t.node, Roots(t.kids)) && k < |t.kids|
    ensures IsTree(t.kids[k]) && t.kids[k].node.next == if k + 1 == |t.kids| then null else t.kids[k + 1].node
  {
    ForestAt(t.kids, t.below, k);
    assert Roots(t.kids)[k].next == After(Roots(t.kids), k);
  }

  lemma AllCopied(t: Tree, u: Tree)
    requires |u.kids| == |t.kids| && SameForest(t.kids[..|u.kids|], u.kids) && u.data == CopiedData(t.data)
    requires u.node.data == u.data && u.node !in u.below && Linked(u.node, Roots(u.kids)) && IsForest(u.kids, u.below)
    ensures IsTree(u) && SameValues(t, u)
  {
    assert t.kids[..|u.kids|] == t.kids;
    RootsIn(u.kids, u.below);
  }

  lemma ForestOneMoreSame(ts: seq<Tree>, us: seq<Tree>, u: Tree)
    requires |us| < |ts| && SameForest(ts[..|us|], us) && SameValues(ts[|us|], u)
    ensures SameForest(ts[..|us| + 1], us + [u])
  {
    assert ts[..|us| + 1][..|us|] == ts[..|us|] && (us + [u])[..|us|] == us;
  }

  /** `cJSON_Duplicate` without recursion: the node alone. */
  method DuplicateNode(item: Node) returns (copy: Node)
    ensures fresh(copy) && Free(copy) && copy.child == null && Copies(item.data, copy.data)
  {
    copy := new Node(CopiedData(item.data));
  }
}
