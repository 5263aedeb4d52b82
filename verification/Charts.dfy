/** The state tree of a compiled machine and the order facts the interpreter relies on. */
module Charts {
  import opened Seqs

  type StateID = string

  /** The implicit root above the top-level states, which the code writes as "". */
  const ROOT: StateID := ""

  /** The tree part of a compiled state. */
  datatype Node = Node(parent: Option<StateID>, children: seq<StateID>, initial: StateID, parallel: bool, final: bool)

  /** The tree part of a compiled machine; `order` is the definition order. */
  datatype Chart = Chart(nodes: map<StateID, Node>, order: seq<StateID>) {

    predicate Has(id: StateID) {
      id in nodes
    }

    /** The parent, ROOT for a top-level state. */
    function Par(id: StateID): StateID {
      if id in nodes && nodes[id].parent.Some? then nodes[id].parent.value else ROOT
    }

    predicate IsCompound(id: StateID) {
      id in nodes && nodes[id].children != []
    }

    predicate IsFinal(id: StateID) {
      id in nodes && nodes[id].final
    }

    /** A parallel state with children. */
    predicate IsAnd(id: StateID) {
      id in nodes && nodes[id].parallel && nodes[id].children != []
    }

    ghost predicate IsAtomic(id: StateID) {
      id in nodes && nodes[id].children == []
    }

    /** `id` is a direct child of `p`, the top-level states being the children of ROOT. */
    ghost predicate IsChild(p: StateID, id: StateID) {
      id in nodes && Par(id) == p
    }

    /** Position in definition order, counted from 1; 0 for anything undeclared. */
    ghost function Rank(id: StateID): nat {
      if id in order then (var i :| 0 <= i < |order| && order[i] == id; i + 1) else 0
    }

    /** What compilation guarantees of one state. */
    ghost predicate NodeOK(id: StateID) {
      id in nodes ==>
        var n := nodes[id];
        && id in order && id != ROOT
        && (n.parent.Some? ==>
              var p := n.parent.value;
              p in nodes && id in nodes[p].children && Rank(p) < Rank(id))
        && (forall i :: 0 <= i < |n.children| ==>
              n.children[i] in nodes && nodes[n.children[i]].parent == Some(id))
        && (forall i, j :: 0 <= i < j < |n.children| ==> Rank(n.children[i]) < Rank(n.children[j]))
        && (n.children != [] && !n.parallel ==> n.initial in n.children)
        && (n.children != [] && n.parallel ==> |n.children| >= 2)
    }

    ghost predicate Linked() {
      && (forall id :: NodeOK(id))
      && Distinct(order)
      && (forall i :: 0 <= i < |order| ==> order[i] in nodes)
    }

    /** `a` is a proper ancestor of the declared state `id`; ROOT is one of every state. */
    ghost predicate Below(a: StateID, id: StateID)
      requires Linked()
      decreases Rank(id)
    {
      id in nodes && (Par(id) == a || (assert NodeOK(id); nodes[id].parent.Some? && Below(a, Par(id))))
    }

    ghost predicate Anc(a: StateID, id: StateID)
      requires Linked()
    {
      (a == id && id in nodes) || Below(a, id)
    }

    /** Definition order is a preorder: the state declared after `order[i - 1]` is a child of
        it or of one of its ancestors. */
    ghost predicate PreorderAt(i: nat)
      requires Linked()
    {
      0 < i < |order| ==> Par(order[i]) == ROOT || Anc(Par(order[i]), order[i - 1])
    }

    ghost predicate WF() {
      Linked() && forall i: nat :: PreorderAt(i)
    }
  }

  lemma RankIndex(c: Chart, i: nat)
    requires Distinct(c.order) && i < |c.order|
    ensures c.Rank(c.order[i]) == i + 1
  {
  }

  lemma RankInjective(c: Chart, a: StateID, b: StateID)
    requires c.Linked() && a in c.nodes && b in c.nodes
    requires c.Rank(a) == c.Rank(b)
    ensures a == b
  {
    assert c.NodeOK(a) && c.NodeOK(b);
  }

  lemma {:induction false} RootAboveAll(c: Chart, id: StateID)
    requires c.Linked() && id in c.nodes
    ensures c.Below(ROOT, id)
    decreases c.Rank(id)
  {
    assert c.NodeOK(id);
    if c.nodes[id].parent.Some? {
      RootAboveAll(c, c.Par(id));
    }
  }

  lemma {:induction false} BelowRank(c: Chart, a: StateID, id: StateID)
    requires c.Linked() && c.Below(a, id)
    ensures a == ROOT || a in c.nodes
    ensures c.Rank(a) < c.Rank(id) && a != id
    decreases c.Rank(id)
  {
    assert c.NodeOK(id);
    assert ROOT !in c.nodes by { assert c.NodeOK(ROOT); }
    if c.Par(id) != a {
      BelowRank(c, a, c.Par(id));
    }
  }

  lemma {:induction false} BelowTrans(c: Chart, a: StateID, b: StateID, id: StateID)
    requires c.Linked() && c.Anc(b, id) && (c.Below(a, b) || (a == ROOT && b != ROOT))
    ensures c.Below(a, id)
    decreases c.Rank(id)
  {
    assert c.NodeOK(id) && c.NodeOK(ROOT);
    if a == ROOT {
      RootAboveAll(c, id);
    } else if b != id && c.Par(id) != b {
      BelowTrans(c, a, b, c.Par(id));
    }
  }

  /** Two ancestors of one state lie on one chain. */
  lemma {:induction false} AncLinear(c: Chart, a: StateID, b: StateID, id: StateID)
    requires c.Linked() && c.Anc(a, id) && c.Anc(b, id)
    ensures a == b || c.Below(a, b) || c.Below(b, a)
    decreases c.Rank(id)
  {
    assert c.NodeOK(id) && c.NodeOK(ROOT);
    if a != id && b != id && c.nodes[id].parent.Some? {
      AncLinear(c, a, b, c.Par(id));
    }
  }

  /** The child of `a` on the way down to `id`. */
  ghost function Toward(c: Chart, a: StateID, id: StateID): (t: StateID)
    requires c.Linked() && c.Below(a, id)
    ensures c.IsChild(a, t) && c.Anc(t, id) && t in c.nodes
    decreases c.Rank(id)
  {
    assert c.NodeOK(id);
    if c.Par(id) == a then id else Toward(c, a, c.Par(id))
  }

  /** A child of `a` above `id` is the one on the way to it. */
  lemma TowardUnique(c: Chart, a: StateID, t: StateID, id: StateID)
    requires c.Linked() && c.IsChild(a, t) && c.Anc(t, id)
    ensures c.Below(a, id) && Toward(c, a, id) == t
    decreases c.Rank(id)
  {
    assert c.NodeOK(id) && c.NodeOK(t) && c.NodeOK(ROOT);
    if t != id {
      BelowTrans(c, a, t, id);
      if c.Par(id) == a {
        BelowRank(c, a, t);
        BelowRank(c, t, a);
      } else if c.Par(id) != t {
        TowardUnique(c, a, t, c.Par(id));
      }
    }
  }

  /** A state strictly below `a` and above or at `id` is at or below the child towards `id`. */
  lemma BelowMeansTowardAbove(c: Chart, a: StateID, s: StateID, id: StateID)
    requires c.Linked() && c.Below(a, s) && c.Anc(s, id)
    ensures c.Below(a, id) && c.Anc(Toward(c, a, id), s)
  {
    BelowTrans(c, a, s, id);
    var t := Toward(c, a, s);
    if t != s {
      BelowTrans(c, t, s, id);
    }
    TowardUnique(c, a, t, id);
  }

  /** Children are listed where they point to. */
  lemma ChildListed(c: Chart, p: StateID, id: StateID)
    requires c.Linked() && p != ROOT && c.IsChild(p, id)
    ensures p in c.nodes && id in c.nodes[p].children
  {
    assert c.NodeOK(id);
  }

  lemma ListedChild(c: Chart, p: StateID, id: StateID)
    requires c.Linked() && p in c.nodes && id in c.nodes[p].children
    ensures c.IsChild(p, id) && c.Below(p, id) && c.Rank(p) < c.Rank(id)
  {
    assert c.NodeOK(p);
    assert c.NodeOK(id);
  }

  /** A subtree is an interval of definition order. */
  lemma {:induction false} Interval(c: Chart, a: StateID, b: StateID, d: StateID)
    requires c.WF() && a in c.nodes && c.Anc(a, d) && b in c.nodes
    requires c.Rank(a) <= c.Rank(b) <= c.Rank(d)
    ensures c.Anc(a, b)
    decreases c.Rank(d)
  {
    if b == d {
    } else if c.Rank(b) == c.Rank(d) {
      RankInjective(c, b, d);
    } else if a == d {
      RankInjective(c, a, b);
    } else {
      assert c.NodeOK(d) && c.NodeOK(a) && c.NodeOK(b);
      var i := c.Rank(d) - 1;
      assert c.order[i] == d && 0 < i;
      assert c.PreorderAt(i);
      var e := c.order[i - 1];
      assert e in c.nodes;
      RankIndex(c, i - 1);
      // d is strictly below a, so its parent is at or below a, and so is e
      assert c.Anc(a, c.Par(d));
      assert c.Par(d) != ROOT by { assert c.NodeOK(ROOT); BelowRank(c, a, d); }
      if c.Par(d) == a {
        assert c.Anc(a, e);
      } else if c.Par(d) == e {
      } else {
        BelowTrans(c, a, c.Par(d), e);
      }
      Interval(c, a, b, e);
    }
  }

  /** What follows a state outside its subtree follows the whole subtree. */
  lemma SubtreeBefore(c: Chart, a: StateID, s: StateID, b: StateID)
    requires c.WF() && c.Anc(a, s) && a in c.nodes && b in c.nodes && !c.Anc(a, b)
    ensures c.Rank(a) < c.Rank(b) ==> c.Rank(s) < c.Rank(b)
    ensures c.Rank(s) < c.Rank(b) ==> c.Rank(a) < c.Rank(b)
  {
    if a != s {
      BelowRank(c, a, s);
    }
    if c.Rank(a) <= c.Rank(b) <= c.Rank(s) {
      Interval(c, a, b, s);
    }
  }
}
