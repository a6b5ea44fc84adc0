/** Day 6: the orbit map, a tree of named bodies in which each body points
    to the body it orbits. Nodes are kept in the `nodes` hash by name, and a
    node's parent is recorded by the parent's name: `find_or_make_node` is
    the only way a node is made, so a name stands for exactly one node. */
module Day6 {
  import opened Common
  import Text

  /** `Node`: a name and the node it orbits. */
  datatype Node = Node(name: string, parent: Option<string>)

  /** The `nodes` hash. */
  type Nodes = map<string, Node>

  /** `is_root?` */
  predicate IsRoot(n: Node) { n.parent.None? }

  /** `to_s`: `"COM"` for a root, `"parent)name"` otherwise. */
  function ToS(n: Node): string
  {
    if IsRoot(n) then "COM" else n.parent.value + ")" + n.name
  }

  /** The text of a node that has a parent is an input line: split on `")"`
      it gives back the parent's name and the node's name. */
  lemma ToSSplits(n: Node)
    requires !IsRoot(n) && n.name != [] && Text.Avoids(n.name, ')') && Text.Avoids(n.parent.value, ')')
    ensures Text.Split(ToS(n), ")") == [n.parent.value, n.name]
  {
    var parts := [n.parent.value, n.name];
    assert Text.UniqueAt(")", 0);
    assert Text.Join(parts, ")") == ToS(n) by {
      assert Text.Join(parts[1..], ")") == n.name;
    }
    Text.SplitJoin(parts, ")", 0);
  }

  // ---------------------------------------------------------------------
  // Parent chains

  /** Every node is stored under its own name, and every parent is a node. */
  ghost predicate Closed(nodes: Nodes)
  {
    forall k | k in nodes :: nodes[k].name == k && (nodes[k].parent.Some? ==> nodes[k].parent.value in nodes)
  }

  /** The names of the ancestors of `name`, nearest first, if the walk to a
      root takes at most `fuel` steps. */
  ghost function Chain(nodes: Nodes, name: string, fuel: nat): Option<seq<string>>
    requires Closed(nodes) && name in nodes
    decreases fuel
  {
    match nodes[name].parent
    case None => Some([])
    case Some(p) =>
      if fuel == 0 then None
      else
        match Chain(nodes, p, fuel - 1)
        case None => None
        case Some(c) => Some([p] + c)
  }

  /** Every parent chain ends at a root: no body orbits itself. */
  ghost predicate Acyclic(nodes: Nodes)
  {
    Closed(nodes) && forall k | k in nodes :: Chain(nodes, k, |nodes|).Some?
  }

  ghost function Ancestors(nodes: Nodes, name: string): seq<string>
    requires Acyclic(nodes) && name in nodes
  {
    Chain(nodes, name, |nodes|).value
  }

  /** More fuel finds the same chain. */
  lemma {:induction false} ChainFuel(nodes: Nodes, name: string, f: nat, g: nat)
    requires Closed(nodes) && name in nodes && f <= g && Chain(nodes, name, f).Some?
    ensures Chain(nodes, name, g) == Chain(nodes, name, f)
    decreases f
  {
    if nodes[name].parent.Some? {
      ChainFuel(nodes, nodes[name].parent.value, f - 1, g - 1);
    }
  }

  /** The ancestors of a node with a parent are that parent and its ancestors. */
  lemma AncestorsStep(nodes: Nodes, name: string)
    requires Acyclic(nodes) && name in nodes && nodes[name].parent.Some?
    ensures var p := nodes[name].parent.value;
      p in nodes && Ancestors(nodes, name) == [p] + Ancestors(nodes, p)
  {
    var p := nodes[name].parent.value;
    var n := |nodes|;
    ChainFuel(nodes, p, n - 1, n);
  }

  /** `get_depth`: 0 at a root, one more than the parent's depth otherwise. */
  function GetDepth(nodes: Nodes, name: string): (d: nat)
    requires Acyclic(nodes) && name in nodes
    ensures d == |Ancestors(nodes, name)|
    decreases |Ancestors(nodes, name)|
  {
    match nodes[name].parent
    case None => 0
    case Some(p) =>
      AncestorsStep(nodes, name);
      1 + GetDepth(nodes, p)
  }

  /** The ancestors are listed nearest first: the parent, then each one's
      parent in turn, ending at a root; there are as many as the depth. */
  lemma {:induction false} AncestorsShape(nodes: Nodes, name: string)
    requires Acyclic(nodes) && name in nodes
    ensures var a := Ancestors(nodes, name);
      && |a| == GetDepth(nodes, name)
      && (a == [] <==> IsRoot(nodes[name]))
      && (forall i :: 0 <= i < |a| ==> a[i] in nodes)
      && (forall i :: 0 <= i < |a| - 1 ==> nodes[a[i]].parent == Some(a[i + 1]))
      && (a != [] ==> nodes[name].parent == Some(a[0]) && IsRoot(nodes[a[|a| - 1]]))
    decreases |Ancestors(nodes, name)|
  {
    if nodes[name].parent.Some? {
      var p := nodes[name].parent.value;
      AncestorsStep(nodes, name);
      AncestorsShape(nodes, p);
      var a := Ancestors(nodes, name);
      var b := Ancestors(nodes, p);
      assert a == [p] + b;
      forall i | 0 <= i < |a| - 1 ensures nodes[a[i]].parent == Some(a[i + 1]) {
        if i > 0 {
          assert a[i] == b[i - 1] && a[i + 1] == b[i];
        }
      }
    }
  }

  /** `get_parents`: walk up the parent links, collecting every ancestor. */
  method GetParents(nodes: Nodes, name: string) returns (parents: seq<string>)
    requires Acyclic(nodes) && name in nodes
    ensures parents == Ancestors(nodes, name)
  {
    if IsRoot(nodes[name]) {
      return [];
    }
    parents := [];
    var p := nodes[name].parent;
    AncestorsStep(nodes, name);
    while p.Some?
      invariant p.Some? ==> p.value in nodes
      invariant parents + (if p.Some? then [p.value] + Ancestors(nodes, p.value) else []) == Ancestors(nodes, name)
      decreases if p.Some? then 1 + |Ancestors(nodes, p.value)| else 0
    {
      parents := parents + [p.value];
      var q := nodes[p.value].parent;
      if q.Some? {
        AncestorsStep(nodes, p.value);
      }
      p := q;
    }
  }

  /** `find_common_parent(map, node1, node2)`: the first ancestor of `node1`
      that is also an ancestor of `node2`. The `sort_by` result is thrown
      away, so the order is that of `node1`'s ancestors, nearest first. */
  method FindCommonParent(nodes: Nodes, node1: string, node2: string) returns (common: Option<string>)
    requires Acyclic(nodes) && node1 in nodes && node2 in nodes
    ensures var a1, a2 := Ancestors(nodes, node1), Ancestors(nodes, node2);
      && (common.None? <==> forall x :: x in a1 ==> x !in a2)
      && (common.Some? ==>
            && common.value in a1 && common.value in a2
            && forall i :: 0 <= i < |a1| && a1[i] in a2 ==> FirstIndex(a1, common.value) <= i)
  {
    var ps1 := GetParents(nodes, node1);
    var ps2 := GetParents(nodes, node2);
    var both := Intersect(ps1, ps2);
    if both == [] {
      common := None;
    } else {
      IntersectFirst(ps1, ps2);
      common := Some(both[0]);
    }
  }

  /** Each ancestor's own ancestors are the rest of the list after it. */
  lemma {:induction false} AncestorsSuffix(nodes: Nodes, name: string, i: nat)
    requires Acyclic(nodes) && name in nodes && i < |Ancestors(nodes, name)|
    ensures var a := Ancestors(nodes, name);
      a[i] in nodes && Ancestors(nodes, a[i]) == a[i + 1..]
    decreases i
  {
    var p := nodes[name].parent.value;
    AncestorsStep(nodes, name);
    var a := Ancestors(nodes, name);
    if i == 0 {
      assert a[1..] == Ancestors(nodes, p);
    } else {
      AncestorsSuffix(nodes, p, i - 1);
      assert a[i] == Ancestors(nodes, p)[i - 1];
      assert a[i + 1..] == Ancestors(nodes, p)[i..];
    }
  }

  /** The number printed for part two: the depths of `you` and `san` below
      their common ancestor, less the two bodies themselves. */
  function Transfers(nodes: Nodes, you: string, san: string, common: string): int
    requires Acyclic(nodes) && you in nodes && san in nodes && common in nodes
  {
    (GetDepth(nodes, you) - GetDepth(nodes, common)) + (GetDepth(nodes, san) - GetDepth(nodes, common)) - 2
  }

  /** With a common ancestor, the number printed is the count of steps from
      `you`'s parent up to it plus the count from `san`'s parent up to it. */
  lemma TransfersCount(nodes: Nodes, you: string, san: string, common: string)
    requires Acyclic(nodes) && you in nodes && san in nodes && common in nodes
    requires common in Ancestors(nodes, you) && common in Ancestors(nodes, san)
    ensures Transfers(nodes, you, san, common)
         == FirstIndex(Ancestors(nodes, you), common) + FirstIndex(Ancestors(nodes, san), common)
  {
    var a1, a2 := Ancestors(nodes, you), Ancestors(nodes, san);
    AncestorsSuffix(nodes, you, FirstIndex(a1, common));
    AncestorsSuffix(nodes, san, FirstIndex(a2, common));
  }

  // ---------------------------------------------------------------------
  // Building the map

  /** The `nodes` hash after `find_or_make_node(map, name)`. */
  function Made(nodes: Nodes, name: string): (r: Nodes)
    ensures r.Keys == nodes.Keys + {name}
    ensures forall k | k in nodes :: r[k] == nodes[k]
    ensures name !in nodes ==> r[name] == Node(name, None)
    ensures Closed(nodes) ==> Closed(r)
  {
    if name in nodes then nodes else nodes[name := Node(name, None)]
  }

  /** Finding a node a second time changes nothing. */
  lemma MadeIdempotent(nodes: Nodes, name: string)
    ensures Made(Made(nodes, name), name) == Made(nodes, name)
  {
  }

  /** The `nodes` hash after one input line `n1)n2`: both nodes found or
      made, then `node2.parent = node1`. */
  function Linked(nodes: Nodes, n1: string, n2: string): (r: Nodes)
    ensures r.Keys == nodes.Keys + {n1, n2}
    ensures r[n2] == Node(n2, Some(n1))
    ensures forall k | k in nodes && k != n2 :: r[k] == nodes[k]
    ensures n1 !in nodes && n1 != n2 ==> r[n1] == Node(n1, None)
    ensures Closed(nodes) ==> Closed(r)
  {
    var m := Made(Made(nodes, n1), n2);
    m[n2 := Node(n2, Some(n1))]
  }

  /** A chain that does not pass the changed node is the same in the linked map. */
  lemma {:induction false} ChainKept(nodes: Nodes, n1: string, n2: string, name: string, f: nat)
    requires Closed(nodes) && name in nodes && n2 !in nodes && Chain(nodes, name, f).Some?
    ensures Chain(Linked(nodes, n1, n2), name, f) == Chain(nodes, name, f)
    decreases f
  {
    if nodes[name].parent.Some? {
      ChainKept(nodes, n1, n2, nodes[name].parent.value, f - 1);
    }
  }

  /** Adding a new body in orbit around another (`n2` seen for the first
      time) keeps the map free of cycles; the new body's ancestors are its
      parent and the parent's ancestors, and no other node's change. */
  lemma LinkNewAcyclic(nodes: Nodes, n1: string, n2: string)
    requires Acyclic(nodes) && n2 !in nodes && n1 != n2
    ensures Acyclic(Linked(nodes, n1, n2))
    ensures Ancestors(Linked(nodes, n1, n2), n2) == [n1] + (if n1 in nodes then Ancestors(nodes, n1) else [])
    ensures forall k | k in nodes :: Ancestors(Linked(nodes, n1, n2), k) == Ancestors(nodes, k)
  {
    var m := Linked(nodes, n1, n2);
    ChainsKept(nodes, n1, n2);
    NewChain(nodes, n1, n2);
    forall k | k in m ensures Chain(m, k, |m|).Some? {
      if k != n2 && k !in nodes {
        assert k == n1;
      }
    }
  }

  /** The chain of the new node in the linked map. */
  lemma NewChain(nodes: Nodes, n1: string, n2: string)
    requires Acyclic(nodes) && n2 !in nodes && n1 != n2
    ensures var m := Linked(nodes, n1, n2);
      Chain(m, n2, |m|) == Some([n1] + (if n1 in nodes then Ancestors(nodes, n1) else []))
  {
    var m := Linked(nodes, n1, n2);
    LinkedSize(nodes, n1, n2);
    var up := if n1 in nodes then Ancestors(nodes, n1) else [];
    assert Chain(m, n1, |m| - 1) == Some(up) by {
      if n1 in nodes {
        ChainKept(nodes, n1, n2, n1, |nodes|);
        ChainFuel(m, n1, |nodes|, |m| - 1);
      }
    }
  }

  lemma LinkedSize(nodes: Nodes, n1: string, n2: string)
    requires n2 !in nodes
    ensures |Linked(nodes, n1, n2)| >= |nodes| + 1
  {
    var m := Linked(nodes, n1, n2);
    assert |nodes.Keys + {n2}| == |nodes.Keys| + 1;
    SubsetSize(nodes.Keys + {n2}, m.Keys);
  }

  /** The chains of the nodes already present are unchanged by linking a new node. */
  lemma ChainsKept(nodes: Nodes, n1: string, n2: string)
    requires Acyclic(nodes) && n2 !in nodes
    ensures var m := Linked(nodes, n1, n2);
      forall k | k in nodes :: Chain(m, k, |m|) == Chain(nodes, k, |nodes|)
  {
    var m := Linked(nodes, n1, n2);
    LinkedSize(nodes, n1, n2);
    forall k | k in nodes ensures Chain(m, k, |m|) == Chain(nodes, k, |nodes|) {
      ChainKept(nodes, n1, n2, k, |nodes|);
      ChainFuel(m, k, |nodes|, |m|);
    }
  }

  lemma SubsetSize<T>(a: set<T>, b: set<T>)
    requires a <= b
    ensures |a| <= |b|
  {
    assert b == a + (b - a);
  }

  /** The `nodes` hash for the script, holding the root `"COM"` to begin with. */
  class Orbits {
    var nodes: Nodes

    /** Every name maps to its own node and every parent is a node. */
    ghost predicate Valid()
      reads this
    {
      Closed(nodes)
    }

    constructor()
      ensures Valid() && nodes == map["COM" := Node("COM", None)]
    {
      nodes := map["COM" := Node("COM", None)];
    }

    /** `find_or_make_node(nodes, name)` */
    method FindOrMakeNode(name: string) returns (node: Node)
      requires Valid()
      modifies this
      ensures Valid() && nodes == Made(old(nodes), name) && node == nodes[name]
    {
      if name !in nodes {
        nodes := nodes[name := Node(name, None)];
      }
      node := nodes[name];
    }

    /** One line of input, `n1)n2`: find or make both nodes, then make the
        first the parent of the second. */
    method Link(n1: string, n2: string)
      requires Valid()
      modifies this
      ensures Valid() && nodes == Linked(old(nodes), n1, n2)
    {
      var node1 := FindOrMakeNode(n1);
      var node2 := FindOrMakeNode(n2);
      nodes := nodes[n2 := node2.(parent := Some(node1.name))];
    }
  }
}
