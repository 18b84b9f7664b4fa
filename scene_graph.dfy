/**
 * The scene-graph topology: `Node` parent and child links, and the `SceneGraph` root set and
 * entity registry. `SceneGraph::get()`, a process-wide singleton, is passed explicitly.
 */
module SceneGraphs {

  /** `std::remove` followed by `erase`: every occurrence of `x` dropped, the rest kept in order. */
  function Without<T(==)>(s: seq<T>, x: T): (r: seq<T>)
    ensures x !in r && |r| <= |s|
    ensures forall i :: 0 <= i < |r| ==> r[i] in s && r[i] != x
    ensures forall i :: 0 <= i < |s| && s[i] != x ==> s[i] in r
    ensures x !in s ==> r == s
  {
    if s == [] then []
    else if s[|s| - 1] == x then Without(s[..|s| - 1], x)
    else Without(s[..|s| - 1], x) + [s[|s| - 1]]
  }

  predicate NoDuplicates<T(==)>(s: seq<T>) {
    forall i, j :: 0 <= i < j < |s| ==> s[i] != s[j]
  }

  /** Dropping an element keeps a duplicate-free list duplicate-free. */
  lemma {:induction false} WithoutNoDuplicates<T>(s: seq<T>, x: T)
    requires NoDuplicates(s)
    ensures NoDuplicates(Without(s, x))
    decreases |s|
  {
    if s != [] {
      var front := s[..|s| - 1];
      assert NoDuplicates(front) by {
        forall i, j | 0 <= i < j < |front| ensures front[i] != front[j] {
          assert front[i] == s[i] && front[j] == s[j];
        }
      }
      WithoutNoDuplicates(front, x);
      if s[|s| - 1] != x {
        assert s[|s| - 1] !in front;
      }
    }
  }

  lemma WithoutKeeps<T>(s: seq<T>, x: T, y: T)
    requires y in s && y != x
    ensures y in Without(s, x)
  {
    var i :| 0 <= i < |s| && s[i] == y;
  }

  lemma AppendNoDuplicates<T>(s: seq<T>, x: T)
    requires NoDuplicates(s) && x !in s
    ensures NoDuplicates(s + [x])
  {
  }

  /** The entt registry, reduced to the entities it has handed out. */
  class SceneGraph {
    var roots: set<Node>
    var entities: set<nat>
    var nextEntity: nat

    constructor ()
      ensures roots == {} && entities == {} && nextEntity == 0
    {
      roots, entities, nextEntity := {}, {}, 0;
    }

    /** `m_registry->create()`: a new entity id. */
    method CreateEntity() returns (e: nat)
      modifies this
      ensures e == old(nextEntity) && nextEntity == e + 1
      ensures entities == old(entities) + {e} && roots == old(roots)
      ensures old(Invariant()) ==> Invariant() && e !in old(entities)
    {
      e := nextEntity;
      entities := entities + {e};
      nextEntity := nextEntity + 1;
    }

    /** Every id handed out lies below the counter. */
    predicate Invariant()
      reads this
    {
      forall e :: e in entities ==> e < nextEntity
    }

    /** `add_root`: `roots` is a set, so adding twice keeps one copy. */
    method AddRoot(root: Node)
      modifies this
      ensures roots == old(roots) + {root}
      ensures entities == old(entities) && nextEntity == old(nextEntity)
    {
      roots := roots + {root};
    }

    /** `remove_root`. */
    method RemoveRoot(root: Node)
      modifies this
      ensures roots == old(roots) - {root}
      ensures entities == old(entities) && nextEntity == old(nextEntity)
    {
      roots := roots - {root};
    }

    /** `reset`: forgets the roots and the entities; the nodes keep their links. */
    method Reset()
      modifies this
      ensures roots == {} && entities == {}
      ensures nextEntity == old(nextEntity)
    {
      roots := {};
      entities := {};
    }

    /** `roots()`: each root once, in the set's order. */
    method Roots() returns (r: seq<Node>)
      ensures NoDuplicates(r)
      ensures forall n :: n in r <==> n in roots
      ensures |r| == |roots|
    {
      r := [];
      var pending := roots;
      while pending != {}
        invariant pending <= roots
        invariant NoDuplicates(r)
        invariant forall n :: n in r <==> n in roots - pending
        invariant |r| + |pending| == |roots|
        decreases |pending|
      {
        var n :| n in pending;
        assert n !in r;
        r := r + [n];
        pending := pending - {n};
      }
    }
  }

  class Node {
    const entity: nat
    var parent: Node?
    var children: seq<Node>

    /** The protected `Node()`; the entity comes from the registry. */
    constructor (entity: nat)
      ensures this.entity == entity && parent == null && children == []
    {
      this.entity := entity;
      parent := null;
      children := [];
    }

    /**
     * `reparent`: leaves the old parent's children (every occurrence), takes the new parent and
     * is appended at the end of its children; with no new parent the node becomes a root. It
     * never removes the node from the roots, and it does not check for cycles. On any set of nodes
     * holding the three it involves, the links change as `ReparentLinks` says.
     */
    method Reparent(newParent: Node?, graph: SceneGraph, ghost nodes: set<Node>)
      modifies this, parent, newParent, graph
      ensures parent == newParent
      ensures old(parent) != null && old(parent) != newParent ==> old(parent).children == Without(old(parent.children), this)
      ensures old(parent) != null && old(parent) == newParent ==> newParent.children == Without(old(parent.children), this) + [this]
      ensures newParent != null && newParent != old(parent) ==> newParent.children == old(newParent.children) + [this]
      ensures this != old(parent) && this != newParent ==> children == old(children)
      ensures newParent == null ==> graph.roots == old(graph.roots) + {this}
      ensures newParent != null ==> graph.roots == old(graph.roots)
      ensures graph.entities == old(graph.entities) && graph.nextEntity == old(graph.nextEntity)
      ensures this in nodes && (newParent == null || newParent in nodes) && (old(parent) == null || old(parent) in nodes) ==>
        (Parents(nodes), Children(nodes)) == ReparentLinks(old(Parents(nodes)), old(Children(nodes)), this, newParent)
    {
      ghost var p0, c0 := Parents(nodes), Children(nodes);
      ghost var oldParent := parent;
      if parent != null {
        SetChildren(parent, Without(parent.children, this), nodes);
      }
      SetParent(this, newParent, nodes);
      if newParent != null {
        SetChildren(newParent, newParent.children + [this], nodes);
      } else {
        graph.AddRoot(this);
      }
    }
  }

  /** One assignment to `m_children`: as values, only that node's entry changes. */
  method SetChildren(n: Node, children: seq<Node>, ghost nodes: set<Node>)
    modifies n
    ensures n.children == children && n.parent == old(n.parent)
    ensures Parents(nodes) == old(Parents(nodes))
    ensures Children(nodes) == if n in nodes then old(Children(nodes))[n := children] else old(Children(nodes))
  {
    ghost var p0, c0 := Parents(nodes), Children(nodes);
    n.children := children;
    forall m | m in nodes ensures Parents(nodes)[m] == p0[m] && (m != n ==> Children(nodes)[m] == c0[m]) {
    }
  }

  /** One assignment to `m_parent`: as values, only that node's entry changes. */
  method SetParent(n: Node, parent: Node?, ghost nodes: set<Node>)
    modifies n
    ensures n.parent == parent && n.children == old(n.children)
    ensures Children(nodes) == old(Children(nodes))
    ensures Parents(nodes) == if n in nodes then old(Parents(nodes))[n := parent] else old(Parents(nodes))
  {
    ghost var p0, c0 := Parents(nodes), Children(nodes);
    n.parent := parent;
    forall m | m in nodes ensures Children(nodes)[m] == c0[m] && (m != n ==> Parents(nodes)[m] == p0[m]) {
    }
  }

  /** Every node's parent, as a value. */
  ghost function Parents(nodes: set<Node>): (p: map<Node, Node?>)
    reads nodes
    ensures p.Keys == nodes
  {
    map n | n in nodes :: n.parent
  }

  /** Every node's children, as a value. */
  ghost function Children(nodes: set<Node>): (c: map<Node, seq<Node>>)
    reads nodes
    ensures c.Keys == nodes
  {
    map n | n in nodes :: n.children
  }

  /**
   * The links agree: a node's parent lists it among its children, every child names the node as
   * its parent, and no child is listed twice.
   */
  ghost predicate LinkedIn(nodes: set<Node>, p: map<Node, Node?>, c: map<Node, seq<Node>>)
    requires p.Keys == nodes && c.Keys == nodes
  {
    forall n :: n in nodes ==>
      && (p[n] != null ==> p[n] in nodes && n in c[p[n]])
      && NoDuplicates(c[n])
      && forall i :: 0 <= i < |c[n]| ==> c[n][i] in nodes && p[c[n][i]] == n
  }

  ghost predicate Linked(nodes: set<Node>)
    reads nodes
  {
    LinkedIn(nodes, Parents(nodes), Children(nodes))
  }

  /** `reparent` on the links as values. */
  ghost function ReparentLinks(p: map<Node, Node?>, c: map<Node, seq<Node>>, node: Node, newParent: Node?)
    : (r: (map<Node, Node?>, map<Node, seq<Node>>))
    requires node in p && p.Keys == c.Keys && (newParent == null || newParent in c)
    ensures r.0.Keys == p.Keys && r.1.Keys == c.Keys
  {
    var oldParent := p[node];
    var removed := if oldParent != null && oldParent in c then c[oldParent := Without(c[oldParent], node)] else c;
    (p[node := newParent], if newParent != null then removed[newParent := removed[newParent] + [node]] else removed)
  }

  /** Reparenting a node of a linked set to a member of the set, or to none, keeps it linked. */
  lemma ReparentLinksLinked(nodes: set<Node>, p: map<Node, Node?>, c: map<Node, seq<Node>>, node: Node, newParent: Node?)
    requires p.Keys == nodes && c.Keys == nodes && node in nodes && (newParent == null || newParent in nodes)
    requires LinkedIn(nodes, p, c)
    ensures var r := ReparentLinks(p, c, node, newParent); LinkedIn(nodes, r.0, r.1)
  {
    var r := ReparentLinks(p, c, node, newParent);
    var p', c' := r.0, r.1;
    var oldParent := p[node];
    if oldParent != null {
      WithoutNoDuplicates(c[oldParent], node);
      assert NoDuplicates(Without(c[oldParent], node));
    }
    if newParent != null && newParent != oldParent {
      AppendNoDuplicates(c[newParent], node);
    }
    if newParent != null && newParent == oldParent {
      AppendNoDuplicates(Without(c[oldParent], node), node);
    }
    forall n | n in nodes
      ensures p'[n] != null ==> p'[n] in nodes && n in c'[p'[n]]
    {
      if n != node && p[n] != null && p[n] == oldParent {
        WithoutKeeps(c[oldParent], node, n);
      }
    }
    forall n | n in nodes
      ensures NoDuplicates(c'[n])
    {
    }
    forall n, i | n in nodes && 0 <= i < |c'[n]|
      ensures c'[n][i] in nodes && p'[c'[n][i]] == n
    {
      var child := c'[n][i];
      if child != node {
        assert child in c[n];
        var k :| 0 <= k < |c[n]| && c[n][k] == child;
      }
    }
  }

  /** A node with no links joins a linked set and keeps it linked. */
  lemma AddUnlinked(nodes: set<Node>, p: map<Node, Node?>, c: map<Node, seq<Node>>, node: Node)
    requires p.Keys == nodes && c.Keys == nodes && node !in nodes && LinkedIn(nodes, p, c)
    requires forall n :: n in nodes ==> node !in c[n]
    ensures LinkedIn(nodes + {node}, p[node := null], c[node := []])
  {
    var p', c' := p[node := null], c[node := []];
    forall n, i | n in nodes && 0 <= i < |c'[n]|
      ensures c'[n][i] in nodes + {node} && p'[c'[n][i]] == n
    {
      assert c'[n][i] in c[n];
    }
  }

  /** `Node::create`: a root with no parent, else the parent's last child (and not a root). */
  method Create(parent: Node?, graph: SceneGraph, ghost nodes: set<Node>) returns (node: Node)
    modifies graph, parent
    ensures fresh(node) && node.parent == parent && node.children == []
    ensures node.entity == old(graph.nextEntity) && graph.entities == old(graph.entities) + {node.entity}
    ensures parent == null ==> graph.roots == old(graph.roots) + {node}
    ensures parent != null ==> graph.roots == old(graph.roots) && parent.children == old(parent.children) + [node]
    ensures old(Linked(nodes)) && (parent == null || parent in nodes) ==> Linked(nodes + {node})
  {
    ghost var p0, c0 := Parents(nodes), Children(nodes);
    ghost var linked := Linked(nodes) && (parent == null || parent in nodes);
    var e := graph.CreateEntity();
    node := new Node(e);
    ghost var all := nodes + {node};
    assert Parents(nodes) == p0 && Children(nodes) == c0;
    LinksOfJoin(nodes, node);
    ghost var pa, ca := Parents(all), Children(all);
    assert pa == p0[node := null] && ca == c0[node := []];
    if linked {
      forall n | n in nodes ensures node !in c0[n] {
        assert c0[n] == old(n.children);
      }
      AddUnlinked(nodes, p0, c0, node);
    }
    if parent == null {
      graph.AddRoot(node);
      assert Parents(all) == pa && Children(all) == ca;
    } else {
      node.Reparent(parent, graph, all);
      if linked {
        ReparentLinksLinked(all, pa, ca, node, parent);
      }
    }
  }

  /** The links of a set with one more node are the set's links plus that node's. */
  lemma LinksOfJoin(nodes: set<Node>, node: Node)
    ensures Parents(nodes + {node}) == Parents(nodes)[node := node.parent]
    ensures Children(nodes + {node}) == Children(nodes)[node := node.children]
  {
  }
}
