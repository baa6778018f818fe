/**
 * Copying a YAML node graph, which may share nodes and, through aliases, contain
 * cycles.  The copy is fresh, and node for node the same graph.
 */
module YamlCopy {

  class YamlNode {
    var kind: nat
    var tag: string
    var value: string
    var alias: YamlNode?
    var content: seq<YamlNode?>

    /** A node with the same fields, as assigning a struct makes it. */
    constructor Same(from: YamlNode)
      ensures kind == from.kind && tag == from.tag && value == from.value && alias == from.alias && content == from.content
    {
      kind, tag, value, alias, content := from.kind, from.tag, from.value, from.alias, from.content;
    }
  }

  /** All that the nodes of the set refer to is in the set. */
  ghost predicate Closed(nodes: set<YamlNode>)
    reads nodes
  {
    forall n :: n in nodes ==>
      && (n.alias != null ==> n.alias in nodes)
      && (forall i :: 0 <= i < |n.content| && n.content[i] != null ==> n.content[i] in nodes)
  }

  ghost predicate Refers(to: YamlNode?, copy: YamlNode?, seen: map<YamlNode, YamlNode>) {
    if to == null then copy == null else to in seen && copy == seen[to]
  }

  /** The copy of `n` has its fields, referring to the copies of what `n` refers to. */
  ghost predicate Mirrors(n: YamlNode, copy: YamlNode, seen: map<YamlNode, YamlNode>)
    reads n, copy
  {
    && copy.kind == n.kind && copy.tag == n.tag && copy.value == n.value
    && Refers(n.alias, copy.alias, seen)
    && |copy.content| == |n.content|
    && forall i :: 0 <= i < |n.content| ==> Refers(n.content[i], copy.content[i], seen)
  }

  /** The copies made so far: one for each node, fresh ones, complete but for the nodes still being copied. */
  ghost predicate Copying(seen: map<YamlNode, YamlNode>, open: set<YamlNode>, nodes: set<YamlNode>)
    reads seen.Keys, seen.Values
  {
    && seen.Keys <= nodes && open <= seen.Keys && seen.Values !! nodes
    && (forall a, b :: a in seen && b in seen && a != b ==> seen[a] != seen[b])
    && (forall n :: n in seen && n !in open ==> Mirrors(n, seen[n], seen))
  }

  ghost predicate Extends(more: map<YamlNode, YamlNode>, seen: map<YamlNode, YamlNode>) {
    seen.Keys <= more.Keys && forall n :: n in seen ==> more[n] == seen[n]
  }

  method DeepCopySeen(n: YamlNode?, seen: map<YamlNode, YamlNode>, ghost open: set<YamlNode>, ghost nodes: set<YamlNode>)
      returns (copy: YamlNode?, more: map<YamlNode, YamlNode>)
    requires Closed(nodes) && (n != null ==> n in nodes) && Copying(seen, open, nodes)
    ensures Copying(more, open, nodes) && Extends(more, seen) && Refers(n, copy, more)
    ensures forall k :: k in more && k !in seen ==> fresh(more[k])
    decreases nodes - seen.Keys, 1
  {
    if n == null {
      return null, seen;
    }
    if n in seen {
      return seen[n], seen;
    }
    copy, more := CopyNode(n, seen, open, nodes);
  }

  /** Copies a node that has no copy yet, and what it refers to. */
  method CopyNode(n: YamlNode, seen: map<YamlNode, YamlNode>, ghost open: set<YamlNode>, ghost nodes: set<YamlNode>)
      returns (cp: YamlNode, more: map<YamlNode, YamlNode>)
    requires Closed(nodes) && n in nodes && n !in seen && Copying(seen, open, nodes)
    ensures Copying(more, open, nodes) && Extends(more, seen) && n in more && cp == more[n]
    ensures forall k :: k in more && k !in seen ==> fresh(more[k])
    decreases nodes - seen.Keys, 0
  {
    cp, more := Begin(n, seen, open, nodes);
    more := CopyFields(n, cp, more, open, nodes);
  }

  method CopyFields(n: YamlNode, cp: YamlNode, seen: map<YamlNode, YamlNode>, ghost open: set<YamlNode>, ghost nodes: set<YamlNode>)
      returns (more: map<YamlNode, YamlNode>)
    requires Closed(nodes) && n in nodes && n !in open && Copying(seen, open + {n}, nodes) && n in seen && seen[n] == cp
    requires cp.kind == n.kind && cp.tag == n.tag && cp.value == n.value && cp.alias == n.alias
    modifies cp
    ensures Copying(more, open, nodes) && Extends(more, seen)
    ensures forall k :: k in more && k !in seen ==> fresh(more[k])
    decreases nodes - seen.Keys, 3
  {
    more := seen;
    if n.alias != null {
      more := CopyAlias(n, n.alias, cp, more, open, nodes);
    }
    var done: seq<YamlNode?> := [];
    if |n.content| > 0 {
      done, more := CopyContent(n.content, more, open + {n}, nodes);
    }
    SetContent(n, cp, done, more, open, nodes);
  }

  /** A first copy of a node, entered before what it refers to is copied. */
  method Begin(n: YamlNode, seen: map<YamlNode, YamlNode>, ghost open: set<YamlNode>, ghost nodes: set<YamlNode>)
      returns (cp: YamlNode, more: map<YamlNode, YamlNode>)
    requires n in nodes && n !in seen && Copying(seen, open, nodes)
    ensures fresh(cp) && more == seen[n := cp] && Copying(more, open + {n}, nodes)
    ensures cp.kind == n.kind && cp.tag == n.tag && cp.value == n.value && cp.alias == n.alias
  {
    cp := new YamlNode.Same(n);
    more := seen[n := cp];
    forall m | m in more && m !in open + {n}
      ensures Mirrors(m, more[m], more)
    {
      assert Mirrors(m, seen[m], seen);
    }
  }

  method SetAlias(n: YamlNode, cp: YamlNode, target: YamlNode?, seen: map<YamlNode, YamlNode>, ghost open: set<YamlNode>, ghost nodes: set<YamlNode>)
    requires Copying(seen, open + {n}, nodes) && n in seen && seen[n] == cp
    modifies cp`alias
    ensures Copying(seen, open + {n}, nodes) && cp.alias == target
  {
    cp.alias := target;
  }

  method CopyAlias(n: YamlNode, to: YamlNode, cp: YamlNode, seen: map<YamlNode, YamlNode>, ghost open: set<YamlNode>, ghost nodes: set<YamlNode>)
      returns (more: map<YamlNode, YamlNode>)
    requires Closed(nodes) && to in nodes && Copying(seen, open + {n}, nodes) && n in seen && seen[n] == cp
    modifies cp`alias
    ensures Copying(more, open + {n}, nodes) && Extends(more, seen) && Refers(to, cp.alias, more)
    ensures forall k :: k in more && k !in seen ==> fresh(more[k])
    decreases nodes - seen.Keys, 2
  {
    var target;
    target, more := DeepCopySeen(to, seen, open + {n}, nodes);
    SetAlias(n, cp, target, more, open, nodes);
  }

  /** Completes the copy of a node. */
  method SetContent(n: YamlNode, cp: YamlNode, done: seq<YamlNode?>, seen: map<YamlNode, YamlNode>, ghost open: set<YamlNode>, ghost nodes: set<YamlNode>)
    requires Copying(seen, open + {n}, nodes) && n in seen && seen[n] == cp && n !in open
    requires cp.kind == n.kind && cp.tag == n.tag && cp.value == n.value && Refers(n.alias, cp.alias, seen)
    requires |done| == |n.content| && forall i :: 0 <= i < |done| ==> Refers(n.content[i], done[i], seen)
    modifies cp`content
    ensures Copying(seen, open, nodes)
  {
    cp.content := done;
  }

  method CopyContent(content: seq<YamlNode?>, seen: map<YamlNode, YamlNode>, ghost open: set<YamlNode>, ghost nodes: set<YamlNode>)
      returns (done: seq<YamlNode?>, more: map<YamlNode, YamlNode>)
    requires Closed(nodes) && Copying(seen, open, nodes)
    requires forall i :: 0 <= i < |content| && content[i] != null ==> content[i] in nodes
    ensures Copying(more, open, nodes) && Extends(more, seen)
    ensures |done| == |content| && forall i :: 0 <= i < |content| ==> Refers(content[i], done[i], more)
    ensures forall k :: k in more && k !in seen ==> fresh(more[k])
    decreases nodes - seen.Keys, 2
  {
    done, more := [], seen;
    for i := 0 to |content|
      invariant |done| == i && Copying(more, open, nodes) && Extends(more, seen)
      invariant forall j :: 0 <= j < i ==> Refers(content[j], done[j], more)
      invariant forall k :: k in more && k !in seen ==> fresh(more[k])
    {
      var child;
      child, more := DeepCopySeen(content[i], more, open, nodes);
      done := done + [child];
    }
  }

  /** What must be in every closed set that has the node. */
  ghost function Reachable(n: YamlNode, nodes: set<YamlNode>): set<YamlNode>
    reads nodes
  {
    set m | m in nodes && forall c: set<YamlNode> :: c <= nodes && n in c && Closed(c) ==> m in c
  }

  lemma ReachableClosed(n: YamlNode, nodes: set<YamlNode>)
    requires n in nodes && Closed(nodes)
    ensures n in Reachable(n, nodes) && Closed(Reachable(n, nodes)) && Reachable(n, nodes) <= nodes
  {
    var r := Reachable(n, nodes);
    forall m | m in r
      ensures m.alias != null ==> m.alias in r
      ensures forall i :: 0 <= i < |m.content| && m.content[i] != null ==> m.content[i] in r
    {
      forall c: set<YamlNode> | c <= nodes && n in c && Closed(c)
        ensures m.alias != null ==> m.alias in c
        ensures forall i :: 0 <= i < |m.content| && m.content[i] != null ==> m.content[i] in c
      {
        assert m in c;
      }
    }
  }

  /** The copies of a whole graph: one for each of its nodes, sharing as they share. */
  ghost predicate Isomorphic(n: YamlNode, copy: YamlNode, copies: map<YamlNode, YamlNode>)
    reads copies.Keys, copies.Values
  {
    && n in copies && copies[n] == copy
    && (forall a, b :: a in copies && b in copies && a != b ==> copies[a] != copies[b])
    && (forall m :: m in copies ==> Mirrors(m, copies[m], copies))
  }

  /**
   * Any graph is copied in full: what can be reached from the node, and nothing
   * else, has a fresh copy each, and the copies refer to one another as the nodes do.
   * `nodes` is any set that the graph lies in.
   */
  method DeepCopy(n: YamlNode?, ghost nodes: set<YamlNode>) returns (copy: YamlNode?, ghost copies: map<YamlNode, YamlNode>)
    requires Closed(nodes) && (n != null ==> n in nodes)
    ensures n == null ==> copy == null && copies == map[]
    ensures n != null ==> copy != null && Isomorphic(n, copy, copies) && copies.Keys == Reachable(n, nodes)
    ensures forall m :: m in copies ==> fresh(copies[m])
  {
    if n == null {
      return null, map[];
    }
    ghost var reached := Reachable(n, nodes);
    ReachableClosed(n, nodes);
    var made;
    copy, made := DeepCopySeen(n, map[], {}, reached);
    copies := made;
    CopiesClosed(made, reached);
    assert made.Keys <= nodes && n in made.Keys && Closed(made.Keys);
  }

  lemma CopiesClosed(copies: map<YamlNode, YamlNode>, nodes: set<YamlNode>)
    requires Copying(copies, {}, nodes)
    ensures Closed(copies.Keys)
  {
    forall n | n in copies
      ensures n.alias != null ==> n.alias in copies
      ensures forall i :: 0 <= i < |n.content| && n.content[i] != null ==> n.content[i] in copies
    {
      assert Mirrors(n, copies[n], copies);
    }
  }
}
