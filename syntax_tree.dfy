/**
 * The parsed syntax tree that every extractor walks, and the traversal
 * every extractor shares: a pre-order walk that visits a node and then
 * every one of its children, whether or not the node itself matched.
 */
module SyntaxTree {
  import opened Wrappers

  /**
   * A tree-sitter node: its kind tag, its named fields (each field names one
   * of the node's own children, by position), its children in source order,
   * its byte range into the source and its zero-based start and end rows.
   */
  datatype Node = Node(
    kind: string,
    fields: map<string, nat>,
    children: seq<Node>,
    startByte: nat,
    endByte: nat,
    startRow: nat,
    endRow: nat)

  /** A parsed file; the extractors start every walk at `rootNode`. */
  datatype Tree = Tree(rootNode: Node)

  /** tree-sitter's `child_by_field_name`: the child a field names, if the node has that field. */
  function ChildByFieldName(n: Node, field: string): (r: Option<Node>)
    ensures r.Some? <==> field in n.fields && n.fields[field] < |n.children|
    ensures r.Some? ==> r.value in n.children
  {
    if field in n.fields && n.fields[field] < |n.children| then Some(n.children[n.fields[field]]) else None
  }

  /** The nodes of the tree under `n`, in the order a recursive walk visits them. */
  function PreOrder(n: Node): seq<Node>
    decreases n
  {
    [n] + PreOrderOf(n.children)
  }

  /** The pre-orders of `ns`, one after the other. */
  function PreOrderOf(ns: seq<Node>): seq<Node>
    decreases ns
  {
    if ns == [] then [] else PreOrder(ns[0]) + PreOrderOf(ns[1..])
  }

  /** What a walk appends when it applies `visit` to each of `ns` in turn. */
  function Collect<R>(ns: seq<Node>, visit: Node -> seq<R>): seq<R>
  {
    if ns == [] then [] else visit(ns[0]) + Collect(ns[1..], visit)
  }

  /** The nodes of `ns` that satisfy `p`, in their order. */
  function Select(ns: seq<Node>, p: Node -> bool): seq<Node>
  {
    if ns == [] then [] else (if p(ns[0]) then [ns[0]] else []) + Select(ns[1..], p)
  }

  /** `g` applied to each node of `ns`. */
  function MapNodes<R>(ns: seq<Node>, g: Node -> R): (r: seq<R>)
    ensures |r| == |ns|
  {
    if ns == [] then [] else [g(ns[0])] + MapNodes(ns[1..], g)
  }

  /** Every node of the tree ends on or after the row it starts on (tree-sitter guarantees it). */
  ghost predicate RowsOrdered(root: Node) {
    forall m :: m in PreOrder(root) ==> m.startRow <= m.endRow
  }

  lemma {:induction false} PreOrderOfAppend(xs: seq<Node>, ys: seq<Node>)
    ensures PreOrderOf(xs + ys) == PreOrderOf(xs) + PreOrderOf(ys)
    decreases xs
  {
    if xs == [] {
      assert xs + ys == ys;
    } else {
      var first: seq<Node> := PreOrder(xs[0]);
      assert (xs + ys)[0] == xs[0];
      assert (xs + ys)[1..] == xs[1..] + ys;
      assert PreOrderOf(xs + ys) == first + PreOrderOf(xs[1..] + ys);
      PreOrderOfAppend(xs[1..], ys);
      AppendAssoc(first, PreOrderOf(xs[1..]), PreOrderOf(ys));
    }
  }

  lemma {:induction false} CollectAppend<R>(xs: seq<Node>, ys: seq<Node>, visit: Node -> seq<R>)
    ensures Collect(xs + ys, visit) == Collect(xs, visit) + Collect(ys, visit)
  {
    if xs == [] {
      assert xs + ys == ys;
    } else {
      var first: seq<R> := visit(xs[0]);
      assert (xs + ys)[0] == xs[0];
      assert (xs + ys)[1..] == xs[1..] + ys;
      assert Collect(xs + ys, visit) == first + Collect(xs[1..] + ys, visit);
      CollectAppend(xs[1..], ys, visit);
      AppendAssoc(first, Collect(xs[1..], visit), Collect(ys, visit));
    }
  }

  lemma {:induction false} SelectAppend(xs: seq<Node>, ys: seq<Node>, p: Node -> bool)
    ensures Select(xs + ys, p) == Select(xs, p) + Select(ys, p)
  {
    if xs == [] {
      assert xs + ys == ys;
    } else {
      var first: seq<Node> := if p(xs[0]) then [xs[0]] else [];
      assert (xs + ys)[0] == xs[0];
      assert (xs + ys)[1..] == xs[1..] + ys;
      assert Select(xs + ys, p) == first + Select(xs[1..] + ys, p);
      SelectAppend(xs[1..], ys, p);
      AppendAssoc(first, Select(xs[1..], p), Select(ys, p));
    }
  }

  lemma {:induction false} MapNodesAppend<R>(xs: seq<Node>, ys: seq<Node>, g: Node -> R)
    ensures MapNodes(xs + ys, g) == MapNodes(xs, g) + MapNodes(ys, g)
  {
    if xs == [] {
      assert xs + ys == ys;
    } else {
      var first: seq<R> := [g(xs[0])];
      assert (xs + ys)[0] == xs[0];
      assert (xs + ys)[1..] == xs[1..] + ys;
      assert MapNodes(xs + ys, g) == first + MapNodes(xs[1..] + ys, g);
      MapNodesAppend(xs[1..], ys, g);
      AppendAssoc(first, MapNodes(xs[1..], g), MapNodes(ys, g));
    }
  }

  lemma AppendAssoc<R>(a: seq<R>, b: seq<R>, c: seq<R>)
    ensures (a + b) + c == a + (b + c)
  {
  }

  /**
   * One more turn of a walk's loop over `ns`: after what was there before,
   * the walk of `ns[i]` follows the walks of `ns[..i]`.
   */
  lemma WalkStep<R>(before: seq<R>, ns: seq<Node>, i: nat, visit: Node -> seq<R>)
    requires i < |ns|
    ensures before + Collect(PreOrderOf(ns[..i]), visit) + Collect(PreOrder(ns[i]), visit)
         == before + Collect(PreOrderOf(ns[..i + 1]), visit)
  {
    assert ns[..i + 1] == ns[..i] + [ns[i]];
    PreOrderOfAppend(ns[..i], [ns[i]]);
    assert [ns[i]][1..] == [];
    assert PreOrderOf([ns[i]]) == PreOrder(ns[i]);
    CollectAppend(PreOrderOf(ns[..i]), PreOrder(ns[i]), visit);
  }

  /** A walk of `n` is the visit of `n` followed by the walks of all its children. */
  lemma WalkDone<R>(before: seq<R>, n: Node, visit: Node -> seq<R>)
    ensures before + visit(n) + Collect(PreOrderOf(n.children[..|n.children|]), visit)
         == before + Collect(PreOrder(n), visit)
  {
    assert n.children[..|n.children|] == n.children;
    CollectAppend([n], PreOrderOf(n.children), visit);
    assert Collect([n], visit) == visit(n) + Collect([], visit);
  }

  /**
   * One more turn of a loop over `ns` that appends `g` of each node
   * satisfying `p` to what was there before.
   */
  lemma SelectStep<R>(before: seq<R>, ns: seq<Node>, i: nat, p: Node -> bool, g: Node -> R,
                      prev: seq<R>, next: seq<R>)
    requires i < |ns|
    requires prev == before + MapNodes(Select(ns[..i], p), g)
    requires next == if p(ns[i]) then prev + [g(ns[i])] else prev
    ensures next == before + MapNodes(Select(ns[..i + 1], p), g)
  {
    assert ns[..i + 1] == ns[..i] + [ns[i]];
    SelectAppend(ns[..i], [ns[i]], p);
    assert Select([ns[i]], p) == (if p(ns[i]) then [ns[i]] else []) + Select([], p);
    MapNodesAppend(Select(ns[..i], p), Select([ns[i]], p), g);
  }

  /** A walk appends something only for nodes whose visit yields it. */
  lemma {:induction false} CollectMember<R>(xs: seq<Node>, visit: Node -> seq<R>, x: R)
    ensures x in Collect(xs, visit) <==> exists i :: 0 <= i < |xs| && x in visit(xs[i])
  {
    if xs != [] {
      CollectMember(xs[1..], visit, x);
      if x in Collect(xs[1..], visit) {
        var i :| 0 <= i < |xs[1..]| && x in visit(xs[1..][i]);
        assert x in visit(xs[i + 1]);
      }
      if exists i :: 0 <= i < |xs| && x in visit(xs[i]) {
        var i :| 0 <= i < |xs| && x in visit(xs[i]);
        if i > 0 {
          assert x in visit(xs[1..][i - 1]);
        }
      }
    }
  }

  /** A walk over nodes none of which yields anything appends nothing. */
  lemma {:induction false} CollectNothing<R>(xs: seq<Node>, visit: Node -> seq<R>)
    requires forall i :: 0 <= i < |xs| ==> visit(xs[i]) == []
    ensures Collect(xs, visit) == []
  {
    if xs != [] {
      assert visit(xs[0]) == [];
      CollectNothing(xs[1..], visit);
    }
  }

  /**
   * When each visit yields one record for a node satisfying `p` and nothing
   * otherwise, the walk yields exactly the records of the matching nodes, in
   * their order.
   */
  lemma {:induction false} CollectSingletons<R>(xs: seq<Node>, visit: Node -> seq<R>, p: Node -> bool, g: Node -> R)
    requires forall m :: visit(m) == (if p(m) then [g(m)] else [])
    ensures Collect(xs, visit) == MapNodes(Select(xs, p), g)
  {
    if xs != [] {
      CollectSingletons(xs[1..], visit, p, g);
      var rest := Select(xs[1..], p);
      if p(xs[0]) {
        assert Select(xs, p) == [xs[0]] + rest;
        assert MapNodes([xs[0]] + rest, g) == [g(xs[0])] + MapNodes(rest, g);
      } else {
        assert Select(xs, p) == rest;
      }
    }
  }

  /** Membership in the records of the matching nodes. */
  lemma {:induction false} MapSelectMember<R>(xs: seq<Node>, p: Node -> bool, g: Node -> R, x: R)
    ensures x in MapNodes(Select(xs, p), g) <==> exists m :: m in xs && p(m) && x == g(m)
  {
    if xs != [] {
      MapSelectMember(xs[1..], p, g, x);
      var rest := Select(xs[1..], p);
      if p(xs[0]) {
        assert Select(xs, p) == [xs[0]] + rest;
        assert MapNodes([xs[0]] + rest, g) == [g(xs[0])] + MapNodes(rest, g);
      } else {
        assert Select(xs, p) == rest;
      }
      if exists m :: m in xs && p(m) && x == g(m) {
        var m :| m in xs && p(m) && x == g(m);
        if m != xs[0] {
          assert m in xs[1..];
        }
      }
    }
  }

  /** The first node of `Select(xs, p)` is the first node of `xs` that satisfies `p`. */
  lemma {:induction false} SelectFirst(xs: seq<Node>, p: Node -> bool, k: nat)
    requires k < |xs| && p(xs[k])
    requires forall j :: 0 <= j < k ==> !p(xs[j])
    ensures Select(xs, p) != [] && Select(xs, p)[0] == xs[k]
  {
    if k > 0 {
      SelectFirst(xs[1..], p, k - 1);
    }
  }

  /** No node of `xs` satisfies `p` exactly when nothing is selected. */
  lemma {:induction false} SelectEmpty(xs: seq<Node>, p: Node -> bool)
    ensures Select(xs, p) == [] <==> forall j :: 0 <= j < |xs| ==> !p(xs[j])
  {
    if xs != [] {
      SelectEmpty(xs[1..], p);
      if p(xs[0]) {
        assert Select(xs, p)[0] == xs[0];
      } else {
        forall j | 1 <= j < |xs| ensures xs[j] == xs[1..][j - 1] { }
      }
    }
  }

  /** `d` lies strictly below `m`: in the subtree of one of `m`'s children. */
  predicate Below(d: Node, m: Node) {
    d in PreOrderOf(m.children)
  }

  /** A node of the pre-order of `ns` lies in the pre-order of one of them, which sits whole in place. */
  lemma {:induction false} PreOrderOfMember(ns: seq<Node>, x: Node) returns (k: nat, pre: seq<Node>, post: seq<Node>)
    requires x in PreOrderOf(ns)
    ensures k < |ns| && x in PreOrder(ns[k])
    ensures PreOrderOf(ns) == pre + PreOrder(ns[k]) + post
  {
    assert PreOrderOf(ns) == PreOrder(ns[0]) + PreOrderOf(ns[1..]);
    if x in PreOrder(ns[0]) {
      k, pre, post := 0, [], PreOrderOf(ns[1..]);
    } else {
      var k', pre', post' := PreOrderOfMember(ns[1..], x);
      k, pre, post := k' + 1, PreOrder(ns[0]) + pre', post';
      assert ns[1..][k'] == ns[k];
    }
  }

  /**
   * The pre-order of any node of a tree is one contiguous stretch of the
   * tree's pre-order: a walk handles a subtree in one piece.
   */
  lemma {:induction false} SubtreeIsContiguous(root: Node, m: Node) returns (pre: seq<Node>, post: seq<Node>)
    requires m in PreOrder(root)
    ensures PreOrder(root) == pre + PreOrder(m) + post
    decreases root
  {
    if m == root {
      pre, post := [], [];
    } else {
      var k, pre1, post1 := PreOrderOfMember(root.children, m);
      var pre2, post2 := SubtreeIsContiguous(root.children[k], m);
      pre, post := [root] + pre1 + pre2, post2 + post1;
    }
  }

  /**
   * When a node of the tree yields record `a` and a node below it yields `b`,
   * the walk of the whole tree yields `a` before `b`: a nested declaration
   * gets its own record, after the enclosing one, at any depth.
   */
  lemma DescendantAfterAncestor<R>(root: Node, m: Node, d: Node, visit: Node -> seq<R>, a: R, b: R) returns (i: nat, j: nat)
    requires m in PreOrder(root) && Below(d, m)
    requires visit(m) == [a] && visit(d) == [b]
    ensures i < j < |Collect(PreOrder(root), visit)|
    ensures Collect(PreOrder(root), visit)[i] == a && Collect(PreOrder(root), visit)[j] == b
  {
    var pre, post := SubtreeIsContiguous(root, m);
    var inner := Collect(PreOrderOf(m.children), visit);
    CollectMember(PreOrderOf(m.children), visit, b);
    var j' :| 0 <= j' < |inner| && inner[j'] == b;
    CollectAppend(pre + PreOrder(m), post, visit);
    CollectAppend(pre, PreOrder(m), visit);
    CollectAppend([m], PreOrderOf(m.children), visit);
    assert Collect([m], visit) == visit(m) + Collect([], visit);
    var whole := Collect(PreOrder(root), visit);
    i, j := |Collect(pre, visit)|, |Collect(pre, visit)| + 1 + j';
    assert whole == Collect(pre, visit) + ([a] + inner) + Collect(post, visit);
    assert whole[i] == a;
    assert whole[j] == b;
  }
}
