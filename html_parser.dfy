/**
 * The parsed HTML document of internal/proxy: a tree of nodes (the shape of
 * golang.org/x/net/html.Node), the pre-order walk WalkNodes performs, and the
 * FindNode search built on it. A node is addressed by its path, the child
 * indices from the root; the walk is the sequence of paths it visits.
 */
module HtmlParser {
  import opened Common

  datatype NodeType = ErrorNode | TextNode | DocumentNode | ElementNode | CommentNode | DoctypeNode | RawNode

  datatype Attr = Attr(key: string, val: string)

  datatype Node = Node(ntype: NodeType, data: string, attrs: seq<Attr>, children: seq<Node>)

  type Path = seq<nat>

  predicate ValidPath(n: Node, p: Path)
    decreases |p|
  {
    |p| == 0 || (p[0] < |n.children| && ValidPath(n.children[p[0]], p[1..]))
  }

  function At(n: Node, p: Path): Node
    requires ValidPath(n, p)
    decreases |p|
  {
    if |p| == 0 then n else At(n.children[p[0]], p[1..])
  }

  /** Document order of two paths: an ancestor first, then earlier siblings' subtrees. */
  predicate Before(p: Path, q: Path)
    decreases |p|
  {
    if |p| == 0 then |q| > 0
    else |q| > 0 && (p[0] < q[0] || (p[0] == q[0] && Before(p[1..], q[1..])))
  }

  predicate Ordered(ws: seq<Path>) {
    forall a, b :: 0 <= a < b < |ws| ==> Before(ws[a], ws[b])
  }

  predicate AllValid(n: Node, ws: seq<Path>) {
    forall k :: 0 <= k < |ws| ==> ValidPath(n, ws[k])
  }

  function Prefixed(i: nat, ps: seq<Path>): (r: seq<Path>)
    ensures |r| == |ps| && forall k :: 0 <= k < |ps| ==> r[k] == [i] + ps[k]
  {
    seq(|ps|, k requires 0 <= k < |ps| => [i] + ps[k])
  }

  /** The paths WalkNodes(n, fn) hands to fn, in call order. */
  function Walk(n: Node): seq<Path>
    decreases n, |n.children| + 1
  {
    [[]] + WalkFrom(n, 0)
  }

  /** The walks of the children of `n` from index `i` on, one after another. */
  function WalkFrom(n: Node, i: nat): seq<Path>
    requires i <= |n.children|
    decreases n, |n.children| - i
  {
    if i == |n.children| then [] else Prefixed(i, Walk(n.children[i])) + WalkFrom(n, i + 1)
  }

  lemma {:induction false} BeforeUnderPrefix(i: nat, p: Path, q: Path)
    requires Before(p, q)
    ensures Before([i] + p, [i] + q)
  {
    assert ([i] + p)[1..] == p && ([i] + q)[1..] == q;
  }

  lemma {:induction false} BeforeIrreflexive(p: Path)
    ensures !Before(p, p)
    decreases |p|
  {
    if |p| > 0 { BeforeIrreflexive(p[1..]); }
  }

  /** Every visited path exists, and the walk lists them in strict document order. */
  lemma {:induction false} WalkShape(n: Node)
    ensures AllValid(n, Walk(n)) && Ordered(Walk(n))
    decreases n, |n.children| + 1
  {
    WalkFromShape(n, 0);
    var rest := WalkFrom(n, 0);
    assert Walk(n) == [[]] + rest;
    forall a, b | 0 <= a < b < |Walk(n)| ensures Before(Walk(n)[a], Walk(n)[b]) {
      if a > 0 { assert Walk(n)[a] == rest[a - 1]; }
      assert Walk(n)[b] == rest[b - 1];
    }
  }

  lemma {:induction false} WalkFromShape(n: Node, i: nat)
    requires i <= |n.children|
    ensures AllValid(n, WalkFrom(n, i)) && Ordered(WalkFrom(n, i))
    ensures forall k :: 0 <= k < |WalkFrom(n, i)| ==> |WalkFrom(n, i)[k]| > 0 && WalkFrom(n, i)[k][0] >= i
    decreases n, |n.children| - i
  {
    if i < |n.children| {
      var c := n.children[i];
      WalkShape(c);
      WalkFromShape(n, i + 1);
      var head := Prefixed(i, Walk(c));
      var tail := WalkFrom(n, i + 1);
      var ws := WalkFrom(n, i);
      assert ws == head + tail;
      forall k | 0 <= k < |head| ensures ValidPath(n, head[k]) && |head[k]| > 0 && head[k][0] == i {
        assert head[k][1..] == Walk(c)[k];
      }
      forall a, b | 0 <= a < b < |ws| ensures Before(ws[a], ws[b]) {
        if b < |head| {
          BeforeUnderPrefix(i, Walk(c)[a], Walk(c)[b]);
        } else if a >= |head| {
          assert ws[a] == tail[a - |head|] && ws[b] == tail[b - |head|];
        } else {
          assert ws[b] == tail[b - |head|];
        }
      }
    }
  }

  lemma {:induction false} InWalkFrom(n: Node, j: nat, i: nat, q: Path)
    requires j <= i < |n.children| && q in Walk(n.children[i])
    ensures [i] + q in WalkFrom(n, j)
    decreases i - j
  {
    if j < i {
      InWalkFrom(n, j + 1, i, q);
    } else {
      var k :| 0 <= k < |Walk(n.children[i])| && Walk(n.children[i])[k] == q;
      assert Prefixed(i, Walk(n.children[i]))[k] == [i] + q;
    }
  }

  /** The walk reaches every node of the tree. */
  lemma {:induction false} WalkComplete(n: Node, p: Path)
    requires ValidPath(n, p)
    ensures p in Walk(n)
    decreases |p|
  {
    if |p| == 0 {
      assert Walk(n)[0] == p;
    } else {
      WalkComplete(n.children[p[0]], p[1..]);
      InWalkFrom(n, 0, p[0], p[1..]);
      assert p == [p[0]] + p[1..];
    }
  }

  /**
   * The walk is exactly the nodes of the tree in pre-order: the root first,
   * every node before its descendants, earlier siblings' subtrees before later
   * ones, each node once.
   */
  lemma WalkIsPreOrder(n: Node)
    ensures |Walk(n)| > 0 && Walk(n)[0] == []
    ensures forall p :: ValidPath(n, p) <==> p in Walk(n)
    ensures forall a, b :: 0 <= a < b < |Walk(n)| ==> Before(Walk(n)[a], Walk(n)[b]) && Walk(n)[a] != Walk(n)[b]
  {
    WalkShape(n);
    forall p | ValidPath(n, p) ensures p in Walk(n) { WalkComplete(n, p); }
    forall a, b | 0 <= a < b < |Walk(n)| ensures Walk(n)[a] != Walk(n)[b] {
      BeforeIrreflexive(Walk(n)[a]);
    }
  }

  /**
   * WalkNodes: call fn on the node, then walk each child from FirstChild along
   * NextSibling. The calls fn receives are recorded as the returned paths.
   */
  method WalkNodes(n: Node) returns (visited: seq<Path>)
    ensures visited == Walk(n)
    decreases n, 1
  {
    visited := [[]];
    var i := 0;
    while i < |n.children|
      invariant 0 <= i <= |n.children|
      invariant visited + WalkFrom(n, i) == Walk(n)
    {
      var sub := WalkNodes(n.children[i]);
      visited := visited + Prefixed(i, sub);
      i := i + 1;
    }
  }

  predicate Matches(n: Node, tagName: string) {
    n.ntype == ElementNode && n.data == tagName
  }

  /** The first of the visited paths whose node is a `tagName` element. */
  function FirstIn(doc: Node, ws: seq<Path>, tagName: string): (r: Option<Path>)
    requires AllValid(doc, ws)
    ensures r.Some? ==> r.value in ws && Matches(At(doc, r.value), tagName)
  {
    if |ws| == 0 then None
    else
      var earlier := FirstIn(doc, ws[..|ws| - 1], tagName);
      if earlier.Some? then earlier
      else if Matches(At(doc, ws[|ws| - 1]), tagName) then Some(ws[|ws| - 1])
      else None
  }

  lemma {:induction false} FirstInSpec(doc: Node, ws: seq<Path>, tagName: string)
    requires AllValid(doc, ws)
    ensures FirstIn(doc, ws, tagName).None? <==> forall k :: 0 <= k < |ws| ==> !Matches(At(doc, ws[k]), tagName)
    ensures FirstIn(doc, ws, tagName).Some? ==>
      exists k :: 0 <= k < |ws| && ws[k] == FirstIn(doc, ws, tagName).value
        && Matches(At(doc, ws[k]), tagName) && forall j :: 0 <= j < k ==> !Matches(At(doc, ws[j]), tagName)
  {
    if |ws| > 0 {
      var init := ws[..|ws| - 1];
      FirstInSpec(doc, init, tagName);
      assert forall k :: 0 <= k < |init| ==> init[k] == ws[k];
    }
  }

  /** What FindNode returns: the first `tagName` element in document order. */
  function FirstMatch(doc: Node, tagName: string): (r: Option<Path>)
    ensures r.Some? ==> ValidPath(doc, r.value) && Matches(At(doc, r.value), tagName)
  {
    WalkShape(doc);
    FirstIn(doc, Walk(doc), tagName)
  }

  /**
   * FindNode(doc, tagName): walk the document, remember the first element
   * whose tag is `tagName` and keep it however many more match.
   */
  method FindNode(doc: Node, tagName: string) returns (result: Option<Path>)
    ensures result == FirstMatch(doc, tagName)
    ensures result.Some? ==> ValidPath(doc, result.value) && Matches(At(doc, result.value), tagName)
  {
    var visited := WalkNodes(doc);
    WalkShape(doc);
    result := None;
    var k := 0;
    while k < |visited|
      invariant 0 <= k <= |visited|
      invariant result == FirstIn(doc, visited[..k], tagName)
    {
      assert visited[..k + 1][..k] == visited[..k];
      var node := At(doc, visited[k]);
      if result == None && node.ntype == ElementNode && node.data == tagName {
        result := Some(visited[k]);
      }
      k := k + 1;
    }
    assert visited[..k] == visited;
    FirstInSpec(doc, visited, tagName);
  }

  /**
   * FindNode's answer is a `tagName` element that precedes, in document order,
   * every other `tagName` element; there is no answer exactly when the tree
   * holds no such element.
   */
  lemma FirstMatchSpec(doc: Node, tagName: string)
    ensures FirstMatch(doc, tagName).None? <==> forall q :: ValidPath(doc, q) ==> !Matches(At(doc, q), tagName)
    ensures FirstMatch(doc, tagName).Some? ==>
      var p := FirstMatch(doc, tagName).value;
      ValidPath(doc, p) && Matches(At(doc, p), tagName)
      && forall q :: ValidPath(doc, q) && Matches(At(doc, q), tagName) && q != p ==> Before(p, q)
  {
    var ws := Walk(doc);
    WalkIsPreOrder(doc);
    FirstInSpec(doc, ws, tagName);
    if FirstMatch(doc, tagName).None? {
      forall q | ValidPath(doc, q) ensures !Matches(At(doc, q), tagName) {
        var j :| 0 <= j < |ws| && ws[j] == q;
      }
    } else {
      var p := FirstMatch(doc, tagName).value;
      var k :| 0 <= k < |ws| && ws[k] == p && Matches(At(doc, ws[k]), tagName)
        && forall j :: 0 <= j < k ==> !Matches(At(doc, ws[j]), tagName);
      forall q | ValidPath(doc, q) && Matches(At(doc, q), tagName) && q != p ensures Before(p, q) {
        var j :| 0 <= j < |ws| && ws[j] == q;
      }
    }
  }

  /** Any `tagName` element in the tree means FindNode finds one, this one or an earlier one. */
  lemma FirstMatchFinds(doc: Node, tagName: string, q: Path)
    requires ValidPath(doc, q) && Matches(At(doc, q), tagName)
    ensures FirstMatch(doc, tagName).Some?
    ensures FirstMatch(doc, tagName).value == q || Before(FirstMatch(doc, tagName).value, q)
  {
    var ws := Walk(doc);
    WalkIsPreOrder(doc);
    var k :| 0 <= k < |ws| && ws[k] == q;
    FirstInSpec(doc, ws, tagName);
    assert Matches(At(doc, ws[k]), tagName);
    assert FirstIn(doc, ws, tagName).Some?;
    var p := FirstIn(doc, ws, tagName).value;
    var i :| 0 <= i < |ws| && ws[i] == p && Matches(At(doc, ws[i]), tagName)
      && forall j :: 0 <= j < i ==> !Matches(At(doc, ws[j]), tagName);
    assert i <= k;
  }

  /** A document whose root is itself a `tagName` element is its own answer. */
  lemma {:induction false} FirstMatchAtRoot(doc: Node, tagName: string)
    requires Matches(doc, tagName)
    ensures FirstMatch(doc, tagName) == Some([])
  {
    WalkIsPreOrder(doc);
    FirstInSpec(doc, Walk(doc), tagName);
  }

  // ---------------------------------------------------------------------
  // Appending children (html.Node.AppendChild)

  /** Appends `extra` after the existing children of the node at `p`. */
  function AppendAt(n: Node, p: Path, extra: seq<Node>): Node
    requires ValidPath(n, p)
    decreases |p|
  {
    if |p| == 0 then n.(children := n.children + extra)
    else n.(children := n.children[p[0] := AppendAt(n.children[p[0]], p[1..], extra)])
  }

  /**
   * `r` holds every node of `n` at the same place with the same type, tag and
   * attributes, and each node's old children as a prefix of its new ones.
   */
  predicate Extends(n: Node, r: Node)
    decreases n
  {
    n.ntype == r.ntype && n.data == r.data && n.attrs == r.attrs
    && |n.children| <= |r.children|
    && forall i :: 0 <= i < |n.children| ==> Extends(n.children[i], r.children[i])
  }

  lemma {:induction false} ExtendsRefl(n: Node)
    ensures Extends(n, n)
    decreases n
  {
    forall i | 0 <= i < |n.children| ensures Extends(n.children[i], n.children[i]) {
      ExtendsRefl(n.children[i]);
    }
  }

  /** AppendAt adds `extra` at the end of one child list and changes nothing else. */
  lemma {:induction false} AppendAtSpec(n: Node, p: Path, extra: seq<Node>)
    requires ValidPath(n, p)
    ensures ValidPath(AppendAt(n, p, extra), p)
    ensures At(AppendAt(n, p, extra), p) == At(n, p).(children := At(n, p).children + extra)
    ensures Extends(n, AppendAt(n, p, extra))
    decreases |p|
  {
    var r := AppendAt(n, p, extra);
    if |p| == 0 {
      forall i | 0 <= i < |n.children| ensures Extends(n.children[i], r.children[i]) {
        ExtendsRefl(n.children[i]);
      }
    } else {
      AppendAtSpec(n.children[p[0]], p[1..], extra);
      forall i | 0 <= i < |n.children| ensures Extends(n.children[i], r.children[i]) {
        if i != p[0] { ExtendsRefl(n.children[i]); }
      }
    }
  }
}
