/** The tree helpers shared by the three self-referencing models (test cases, test-data nodes
    and trade templates): full_path walks up the parent links joining names with '/', and
    get_all_children lists every node below a node in preorder. A node is addressed by its
    route from the root, the positions of the children taken on the way down, so the parent
    of the node at a route is the node at the route without its last step. The test-data
    model's update_record_count is modelled here too. */
module TreeNodes {
  import opened Wrappers
  import opened Strings

  /** A tree node: its name and its children in list order. */
  datatype Node = Node(name: string, children: seq<Node>)

  // ---------------------------------------------------------------------------------------
  // Routes.

  /** The node reached from root by following route, from the root down; None where a step
      names a child that does not exist. */
  function Walk(root: Node, route: seq<nat>): Option<Node>
    decreases |route|
  {
    if route == [] then Some(root)
    else match Walk(root, route[..|route| - 1])
      case Some(parent) =>
        if route[|route| - 1] < |parent.children| then Some(parent.children[route[|route| - 1]])
        else None
      case None => None
  }

  /** Whether each step of route picks an existing child. */
  predicate ValidRoute(root: Node, route: seq<nat>) {
    Walk(root, route).Some?
  }

  /** The node at a valid route. */
  function At(root: Node, route: seq<nat>): Node
    requires ValidRoute(root, route)
  {
    Walk(root, route).value
  }

  /** Every prefix of a valid route is valid. */
  lemma {:induction false} RoutePrefixValid(root: Node, route: seq<nat>, k: nat)
    requires ValidRoute(root, route) && k <= |route|
    ensures ValidRoute(root, route[..k])
    decreases |route|
  {
    if k < |route| {
      var up := route[..|route| - 1];
      RoutePrefixValid(root, up, k);
      assert up[..k] == route[..k];
    } else {
      assert route[..k] == route;
    }
  }

  /** A route that starts with child k is that child's route followed by the rest. */
  lemma {:induction false} RouteFront(root: Node, k: nat, rest: seq<nat>)
    requires k < |root.children|
    ensures Walk(root, [k] + rest) == Walk(root.children[k], rest)
    decreases |rest|
  {
    var route := [k] + rest;
    if rest == [] {
      assert route[..0] == [];
      assert Walk(root, route[..0]) == Some(root);
    } else {
      var n := |rest| - 1;
      assert route[..|route| - 1] == [k] + rest[..n];
      assert route[|route| - 1] == rest[n];
      RouteFront(root, k, rest[..n]);
    }
  }

  // ---------------------------------------------------------------------------------------
  // full_path

  /** The full_path property of the node at route: the root's name, and below it the parent's
      full path, a '/' and the node's own name. */
  function FullPath(root: Node, route: seq<nat>): (path: string)
    requires ValidRoute(root, route)
    ensures EndsWith(path, At(root, route).name)
    decreases |route|
  {
    var name := At(root, route).name;
    if route == [] then name
    else
      var up := FullPath(root, route[..|route| - 1]) + "/";
      assert (up + name)[|up + name| - |name|..] == name;
      up + name
  }

  /** The names of the nodes along route, the root's first and the addressed node's last. */
  function NamesAlong(root: Node, route: seq<nat>): (names: seq<string>)
    requires ValidRoute(root, route)
    ensures |names| == |route| + 1
  {
    seq(|route| + 1, i requires 0 <= i <= |route| =>
      RoutePrefixValid(root, route, i); At(root, route[..i]).name)
  }

  /** The full path is the names along the route joined by '/'. */
  lemma {:induction false} FullPathJoinsNames(root: Node, route: seq<nat>)
    requires ValidRoute(root, route)
    ensures FullPath(root, route) == Join(NamesAlong(root, route), "/")
    decreases |route|
  {
    var names := NamesAlong(root, route);
    if route == [] {
      assert route[..0] == route;
    } else {
      var up := route[..|route| - 1];
      FullPathJoinsNames(root, up);
      var upNames := NamesAlong(root, up);
      assert names == upNames + [names[|route|]] by {
        forall i | 0 <= i < |route| ensures names[i] == upNames[i] {
          assert up[..i] == route[..i];
        }
      }
      assert route[..|route|] == route;
      JoinSnoc(upNames, names[|route|], "/");
    }
  }

  /** Every ancestor's full path, followed by '/', is a prefix of the node's full path. */
  lemma {:induction false} AncestorPathIsPrefix(root: Node, route: seq<nat>, k: nat)
    requires ValidRoute(root, route) && k < |route|
    ensures ValidRoute(root, route[..k])
            && StartsWith(FullPath(root, route), FullPath(root, route[..k]) + "/")
    decreases |route|
  {
    RoutePrefixValid(root, route, k);
    var up := route[..|route| - 1];
    var path := FullPath(root, route);
    var upPath := FullPath(root, up);
    assert path == upPath + "/" + At(root, route).name;
    if k < |up| {
      AncestorPathIsPrefix(root, up, k);
      assert up[..k] == route[..k];
      var prefix := FullPath(root, route[..k]) + "/";
      assert upPath[..|prefix|] == prefix;
      assert path[..|prefix|] == upPath[..|prefix|];
    } else {
      assert path[..|upPath + "/"|] == upPath + "/";
    }
  }

  /** Where no name holds a '/', the path has one '/' per step of the route. */
  lemma {:induction false} PathDepth(root: Node, route: seq<nat>)
    requires ValidRoute(root, route)
    requires forall i :: 0 <= i <= |route| ==> '/' !in NamesAlong(root, route)[i]
    ensures Count(FullPath(root, route), '/') == |route|
    decreases |route|
  {
    var names := NamesAlong(root, route);
    var name := At(root, route).name;
    assert names[|route|] == name by {
      assert route[..|route|] == route;
    }
    CountAbsent(name, '/');
    if route != [] {
      var up := route[..|route| - 1];
      forall i | 0 <= i <= |up| ensures '/' !in NamesAlong(root, up)[i] {
        assert up[..i] == route[..i];
        assert NamesAlong(root, up)[i] == names[i];
      }
      PathDepth(root, up);
      var upPath := FullPath(root, up);
      CountConcat(upPath, "/", '/');
      CountConcat(upPath + "/", name, '/');
    }
  }

  // ---------------------------------------------------------------------------------------
  // get_all_children

  /** What get_all_children returns: each child, in list order, followed by its own
      descendants. */
  function Descendants(n: Node): (r: seq<Node>)
    ensures n.children == [] ==> r == []
    decreases n, 1
  {
    DescendantsBefore(n, |n.children|)
  }

  /** The list after the loop has handled the first k children. */
  function DescendantsBefore(n: Node, k: nat): seq<Node>
    requires k <= |n.children|
    decreases n, 0, k
  {
    if k == 0 then []
    else
      var child := n.children[k - 1];
      DescendantsBefore(n, k - 1) + [child] + Descendants(child)
  }

  method GetAllChildren(node: Node) returns (result: seq<Node>)
    ensures result == Descendants(node)
    decreases node
  {
    result := [];
    var i := 0;
    while i < |node.children|
      invariant 0 <= i <= |node.children|
      invariant result == DescendantsBefore(node, i)
    {
      var child := node.children[i];
      result := result + [child];
      var below := GetAllChildren(child);
      result := result + below;
      i := i + 1;
    }
  }

  /** The number of nodes in the tree below and including n. */
  function Size(n: Node): (s: nat)
    ensures s >= 1
    decreases n, 1
  {
    1 + SizeBefore(n, |n.children|)
  }

  /** The sizes of the first k children of n, added up. */
  function SizeBefore(n: Node, k: nat): nat
    requires k <= |n.children|
    decreases n, 0, k
  {
    if k == 0 then 0 else SizeBefore(n, k - 1) + Size(n.children[k - 1])
  }

  /** get_all_children leaves out the node itself and nothing else of its subtree. */
  lemma {:induction false} DescendantCount(n: Node)
    ensures |Descendants(n)| == Size(n) - 1
    decreases n, 1
  {
    DescendantCountBefore(n, |n.children|);
  }

  lemma {:induction false} DescendantCountBefore(n: Node, k: nat)
    requires k <= |n.children|
    ensures |DescendantsBefore(n, k)| == SizeBefore(n, k)
    decreases n, 0, k
  {
    if k > 0 {
      DescendantCountBefore(n, k - 1);
      DescendantCount(n.children[k - 1]);
    }
  }

  /** The list built so far is a prefix of the final list. */
  lemma {:induction false} DescendantsBeforeIsPrefix(n: Node, k: nat, m: nat)
    requires k <= m <= |n.children|
    ensures DescendantsBefore(n, k) <= DescendantsBefore(n, m)
    decreases m
  {
    if k < m {
      DescendantsBeforeIsPrefix(n, k, m - 1);
    }
  }

  /** Preorder: child k sits right after the blocks of the children before it, and its own
      descendants follow it immediately. */
  lemma PreorderBlock(n: Node, k: nat)
    requires k < |n.children|
    ensures var at := |DescendantsBefore(n, k)|;
      var below := Descendants(n.children[k]);
      at + 1 + |below| <= |Descendants(n)|
      && Descendants(n)[at] == n.children[k]
      && Descendants(n)[at + 1..at + 1 + |below|] == below
  {
    DescendantsBeforeIsPrefix(n, k + 1, |n.children|);
    var block := DescendantsBefore(n, k + 1);
    var at := |DescendantsBefore(n, k)|;
    var below := Descendants(n.children[k]);
    assert block[at] == n.children[k];
    assert block[at + 1..] == below;
  }

  /** The list holds exactly the nodes reached by a non-empty route from n. */
  lemma DescendantsAreReachable(n: Node, x: Node)
    ensures x in Descendants(n)
            <==> exists route :: |route| >= 1 && ValidRoute(n, route) && At(n, route) == x
  {
    if x in Descendants(n) {
      var route := RouteToListed(n, |n.children|, x);
    }
    if exists route :: |route| >= 1 && ValidRoute(n, route) && At(n, route) == x {
      var route :| |route| >= 1 && ValidRoute(n, route) && At(n, route) == x;
      ReachedIsListed(n, route);
    }
  }

  /** A node in the list after k children lies at a route through one of those children. */
  lemma {:induction false} RouteToListed(n: Node, k: nat, x: Node) returns (route: seq<nat>)
    requires k <= |n.children| && x in DescendantsBefore(n, k)
    ensures |route| >= 1 && route[0] < k && ValidRoute(n, route) && At(n, route) == x
    decreases n, k
  {
    var c := n.children[k - 1];
    if x in DescendantsBefore(n, k - 1) {
      route := RouteToListed(n, k - 1, x);
    } else if x == c {
      route := [k - 1];
      RouteFront(n, k - 1, []);
      assert route == [k - 1] + [];
    } else {
      var rest := RouteToListed(c, |c.children|, x);
      RouteFront(n, k - 1, rest);
      route := [k - 1] + rest;
    }
  }

  /** The node at a non-empty route is in the list, within the block of the route's first
      child. */
  lemma {:induction false} ReachedIsListed(n: Node, route: seq<nat>)
    requires |route| >= 1 && ValidRoute(n, route)
    ensures route[0] < |n.children|
    ensures At(n, route) in Descendants(n)
    decreases |route|
  {
    FirstStepIsChild(n, route);
    var k := route[0];
    var c := n.children[k];
    var rest := route[1..];
    assert route == [k] + rest;
    RouteFront(n, k, rest);
    var block := DescendantsBefore(n, k + 1);
    if rest != [] {
      ReachedIsListed(c, rest);
    }
    assert At(n, route) in block;
    DescendantsBeforeIsPrefix(n, k + 1, |n.children|);
    var i :| 0 <= i < |block| && block[i] == At(n, route);
    assert Descendants(n)[i] == block[i];
  }

  /** The first step of a valid route names one of the root's children. */
  lemma FirstStepIsChild(n: Node, route: seq<nat>)
    requires |route| >= 1 && ValidRoute(n, route)
    ensures route[0] < |n.children|
  {
    RoutePrefixValid(n, route, 1);
    var first := route[..1];
    assert first[..0] == [];
    assert Walk(n, first[..0]) == Some(n);
  }

  // ---------------------------------------------------------------------------------------
  // update_record_count

  /** A JSON value as the data_content column holds it. */
  datatype Json =
    | JsonNull
    | JsonBool(b: bool)
    | JsonNumber(n: int)
    | JsonString(s: string)
    | JsonList(items: seq<Json>)
    | JsonObject(fields: seq<(string, Json)>)

  /** The record count a data set should report: the length of a list, otherwise 0. */
  function RecordCountOf(content: Json): (n: nat)
    ensures content.JsonList? ==> n == |content.items|
    ensures !content.JsonList? ==> n == 0
  {
    if content.JsonList? then |content.items| else 0
  }

  /** The TestData model's fields. */
  class TestData {
    var name: string
    var description: Option<string>
    var dataType: string
    var version: string
    var recordCount: int
    var dataContent: Json
    var schemaDefinition: Json

    /** A freshly inserted row. SQLAlchemy applies the column defaults when the row is
        inserted, not when the object is built: version "v1.0", record_count 0, an empty list
        as data and an empty object as schema. Before that flush these columns are None,
        which this constructor does not model. */
    constructor(name: string, dataType: string)
      ensures this.name == name && this.dataType == dataType
      ensures description.None? && version == "v1.0" && recordCount == 0
      ensures dataContent == JsonList([]) && schemaDefinition == JsonObject([])
      ensures CountIsCurrent()
    {
      this.name := name;
      this.dataType := dataType;
      description := None;
      version := "v1.0";
      recordCount := 0;
      dataContent := JsonList([]);
      schemaDefinition := JsonObject([]);
    }

    /** Whether record_count agrees with data_content. */
    predicate CountIsCurrent()
      reads this
    {
      recordCount == RecordCountOf(dataContent)
    }

    /** update_record_count: only record_count changes. */
    method UpdateRecordCount()
      modifies this
      ensures CountIsCurrent()
      ensures recordCount == (if dataContent.JsonList? then |dataContent.items| else 0)
      ensures name == old(name) && description == old(description)
      ensures dataType == old(dataType) && version == old(version)
      ensures dataContent == old(dataContent) && schemaDefinition == old(schemaDefinition)
      ensures old(CountIsCurrent()) ==> recordCount == old(recordCount)
    {
      if dataContent.JsonList? {
        recordCount := |dataContent.items|;
      } else {
        recordCount := 0;
      }
    }
  }
}
