/** The walk of `_save_state` / `_load_state` and of their container helpers,
    as functions: which nodes have their hooks run, in which order, and at which
    logical path. The save walk and the load walk make the same decisions, so one
    definition specifies both; the methods in module Walker are proved against it. */
module Walk {
  import opened Results
  import opened Paths
  import opened ObjectGraph
  import opened ContainerNaming

  /** A node whose hooks run, and the path its store locations are addressed by. */
  datatype Visit = Visit(id: nat, path: string)

  /** What a walk leaves behind: the visited set, and the visits in order. */
  datatype Step = Step(visited: set<nat>, visits: seq<Visit>)

  /** The indices below `n`. */
  function Below(n: nat): (r: set<nat>)
    ensures forall i: nat :: i in r <==> i < n
  {
    if n == 0 then {} else Below(n - 1) + {n - 1}
  }

  function Indices(g: Graph): set<nat>
  {
    Below(|g|)
  }

  /** The termination measure: the nodes not yet visited. */
  function Unvisited(g: Graph, visited: set<nat>): set<nat>
  {
    Indices(g) - visited
  }

  /** `_save_state(node, ..., path, visited)`: a node already visited is left
      alone; otherwise its hooks run at `path`, it joins the visited set, and its
      attributes are walked in `dir` order. */
  function WalkNode(g: Graph, snake: string -> string, i: nat, path: string, visited: set<nat>): (r: Step)
    requires ValidGraph(g) && i < |g|
    ensures visited <= r.visited
    decreases Unvisited(g, visited), 0, 0
  {
    if i in visited then Step(visited, [])
    else
      var rest := WalkAttrs(g, snake, g[i].attrs, path, visited + {i});
      Step(rest.visited, [Visit(i, path)] + rest.visits)
  }

  /** The loop over the attributes of one node whose path is `path`. */
  function WalkAttrs(g: Graph, snake: string -> string, attrs: seq<Attr>, path: string, visited: set<nat>): (r: Step)
    requires ValidGraph(g) && AttrsRefsIn(attrs, |g|)
    ensures visited <= r.visited
    decreases Unvisited(g, visited), 3, |attrs|
  {
    if attrs == [] then Step(visited, [])
    else
      var first := WalkAttr(g, snake, attrs[0], path, visited);
      var rest := WalkAttrs(g, snake, attrs[1..], path, first.visited);
      Step(rest.visited, first.visits + rest.visits)
  }

  /** One iteration of that loop: a skipped name, an unreadable attribute or a
      plain value is passed over; a trackable is walked at `path` joined with
      the attribute's name, a container's items below that same path. */
  function WalkAttr(g: Graph, snake: string -> string, a: Attr, path: string, visited: set<nat>): (r: Step)
    requires ValidGraph(g) && ValueRefsIn(a.value, |g|)
    ensures visited <= r.visited
    decreases Unvisited(g, visited), 2, 0
  {
    if Skipped(a.name) then Step(visited, [])
    else match a.value
      case Child(c) => WalkNode(g, snake, c, Join(path, a.name), visited)
      case Container(es) => WalkContainer(g, snake, es, 0, Join(path, a.name), visited)
      case _ => Step(visited, [])
  }

  /** `_save_container_state(container, ..., path, visited)` from item `j` on:
      each trackable item is walked at `path` joined with its container name. */
  function WalkContainer(g: Graph, snake: string -> string, es: seq<Elem>, j: nat, path: string, visited: set<nat>): (r: Step)
    requires ValidGraph(g) && ElemsRefsIn(es, |g|) && j <= |es|
    ensures visited <= r.visited
    decreases Unvisited(g, visited), 1, |es| - j
  {
    if j == |es| then Step(visited, [])
    else
      var first :=
        if es[j].Trackable? then
          WalkNode(g, snake, es[j].id, Join(path, ContainerName(Labels(g, snake, es), j)), visited)
        else Step(visited, []);
      var rest := WalkContainer(g, snake, es, j + 1, path, first.visited);
      Step(rest.visited, first.visits + rest.visits)
  }

  /* ---------------------------------------------------------------------------
     Each node is visited at most once.
     --------------------------------------------------------------------------- */

  function Ids(t: seq<Visit>): set<nat>
  {
    set k | 0 <= k < |t| :: t[k].id
  }

  predicate DistinctIds(t: seq<Visit>)
  {
    forall j, k :: 0 <= j < k < |t| ==> t[j].id != t[k].id
  }

  /** The walk from `before` visited every node at most once, never one that was
      already visited, and left exactly the nodes it visited added to the set. */
  predicate VisitedOnce(before: set<nat>, r: Step)
  {
    r.visited == before + Ids(r.visits) && Ids(r.visits) !! before && DistinctIds(r.visits)
  }

  lemma IdsConcat(t1: seq<Visit>, t2: seq<Visit>)
    ensures Ids(t1 + t2) == Ids(t1) + Ids(t2)
  {
    var t := t1 + t2;
    forall x | x in Ids(t) ensures x in Ids(t1) + Ids(t2) {
      var k :| 0 <= k < |t| && t[k].id == x;
      if k < |t1| { assert t1[k] == t[k]; } else { assert t2[k - |t1|] == t[k]; }
    }
    forall x | x in Ids(t1) + Ids(t2) ensures x in Ids(t) {
      if x in Ids(t1) {
        var k :| 0 <= k < |t1| && t1[k].id == x;
        assert t[k] == t1[k];
      } else {
        var k :| 0 <= k < |t2| && t2[k].id == x;
        assert t[|t1| + k] == t2[k];
      }
    }
  }

  lemma IdsSingleton(v: Visit)
    ensures Ids([v]) == {v.id} && DistinctIds([v])
  {
    assert [v][0] == v;
  }

  lemma VisitedOnceConcat(before: set<nat>, first: Step, rest: Step)
    requires VisitedOnce(before, first) && VisitedOnce(first.visited, rest)
    ensures VisitedOnce(before, Step(rest.visited, first.visits + rest.visits))
  {
    var t := first.visits + rest.visits;
    IdsConcat(first.visits, rest.visits);
    forall j, k | 0 <= j < k < |t| ensures t[j].id != t[k].id {
      if k < |first.visits| {
        assert t[j] == first.visits[j] && t[k] == first.visits[k];
      } else if j >= |first.visits| {
        assert t[j] == rest.visits[j - |first.visits|] && t[k] == rest.visits[k - |first.visits|];
      } else {
        assert t[j] == first.visits[j] && t[k] == rest.visits[k - |first.visits|];
        assert t[j].id in Ids(first.visits) && t[k].id in Ids(rest.visits);
      }
    }
  }

  lemma WalkNodeVisitsOnce(g: Graph, snake: string -> string, i: nat, path: string, visited: set<nat>)
    requires ValidGraph(g) && i < |g|
    ensures VisitedOnce(visited, WalkNode(g, snake, i, path, visited))
    decreases Unvisited(g, visited), 0, 0
  {
    if i !in visited {
      var rest := WalkAttrs(g, snake, g[i].attrs, path, visited + {i});
      WalkAttrsVisitsOnce(g, snake, g[i].attrs, path, visited + {i});
      IdsSingleton(Visit(i, path));
      VisitedOnceConcat(visited, Step(visited + {i}, [Visit(i, path)]), rest);
    }
  }

  lemma WalkAttrsVisitsOnce(g: Graph, snake: string -> string, attrs: seq<Attr>, path: string, visited: set<nat>)
    requires ValidGraph(g) && AttrsRefsIn(attrs, |g|)
    ensures VisitedOnce(visited, WalkAttrs(g, snake, attrs, path, visited))
    decreases Unvisited(g, visited), 3, |attrs|
  {
    if attrs != [] {
      var first := WalkAttr(g, snake, attrs[0], path, visited);
      WalkAttrVisitsOnce(g, snake, attrs[0], path, visited);
      WalkAttrsVisitsOnce(g, snake, attrs[1..], path, first.visited);
      VisitedOnceConcat(visited, first, WalkAttrs(g, snake, attrs[1..], path, first.visited));
    } else {
      assert Ids([]) == {};
    }
  }

  lemma WalkAttrVisitsOnce(g: Graph, snake: string -> string, a: Attr, path: string, visited: set<nat>)
    requires ValidGraph(g) && ValueRefsIn(a.value, |g|)
    ensures VisitedOnce(visited, WalkAttr(g, snake, a, path, visited))
    decreases Unvisited(g, visited), 2, 0
  {
    assert Ids([]) == {};
    if !Skipped(a.name) {
      match a.value
      case Child(c) => WalkNodeVisitsOnce(g, snake, c, Join(path, a.name), visited);
      case Container(es) => WalkContainerVisitsOnce(g, snake, es, 0, Join(path, a.name), visited);
      case _ =>
    }
  }

  lemma WalkContainerVisitsOnce(g: Graph, snake: string -> string, es: seq<Elem>, j: nat, path: string, visited: set<nat>)
    requires ValidGraph(g) && ElemsRefsIn(es, |g|) && j <= |es|
    ensures VisitedOnce(visited, WalkContainer(g, snake, es, j, path, visited))
    decreases Unvisited(g, visited), 1, |es| - j
  {
    assert Ids([]) == {};
    if j < |es| {
      var first :=
        if es[j].Trackable? then
          WalkNode(g, snake, es[j].id, Join(path, ContainerName(Labels(g, snake, es), j)), visited)
        else Step(visited, []);
      if es[j].Trackable? {
        WalkNodeVisitsOnce(g, snake, es[j].id, Join(path, ContainerName(Labels(g, snake, es), j)), visited);
      }
      WalkContainerVisitsOnce(g, snake, es, j + 1, path, first.visited);
      VisitedOnceConcat(visited, first, WalkContainer(g, snake, es, j + 1, path, first.visited));
    }
  }

  /* ---------------------------------------------------------------------------
     The walk sees only the shape of the graph: class names and traversable
     attributes. Numeric state, hooks, skipped, unreadable and plain attributes
     do not change a single visit.
     --------------------------------------------------------------------------- */

  lemma WalkNodeShapeOnly(g1: Graph, g2: Graph, snake: string -> string, i: nat, path: string, visited: set<nat>)
    requires ValidGraph(g1) && ValidGraph(g2) && SameShape(g1, g2) && i < |g1|
    ensures WalkNode(g1, snake, i, path, visited) == WalkNode(g2, snake, i, path, visited)
    decreases Unvisited(g1, visited), 0, 0
  {
    if i !in visited {
      WalkAttrsShapeOnly(g1, g2, snake, g1[i].attrs, g2[i].attrs, path, visited + {i});
    }
  }

  lemma AttrsRefsInTail(attrs: seq<Attr>, size: nat)
    requires AttrsRefsIn(attrs, size) && attrs != []
    ensures ValueRefsIn(attrs[0].value, size) && AttrsRefsIn(attrs[1..], size)
  {
    forall k | 0 <= k < |attrs| - 1 ensures ValueRefsIn(attrs[1..][k].value, size) {
      assert attrs[1..][k] == attrs[k + 1];
    }
  }

  lemma WalkAttrsSkipsUntraversable(g: Graph, snake: string -> string, attrs: seq<Attr>, path: string, visited: set<nat>)
    requires ValidGraph(g) && AttrsRefsIn(attrs, |g|) && attrs != [] && !IsTraversable(attrs[0])
    ensures WalkAttrs(g, snake, attrs, path, visited) == WalkAttrs(g, snake, attrs[1..], path, visited)
  {
    var rest := WalkAttrs(g, snake, attrs[1..], path, visited);
    assert [] + rest.visits == rest.visits;
  }

  lemma WalkAttrsShapeOnly(g1: Graph, g2: Graph, snake: string -> string, a1: seq<Attr>, a2: seq<Attr>, path: string, visited: set<nat>)
    requires ValidGraph(g1) && ValidGraph(g2) && SameShape(g1, g2)
    requires AttrsRefsIn(a1, |g1|) && AttrsRefsIn(a2, |g2|) && Traversable(a1) == Traversable(a2)
    ensures WalkAttrs(g1, snake, a1, path, visited) == WalkAttrs(g2, snake, a2, path, visited)
    decreases Unvisited(g1, visited), 3, |a1| + |a2|
  {
    if a1 != [] && !IsTraversable(a1[0]) {
      assert Traversable(a1[1..]) == Traversable(a1);
      AttrsRefsInTail(a1, |g1|);
      WalkAttrsSkipsUntraversable(g1, snake, a1, path, visited);
      WalkAttrsShapeOnly(g1, g2, snake, a1[1..], a2, path, visited);
    } else if a2 != [] && !IsTraversable(a2[0]) {
      assert Traversable(a2[1..]) == Traversable(a2);
      AttrsRefsInTail(a2, |g2|);
      WalkAttrsSkipsUntraversable(g2, snake, a2, path, visited);
      WalkAttrsShapeOnly(g1, g2, snake, a1, a2[1..], path, visited);
    } else if a1 != [] && a2 != [] {
      var t1, t2 := Traversable(a1), Traversable(a2);
      assert t1 == [a1[0]] + Traversable(a1[1..]) && t2 == [a2[0]] + Traversable(a2[1..]);
      assert a1[0] == t1[0] == t2[0] == a2[0];
      assert Traversable(a1[1..]) == t1[1..] == t2[1..] == Traversable(a2[1..]);
      AttrsRefsInTail(a1, |g1|);
      AttrsRefsInTail(a2, |g2|);
      WalkAttrShapeOnly(g1, g2, snake, a1[0], path, visited);
      var first := WalkAttr(g1, snake, a1[0], path, visited);
      WalkAttrsShapeOnly(g1, g2, snake, a1[1..], a2[1..], path, first.visited);
    }
  }

  lemma WalkAttrShapeOnly(g1: Graph, g2: Graph, snake: string -> string, a: Attr, path: string, visited: set<nat>)
    requires ValidGraph(g1) && ValidGraph(g2) && SameShape(g1, g2) && ValueRefsIn(a.value, |g1|)
    ensures WalkAttr(g1, snake, a, path, visited) == WalkAttr(g2, snake, a, path, visited)
    decreases Unvisited(g1, visited), 2, 0
  {
    if !Skipped(a.name) {
      match a.value
      case Child(c) => WalkNodeShapeOnly(g1, g2, snake, c, Join(path, a.name), visited);
      case Container(es) => WalkContainerShapeOnly(g1, g2, snake, es, 0, Join(path, a.name), visited);
      case _ =>
    }
  }

  lemma WalkContainerShapeOnly(g1: Graph, g2: Graph, snake: string -> string, es: seq<Elem>, j: nat, path: string, visited: set<nat>)
    requires ValidGraph(g1) && ValidGraph(g2) && SameShape(g1, g2)
    requires ElemsRefsIn(es, |g1|) && j <= |es|
    ensures WalkContainer(g1, snake, es, j, path, visited) == WalkContainer(g2, snake, es, j, path, visited)
    decreases Unvisited(g1, visited), 1, |es| - j
  {
    if j < |es| {
      var ls := Labels(g1, snake, es);
      assert ls == Labels(g2, snake, es) by {
        forall k | 0 <= k < |es| ensures Label(g1, snake, es[k]) == Label(g2, snake, es[k]) {
        }
      }
      var first :=
        if es[j].Trackable? then WalkNode(g1, snake, es[j].id, Join(path, ContainerName(ls, j)), visited)
        else Step(visited, []);
      if es[j].Trackable? {
        WalkNodeShapeOnly(g1, g2, snake, es[j].id, Join(path, ContainerName(ls, j)), visited);
      }
      WalkContainerShapeOnly(g1, g2, snake, es, j + 1, path, first.visited);
    }
  }

  /** The graph with every attribute the walk cannot descend into removed. */
  function StripSkipped(g: Graph): (h: Graph)
    ensures |h| == |g|
  {
    seq(|g|, i requires 0 <= i < |g| => g[i].(attrs := Traversable(g[i].attrs)))
  }

  lemma {:induction false} TraversableIdempotent(attrs: seq<Attr>)
    ensures Traversable(Traversable(attrs)) == Traversable(attrs)
  {
    if attrs != [] {
      TraversableIdempotent(attrs[1..]);
      if IsTraversable(attrs[0]) {
        assert ([attrs[0]] + Traversable(attrs[1..]))[1..] == Traversable(attrs[1..]);
      }
    }
  }

  lemma TraversableRefsIn(attrs: seq<Attr>, size: nat)
    requires AttrsRefsIn(attrs, size)
    ensures AttrsRefsIn(Traversable(attrs), size)
  {
    var r := Traversable(attrs);
    forall k | 0 <= k < |r| ensures ValueRefsIn(r[k].value, size) {
      assert r[k] in attrs;
      var m :| 0 <= m < |attrs| && attrs[m] == r[k];
    }
  }

  /** Skip-listed and dunder attributes, attributes whose access raises and
      attributes holding neither a trackable nor a container are never walked:
      removing all of them from every node changes no visit and no path. */
  lemma SkippedAttributesIgnored(g: Graph, snake: string -> string, i: nat, path: string, visited: set<nat>)
    requires ValidGraph(g) && i < |g|
    ensures ValidGraph(StripSkipped(g))
    ensures WalkNode(StripSkipped(g), snake, i, path, visited) == WalkNode(g, snake, i, path, visited)
  {
    var h := StripSkipped(g);
    forall n | 0 <= n < |h| ensures AttrsRefsIn(h[n].attrs, |h|) && Traversable(h[n].attrs) == Traversable(g[n].attrs) {
      TraversableRefsIn(g[n].attrs, |g|);
      TraversableIdempotent(g[n].attrs);
    }
    WalkNodeShapeOnly(h, g, snake, i, path, visited);
  }

  /* ---------------------------------------------------------------------------
     Addressing: every visit lies at or below the path the walk started from,
     and, when attribute names and class names are path components, no two
     visits share a path.
     --------------------------------------------------------------------------- */

  predicate DistinctPaths(t: seq<Visit>)
  {
    forall j, k :: 0 <= j < k < |t| ==> t[j].path != t[k].path
  }

  predicate AllUnder(t: seq<Visit>, p: string)
  {
    forall k :: 0 <= k < |t| ==> Under(t[k].path, p)
  }

  /** Every visit of `t` lies strictly below `p`, and the component right
      after `p` is one of `segs`. */
  predicate BelowVia(t: seq<Visit>, p: string, segs: set<string>)
  {
    forall k :: 0 <= k < |t| ==> StrictlyUnder(t[k].path, p) && SegmentAfter(t[k].path, p) in segs
  }

  /** The names of the attributes that pass the name filter. */
  function WalkedNames(attrs: seq<Attr>): set<string>
  {
    set k | 0 <= k < |attrs| && !Skipped(attrs[k].name) :: attrs[k].name
  }

  /** The names the items of a container get from item `j` on. */
  function NamesFrom(ls: seq<Option<string>>, j: nat): set<string>
  {
    set m | j <= m < |ls| && ls[m].Some? :: ContainerName(ls, m)
  }

  /** Attribute names as `dir` lists them: distinct path components. */
  predicate NamedAttrs(attrs: seq<Attr>)
  {
    && (forall k :: 0 <= k < |attrs| ==> Segment(attrs[k].name))
    && (forall j, k :: 0 <= j < k < |attrs| ==> attrs[j].name != attrs[k].name)
  }

  lemma BelowViaConcat(t1: seq<Visit>, t2: seq<Visit>, p: string, s1: set<string>, s2: set<string>, s: set<string>)
    requires BelowVia(t1, p, s1) && BelowVia(t2, p, s2) && s1 !! s2 && s1 + s2 <= s
    requires DistinctPaths(t1) && DistinctPaths(t2)
    ensures BelowVia(t1 + t2, p, s) && DistinctPaths(t1 + t2)
  {
    var t := t1 + t2;
    forall k | 0 <= k < |t| ensures StrictlyUnder(t[k].path, p) && SegmentAfter(t[k].path, p) in s {
      if k < |t1| { assert t[k] == t1[k]; } else { assert t[k] == t2[k - |t1|]; }
    }
    forall j, k | 0 <= j < k < |t| ensures t[j].path != t[k].path {
      if k < |t1| {
        assert t[j] == t1[j] && t[k] == t1[k];
      } else if j >= |t1| {
        assert t[j] == t2[j - |t1|] && t[k] == t2[k - |t1|];
      } else {
        assert t[j] == t1[j] && t[k] == t2[k - |t1|];
        assert SegmentAfter(t[j].path, p) in s1 && SegmentAfter(t[k].path, p) in s2;
      }
    }
  }

  lemma WalkNodePaths(g: Graph, snake: string -> string, i: nat, path: string, visited: set<nat>)
    requires ValidGraph(g) && WellNamed(g, snake) && i < |g|
    ensures var t := WalkNode(g, snake, i, path, visited).visits;
            AllUnder(t, path) && DistinctPaths(t) && (i !in visited ==> t[0] == Visit(i, path))
    decreases Unvisited(g, visited), 0, 0
  {
    if i !in visited {
      var rest := WalkAttrs(g, snake, g[i].attrs, path, visited + {i}).visits;
      WalkAttrsPaths(g, snake, g[i].attrs, path, visited + {i});
      NodeVisitFirst(Visit(i, path), rest, path, WalkedNames(g[i].attrs));
    }
  }

  /** A visit at `p` followed by visits strictly below `p` with distinct paths
      gives visits under `p` with distinct paths. */
  lemma NodeVisitFirst(v: Visit, rest: seq<Visit>, p: string, segs: set<string>)
    requires v.path == p && BelowVia(rest, p, segs) && DistinctPaths(rest)
    ensures AllUnder([v] + rest, p) && DistinctPaths([v] + rest)
  {
    var t := [v] + rest;
    forall k | 0 <= k < |t| ensures Under(t[k].path, p) && (k > 0 ==> t[k].path != p) {
      if k > 0 {
        assert t[k] == rest[k - 1];
        StrictlyUnderIsNotEqual(t[k].path, p);
      }
    }
    forall j, k | 0 <= j < k < |t| ensures t[j].path != t[k].path {
      if j > 0 {
        assert t[j] == rest[j - 1] && t[k] == rest[k - 1];
      }
    }
  }

  lemma WalkAttrsPaths(g: Graph, snake: string -> string, attrs: seq<Attr>, path: string, visited: set<nat>)
    requires ValidGraph(g) && WellNamed(g, snake) && AttrsRefsIn(attrs, |g|) && NamedAttrs(attrs)
    ensures var t := WalkAttrs(g, snake, attrs, path, visited).visits;
            BelowVia(t, path, WalkedNames(attrs)) && DistinctPaths(t)
    decreases Unvisited(g, visited), 3, |attrs|
  {
    if attrs != [] {
      var a := attrs[0];
      AttrsRefsInTail(attrs, |g|);
      var first := WalkAttr(g, snake, a, path, visited);
      WalkAttrPaths(g, snake, a, path, visited);
      var tail := attrs[1..];
      var s1: set<string> := if Skipped(a.name) then {} else {a.name};
      NamedAttrsTail(attrs);
      WalkAttrsPaths(g, snake, tail, path, first.visited);
      BelowViaConcat(first.visits, WalkAttrs(g, snake, tail, path, first.visited).visits, path, s1, WalkedNames(tail), WalkedNames(attrs));
    }
  }

  /** The tail of a list of distinctly named attributes is distinctly named,
      does not walk the head's name, and walks no name the whole list does not. */
  lemma NamedAttrsTail(attrs: seq<Attr>)
    requires attrs != [] && NamedAttrs(attrs)
    ensures NamedAttrs(attrs[1..])
    ensures attrs[0].name !in WalkedNames(attrs[1..])
    ensures (if Skipped(attrs[0].name) then {} else {attrs[0].name}) + WalkedNames(attrs[1..]) <= WalkedNames(attrs)
  {
    var tail := attrs[1..];
    forall j, k | 0 <= j < k < |tail| ensures tail[j].name != tail[k].name {
      assert tail[j] == attrs[j + 1] && tail[k] == attrs[k + 1];
    }
    forall k | 0 <= k < |tail| ensures tail[k].name != attrs[0].name {
      assert attrs[k + 1] == tail[k];
    }
    forall x | x in WalkedNames(tail) ensures x in WalkedNames(attrs) {
      var k :| 0 <= k < |tail| && !Skipped(tail[k].name) && tail[k].name == x;
      assert attrs[k + 1] == tail[k];
    }
  }

  lemma WalkAttrPaths(g: Graph, snake: string -> string, a: Attr, path: string, visited: set<nat>)
    requires ValidGraph(g) && WellNamed(g, snake) && ValueRefsIn(a.value, |g|) && Segment(a.name)
    ensures var t := WalkAttr(g, snake, a, path, visited).visits;
            BelowVia(t, path, if Skipped(a.name) then {} else {a.name}) && DistinctPaths(t)
    decreases Unvisited(g, visited), 2, 0
  {
    if !Skipped(a.name) {
      var p := Join(path, a.name);
      var t := WalkAttr(g, snake, a, path, visited).visits;
      match a.value {
        case Child(c) =>
          WalkNodePaths(g, snake, c, p, visited);
        case Container(es) =>
          WalkContainerPaths(g, snake, es, 0, p, visited);
        case _ =>
      }
      forall k | 0 <= k < |t| ensures StrictlyUnder(t[k].path, path) && SegmentAfter(t[k].path, path) == a.name {
        UnderJoin(t[k].path, path, a.name);
      }
    }
  }

  lemma WalkContainerPaths(g: Graph, snake: string -> string, es: seq<Elem>, j: nat, path: string, visited: set<nat>)
    requires ValidGraph(g) && WellNamed(g, snake) && ElemsRefsIn(es, |g|) && j <= |es|
    ensures var t := WalkContainer(g, snake, es, j, path, visited).visits;
            BelowVia(t, path, NamesFrom(Labels(g, snake, es), j)) && DistinctPaths(t)
    decreases Unvisited(g, visited), 1, |es| - j
  {
    if j < |es| {
      var ls := Labels(g, snake, es);
      LabelsWellNamed(g, snake, es);
      var first :=
        if es[j].Trackable? then WalkNode(g, snake, es[j].id, Join(path, ContainerName(ls, j)), visited)
        else Step(visited, []);
      var s1: set<string> := if es[j].Trackable? then {ContainerName(ls, j)} else {};
      if es[j].Trackable? {
        var name := ContainerName(ls, j);
        ContainerNameIsSegment(ls, j);
        WalkNodePaths(g, snake, es[j].id, Join(path, name), visited);
        JoinedBelowVia(first.visits, path, name);
        FirstNameFresh(ls, j);
      }
      WalkContainerPaths(g, snake, es, j + 1, path, first.visited);
      BelowViaConcat(first.visits, WalkContainer(g, snake, es, j + 1, path, first.visited).visits, path, s1, NamesFrom(ls, j + 1), NamesFrom(ls, j));
    }
  }

  /** The labels of a well-named graph's container items are segments without
      a numeric suffix. */
  lemma LabelsWellNamed(g: Graph, snake: string -> string, es: seq<Elem>)
    requires WellNamed(g, snake)
    ensures forall m :: 0 <= m < |es| && Labels(g, snake, es)[m].Some? ==>
              Segment(Labels(g, snake, es)[m].value) && !HasNumericSuffix(Labels(g, snake, es)[m].value)
  {
  }

  /** Visits under `path/name` lie below `path` through `name`. */
  lemma JoinedBelowVia(t: seq<Visit>, path: string, name: string)
    requires Segment(name) && AllUnder(t, Join(path, name))
    ensures BelowVia(t, path, {name})
  {
    forall k | 0 <= k < |t| ensures StrictlyUnder(t[k].path, path) && SegmentAfter(t[k].path, path) == name {
      UnderJoin(t[k].path, path, name);
    }
  }

  /** An item's container name is not taken by any later item. */
  lemma FirstNameFresh(ls: seq<Option<string>>, j: nat)
    requires j < |ls| && ls[j].Some?
    requires forall m :: 0 <= m < |ls| && ls[m].Some? ==> !HasNumericSuffix(ls[m].value)
    ensures ContainerName(ls, j) !in NamesFrom(ls, j + 1)
  {
    if ContainerName(ls, j) in NamesFrom(ls, j + 1) {
      var m :| j + 1 <= m < |ls| && ls[m].Some? && ContainerName(ls, m) == ContainerName(ls, j);
      ContainerNamesDistinct(ls, j, m);
    }
  }

  /** From the root, `NpzIOStore`'s reserved key `"__root__"` is never the path
      of a visit: a top-level component that long would be a dunder name, and
      those are filtered. */
  lemma RootKeyIsNeverAPath(g: Graph, snake: string -> string, root: nat)
    requires ValidGraph(g) && WellNamed(g, snake) && root < |g|
    ensures var t := WalkNode(g, snake, root, "", {}).visits;
            forall k :: 0 <= k < |t| ==> t[k].path != "__root__"
  {
    var none: set<nat> := {};
    var start := none + {root};
    RootAttrsNotRootKey(g, snake, root, start);
    var rest := WalkAttrs(g, snake, g[root].attrs, "", start).visits;
    var t := WalkNode(g, snake, root, "", none).visits;
    assert t == [Visit(root, "")] + rest;
    forall k | 0 <= k < |t| ensures t[k].path != "__root__" {
      if k == 0 {
        assert |t[k].path| == 0;
      } else {
        assert t[k] == rest[k - 1];
      }
    }
  }

  /** Below the root, every path starts with a walked attribute name, which
      is never the dunder `"__root__"`. */
  lemma RootAttrsNotRootKey(g: Graph, snake: string -> string, root: nat, visited: set<nat>)
    requires ValidGraph(g) && WellNamed(g, snake) && root < |g|
    ensures forall k :: 0 <= k < |WalkAttrs(g, snake, g[root].attrs, "", visited).visits| ==>
              WalkAttrs(g, snake, g[root].attrs, "", visited).visits[k].path != "__root__"
  {
    var attrs := g[root].attrs;
    WalkAttrsPaths(g, snake, attrs, "", visited);
    DunderNotBelowRoot(WalkAttrs(g, snake, attrs, "", visited).visits, attrs, "__root__");
  }

  /** Visits whose first component is a walked name never sit at a dunder
      segment. */
  lemma DunderNotBelowRoot(t: seq<Visit>, attrs: seq<Attr>, name: string)
    requires StartsWith(name, "__") && SlashFree(name) && BelowVia(t, "", WalkedNames(attrs))
    ensures forall k :: 0 <= k < |t| ==> t[k].path != name
  {
    DunderNeverWalked(attrs, name);
    FirstSegmentOfSlashFree(name, "");
    forall k | 0 <= k < |t| ensures t[k].path != name {
      assert SegmentAfter(t[k].path, "") in WalkedNames(attrs);
    }
  }

  /** A dunder name is filtered, so no walked attribute has it. */
  lemma DunderNeverWalked(attrs: seq<Attr>, name: string)
    requires StartsWith(name, "__")
    ensures name !in WalkedNames(attrs)
  {
    assert Skipped(name);
  }

}
