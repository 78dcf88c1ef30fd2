/** `_save_state`, `_load_state`, `_save_container_state` and
    `_load_container_state` as the source writes them: a loop over `dir(node)`,
    a loop over a container with a `used_names` counter updated in place, and a
    visited set threaded through the recursion. Each returns the store calls
    its hooks make, in order, and is proved to make exactly the calls the walk
    of module Walk specifies. */
module Walker {
  import opened Results
  import opened Paths
  import opened ObjectGraph
  import opened ContainerNaming
  import opened Walk

  datatype Direction = Save | Load

  datatype StoreKind = WeightsStore | AssetsStore

  /** One hook call: on save, `store.make(path)` handed to node `id`'s
      `_save_own_variables` or `_save_assets`; on load, `store.get(path)` handed
      to its `_load_own_variables` or `_load_assets`. */
  datatype Call = Call(dir: Direction, store: StoreKind, id: nat, path: string)

  /** The calls one visit makes: the variable hook when the node defines it and
      a weights store is given, then the asset hook likewise. An index outside
      the graph names no node and has no hooks (the walk never visits one). */
  function VisitCalls(g: Graph, d: Direction, withWeights: bool, withAssets: bool, v: Visit): seq<Call>
  {
    var h := if v.id < |g| then g[v.id].hooks else Hooks(false, false, false, false);
    var varsHook := if d == Save then h.saveVars else h.loadVars;
    var assetsHook := if d == Save then h.saveAssets else h.loadAssets;
    (if varsHook && withWeights then [Call(d, WeightsStore, v.id, v.path)] else [])
    + (if assetsHook && withAssets then [Call(d, AssetsStore, v.id, v.path)] else [])
  }

  /** The calls a sequence of visits makes. */
  function Calls(g: Graph, d: Direction, withWeights: bool, withAssets: bool, t: seq<Visit>): seq<Call>
  {
    if |t| == 0 then [] else VisitCalls(g, d, withWeights, withAssets, t[0]) + Calls(g, d, withWeights, withAssets, t[1..])
  }

  /** The calls of two runs of visits are the calls of each, one after the other. */
  lemma {:induction false} CallsConcat(g: Graph, d: Direction, w: bool, a: bool, t1: seq<Visit>, t2: seq<Visit>)
    ensures Calls(g, d, w, a, t1 + t2) == Calls(g, d, w, a, t1) + Calls(g, d, w, a, t2)
  {
    if |t1| == 0 {
      assert t1 + t2 == t2;
    } else {
      var t := t1 + t2;
      var rest := t1[1..];
      assert t[1..] == rest + t2;
      CallsConcat(g, d, w, a, rest, t2);
      var x := VisitCalls(g, d, w, a, t1[0]);
      var y := Calls(g, d, w, a, rest);
      var z := Calls(g, d, w, a, t2);
      assert Calls(g, d, w, a, t) == x + Calls(g, d, w, a, rest + t2);
      Assoc(x, y, z);
    }
  }

  /** The first visit's calls come first. */
  lemma CallsCons(g: Graph, d: Direction, w: bool, a: bool, v: Visit, t: seq<Visit>)
    ensures Calls(g, d, w, a, [v] + t) == VisitCalls(g, d, w, a, v) + Calls(g, d, w, a, t)
  {
    assert ([v] + t)[0] == v && ([v] + t)[1..] == t;
  }

  /** A walk that starts from a visited set containing `i` leaves fewer nodes
      unvisited than one that starts before `i` was visited. */
  lemma UnvisitedShrinks(g: Graph, i: nat, visited: set<nat>, later: set<nat>)
    requires i < |g| && i !in visited && visited + {i} <= later
    ensures Unvisited(g, later) < Unvisited(g, visited)
  {
    assert i in Unvisited(g, visited) && i !in Unvisited(g, later);
  }

  /** Visiting more nodes leaves no more unvisited. */
  lemma UnvisitedMonotone(g: Graph, visited: set<nat>, later: set<nat>)
    requires visited <= later
    ensures Unvisited(g, later) <= Unvisited(g, visited)
  {
  }

  /** `_save_state(node, ..., inner_path, visited_trackables)`: the walk of
      `WalkNode`, making the save hook calls of each visit. */
  method SaveState(g: Graph, snake: string -> string, withWeights: bool, withAssets: bool,
                   i: nat, path: string, visited: set<nat>)
    returns (visitedOut: set<nat>, calls: seq<Call>)
    requires ValidGraph(g) && i < |g|
    ensures var r := WalkNode(g, snake, i, path, visited);
            visitedOut == r.visited && calls == Calls(g, Save, withWeights, withAssets, r.visits)
    decreases Unvisited(g, visited), 0, 0
  {
    if i in visited {
      return visited, [];
    }
    calls := VisitCalls(g, Save, withWeights, withAssets, Visit(i, path));
    visitedOut := visited + {i};
    ghost var start := visitedOut;
    var attrs := g[i].attrs;
    ghost var whole := WalkAttrs(g, snake, attrs, path, start);
    ghost var done: seq<Visit> := [Visit(i, path)];
    CallsCons(g, Save, withWeights, withAssets, Visit(i, path), []);
    var k := 0;
    while k < |attrs|
      invariant 0 <= k <= |attrs|
      invariant start <= visitedOut
      invariant AttrsRefsIn(attrs[k..], |g|)
      invariant WalkAttrs(g, snake, attrs[k..], path, visitedOut).visited == whole.visited
      invariant [Visit(i, path)] + whole.visits == done + WalkAttrs(g, snake, attrs[k..], path, visitedOut).visits
      invariant calls == Calls(g, Save, withWeights, withAssets, done)
    {
      var a := attrs[k];
      AttrsStep(g, snake, attrs, k, path, visitedOut);
      ghost var first := WalkAttr(g, snake, a, path, visitedOut);
      Assoc(done, first.visits, WalkAttrs(g, snake, attrs[k + 1..], path, first.visited).visits);
      CallsConcat(g, Save, withWeights, withAssets, done, first.visits);
      if !Skipped(a.name) {
        match a.value {
          case Child(c) =>
            UnvisitedShrinks(g, i, visited, visitedOut);
            var v, cs := SaveState(g, snake, withWeights, withAssets, c, Join(path, a.name), visitedOut);
            visitedOut, calls := v, calls + cs;
          case Container(es) =>
            UnvisitedShrinks(g, i, visited, visitedOut);
            var v, cs := SaveContainerState(g, snake, withWeights, withAssets, es, Join(path, a.name), visitedOut);
            visitedOut, calls := v, calls + cs;
          case Unreadable =>
          case Plain =>
        }
      }
      done := done + first.visits;
      k := k + 1;
    }
    assert attrs[k..] == [];
    assert done == [Visit(i, path)] + whole.visits;
  }

  /** `_save_container_state(container, ..., inner_path, visited_trackables)`:
      the walk of `WalkContainer`, naming each trackable item with the
      `used_names` counters. */
  method SaveContainerState(g: Graph, snake: string -> string, withWeights: bool, withAssets: bool,
                            es: seq<Elem>, path: string, visited: set<nat>)
    returns (visitedOut: set<nat>, calls: seq<Call>)
    requires ValidGraph(g) && ElemsRefsIn(es, |g|)
    ensures var r := WalkContainer(g, snake, es, 0, path, visited);
            visitedOut == r.visited && calls == Calls(g, Save, withWeights, withAssets, r.visits)
    decreases Unvisited(g, visited), 1, 0
  {
    ghost var ls := Labels(g, snake, es);
    ghost var whole := WalkContainer(g, snake, es, 0, path, visited);
    ghost var done: seq<Visit> := [];
    var usedNames: map<string, nat> := map[];
    visitedOut, calls := visited, [];
    var j := 0;
    while j < |es|
      invariant 0 <= j <= |es|
      invariant visited <= visitedOut
      invariant usedNames == UsedNames(ls, j)
      invariant WalkContainer(g, snake, es, j, path, visitedOut).visited == whole.visited
      invariant whole.visits == done + WalkContainer(g, snake, es, j, path, visitedOut).visits
      invariant calls == Calls(g, Save, withWeights, withAssets, done)
    {
      if es[j].Trackable? {
        var name := snake(g[es[j].id].className);
        ContainerIteration(g, snake, Save, withWeights, withAssets, es, j, path, visitedOut, done, whole.visits);
        ghost var first := WalkNode(g, snake, es[j].id, Join(path, ContainerName(ls, j)), visitedOut);
        usedNames, name := NameItem(ls, j, usedNames, name);
        UnvisitedMonotone(g, visited, visitedOut);
        var v, cs := SaveState(g, snake, withWeights, withAssets, es[j].id, Join(path, name), visitedOut);
        assert v == first.visited && cs == Calls(g, Save, withWeights, withAssets, first.visits);
        visitedOut, calls := v, calls + cs;
        done := done + first.visits;
      } else {
        PlainStep(g, snake, es, j, path, visitedOut);
      }
      j := j + 1;
    }
    assert done == whole.visits;
  }

  /** `_load_state(node, ..., inner_path, visited_trackables)`: the walk of
      `WalkNode`, making the load hook calls of each visit. */
  method LoadState(g: Graph, snake: string -> string, withWeights: bool, withAssets: bool,
                   i: nat, path: string, visited: set<nat>)
    returns (visitedOut: set<nat>, calls: seq<Call>)
    requires ValidGraph(g) && i < |g|
    ensures var r := WalkNode(g, snake, i, path, visited);
            visitedOut == r.visited && calls == Calls(g, Load, withWeights, withAssets, r.visits)
    decreases Unvisited(g, visited), 0, 0
  {
    if i in visited {
      return visited, [];
    }
    calls := VisitCalls(g, Load, withWeights, withAssets, Visit(i, path));
    visitedOut := visited + {i};
    ghost var start := visitedOut;
    var attrs := g[i].attrs;
    ghost var whole := WalkAttrs(g, snake, attrs, path, start);
    ghost var done: seq<Visit> := [Visit(i, path)];
    CallsCons(g, Load, withWeights, withAssets, Visit(i, path), []);
    var k := 0;
    while k < |attrs|
      invariant 0 <= k <= |attrs|
      invariant start <= visitedOut
      invariant AttrsRefsIn(attrs[k..], |g|)
      invariant WalkAttrs(g, snake, attrs[k..], path, visitedOut).visited == whole.visited
      invariant [Visit(i, path)] + whole.visits == done + WalkAttrs(g, snake, attrs[k..], path, visitedOut).visits
      invariant calls == Calls(g, Load, withWeights, withAssets, done)
    {
      var a := attrs[k];
      AttrsStep(g, snake, attrs, k, path, visitedOut);
      ghost var first := WalkAttr(g, snake, a, path, visitedOut);
      Assoc(done, first.visits, WalkAttrs(g, snake, attrs[k + 1..], path, first.visited).visits);
      CallsConcat(g, Load, withWeights, withAssets, done, first.visits);
      if !Skipped(a.name) {
        match a.value {
          case Child(c) =>
            UnvisitedShrinks(g, i, visited, visitedOut);
            var v, cs := LoadState(g, snake, withWeights, withAssets, c, Join(path, a.name), visitedOut);
            visitedOut, calls := v, calls + cs;
          case Container(es) =>
            UnvisitedShrinks(g, i, visited, visitedOut);
            var v, cs := LoadContainerState(g, snake, withWeights, withAssets, es, Join(path, a.name), visitedOut);
            visitedOut, calls := v, calls + cs;
          case Unreadable =>
          case Plain =>
        }
      }
      done := done + first.visits;
      k := k + 1;
    }
    assert attrs[k..] == [];
    assert done == [Visit(i, path)] + whole.visits;
  }

  /** `_load_container_state(container, ..., inner_path, visited_trackables)`:
      the walk of `WalkContainer`, naming each trackable item with the
      `used_names` counters. */
  method LoadContainerState(g: Graph, snake: string -> string, withWeights: bool, withAssets: bool,
                            es: seq<Elem>, path: string, visited: set<nat>)
    returns (visitedOut: set<nat>, calls: seq<Call>)
    requires ValidGraph(g) && ElemsRefsIn(es, |g|)
    ensures var r := WalkContainer(g, snake, es, 0, path, visited);
            visitedOut == r.visited && calls == Calls(g, Load, withWeights, withAssets, r.visits)
    decreases Unvisited(g, visited), 1, 0
  {
    ghost var ls := Labels(g, snake, es);
    ghost var whole := WalkContainer(g, snake, es, 0, path, visited);
    ghost var done: seq<Visit> := [];
    var usedNames: map<string, nat> := map[];
    visitedOut, calls := visited, [];
    var j := 0;
    while j < |es|
      invariant 0 <= j <= |es|
      invariant visited <= visitedOut
      invariant usedNames == UsedNames(ls, j)
      invariant WalkContainer(g, snake, es, j, path, visitedOut).visited == whole.visited
      invariant whole.visits == done + WalkContainer(g, snake, es, j, path, visitedOut).visits
      invariant calls == Calls(g, Load, withWeights, withAssets, done)
    {
      if es[j].Trackable? {
        var name := snake(g[es[j].id].className);
        ContainerIteration(g, snake, Load, withWeights, withAssets, es, j, path, visitedOut, done, whole.visits);
        ghost var first := WalkNode(g, snake, es[j].id, Join(path, ContainerName(ls, j)), visitedOut);
        usedNames, name := NameItem(ls, j, usedNames, name);
        UnvisitedMonotone(g, visited, visitedOut);
        var v, cs := LoadState(g, snake, withWeights, withAssets, es[j].id, Join(path, name), visitedOut);
        assert v == first.visited && cs == Calls(g, Load, withWeights, withAssets, first.visits);
        visitedOut, calls := v, calls + cs;
        done := done + first.visits;
      } else {
        PlainStep(g, snake, es, j, path, visitedOut);
      }
      j := j + 1;
    }
    assert done == whole.visits;
  }

  /** The naming step of the container loop: the item's label the first time
      it occurs, the label and its repeat count afterwards, with `used_names`
      updated as the loop does. */
  method NameItem(ghost ls: seq<Option<string>>, j: nat, usedNames: map<string, nat>, base: string)
    returns (used: map<string, nat>, name: string)
    requires j < |ls| && ls[j] == Some(base) && usedNames == UsedNames(ls, j)
    ensures used == UsedNames(ls, j + 1) && name == ContainerName(ls, j)
  {
    UsedNamesNaming(ls, j);
    if base in usedNames {
      used := usedNames[base := usedNames[base] + 1];
      name := base + "_" + NatToString(used[base]);
    } else {
      used := usedNames[base := 0];
      name := base;
    }
  }

  lemma Assoc<T>(a: seq<T>, b: seq<T>, c: seq<T>)
    ensures a + (b + c) == (a + b) + c
  {
  }

  /** One iteration of the loop over `dir(node)`: walking attribute `k`, then
      the attributes after it, is walking from `k` on. */
  lemma AttrsStep(g: Graph, snake: string -> string, attrs: seq<Attr>, k: nat, path: string, cur: set<nat>)
    requires ValidGraph(g) && k < |attrs| && AttrsRefsIn(attrs[k..], |g|)
    ensures AttrsRefsIn(attrs[k + 1..], |g|) && ValueRefsIn(attrs[k].value, |g|)
    ensures var first := WalkAttr(g, snake, attrs[k], path, cur);
            var rest := WalkAttrs(g, snake, attrs[k + 1..], path, first.visited);
            WalkAttrs(g, snake, attrs[k..], path, cur) == Step(rest.visited, first.visits + rest.visits)
  {
    assert attrs[k..][0] == attrs[k] && attrs[k..][1..] == attrs[k + 1..];
    assert ValueRefsIn(attrs[k..][0].value, |g|);
  }

  /** One iteration of the loop over a container, at a trackable item. */
  lemma TrackableStep(g: Graph, snake: string -> string, es: seq<Elem>, j: nat, path: string, cur: set<nat>)
    requires ValidGraph(g) && ElemsRefsIn(es, |g|) && j < |es| && es[j].Trackable?
    ensures es[j].id < |g|
    ensures var first := WalkNode(g, snake, es[j].id, Join(path, ContainerName(Labels(g, snake, es), j)), cur);
            var rest := WalkContainer(g, snake, es, j + 1, path, first.visited);
            WalkContainer(g, snake, es, j, path, cur) == Step(rest.visited, first.visits + rest.visits)
  {
  }

  /** The bookkeeping of one iteration of a container loop at a trackable
      item: the visits done so far, then the item's walk, then the rest of the
      container make up the whole walk, and the calls split alike. */
  lemma ContainerIteration(g: Graph, snake: string -> string, d: Direction, w: bool, a: bool,
                           es: seq<Elem>, j: nat, path: string, cur: set<nat>, done: seq<Visit>, whole: seq<Visit>)
    requires ValidGraph(g) && ElemsRefsIn(es, |g|) && j < |es| && es[j].Trackable?
    requires whole == done + WalkContainer(g, snake, es, j, path, cur).visits
    ensures es[j].id < |g|
    ensures var first := WalkNode(g, snake, es[j].id, Join(path, ContainerName(Labels(g, snake, es), j)), cur);
            var rest := WalkContainer(g, snake, es, j + 1, path, first.visited);
            && rest.visited == WalkContainer(g, snake, es, j, path, cur).visited
            && whole == (done + first.visits) + rest.visits
            && Calls(g, d, w, a, done + first.visits) == Calls(g, d, w, a, done) + Calls(g, d, w, a, first.visits)
  {
    TrackableStep(g, snake, es, j, path, cur);
    var first := WalkNode(g, snake, es[j].id, Join(path, ContainerName(Labels(g, snake, es), j)), cur);
    Assoc(done, first.visits, WalkContainer(g, snake, es, j + 1, path, first.visited).visits);
    CallsConcat(g, d, w, a, done, first.visits);
  }

  /** One iteration of the loop over a container, at an item that is not
      trackable: nothing happens. */
  lemma PlainStep(g: Graph, snake: string -> string, es: seq<Elem>, j: nat, path: string, cur: set<nat>)
    requires ValidGraph(g) && ElemsRefsIn(es, |g|) && j < |es| && !es[j].Trackable?
    ensures WalkContainer(g, snake, es, j, path, cur) == WalkContainer(g, snake, es, j + 1, path, cur)
  {
    assert [] + WalkContainer(g, snake, es, j + 1, path, cur).visits == WalkContainer(g, snake, es, j + 1, path, cur).visits;
  }

  /** `used_names` after the first `j` items, as the container loop builds it. */
  ghost function UsedNames(ls: seq<Option<string>>, j: nat): map<string, nat>
    requires j <= |ls|
  {
    if j == 0 then map[]
    else
      var m := UsedNames(ls, j - 1);
      match ls[j - 1]
      case None => m
      case Some(b) => if b in m then m[b := m[b] + 1] else m[b := 0]
  }

  /** The counters hold, for each label seen, one less than the number of
      times it was seen, and nothing for labels not seen. */
  lemma {:induction false} UsedNamesCount(ls: seq<Option<string>>, j: nat, b: string)
    requires j <= |ls|
    ensures b in UsedNames(ls, j) <==> Occurrences(ls[..j], b) > 0
    ensures b in UsedNames(ls, j) ==> UsedNames(ls, j)[b] + 1 == Occurrences(ls[..j], b)
  {
    if j > 0 {
      UsedNamesCount(ls, j - 1, b);
      assert ls[..j][..j - 1] == ls[..j - 1];
    }
  }

  /** The name the loop gives item `j` from its counters is the reference
      `ContainerName`. */
  lemma UsedNamesNaming(ls: seq<Option<string>>, j: nat)
    requires j < |ls| && ls[j].Some?
    ensures var b := ls[j].value;
            var m := UsedNames(ls, j);
            ContainerName(ls, j) == if b in m then b + "_" + NatToString(m[b] + 1) else b
  {
    UsedNamesCount(ls, j, ls[j].value);
  }

  /* ---------------------------------------------------------------------------
     Save and load are mirror images.
     --------------------------------------------------------------------------- */

  /** The same calls with every `make` turned into a `get`. */
  function AsLoad(cs: seq<Call>): seq<Call>
  {
    seq(|cs|, k requires 0 <= k < |cs| => cs[k].(dir := Load))
  }

  /** The classes of `g2` load what the classes of `g1` save: each node has a
      variable load hook exactly when its counterpart has a variable save hook,
      and likewise for assets. */
  predicate HooksPaired(g1: Graph, g2: Graph)
  {
    |g1| == |g2| &&
    forall i :: 0 <= i < |g1| ==>
      g2[i].hooks.loadVars == g1[i].hooks.saveVars && g2[i].hooks.loadAssets == g1[i].hooks.saveAssets
  }

  lemma AsLoadConcat(x: seq<Call>, y: seq<Call>)
    ensures AsLoad(x + y) == AsLoad(x) + AsLoad(y)
  {
  }

  lemma PairedVisitCalls(g1: Graph, g2: Graph, w: bool, a: bool, v: Visit)
    requires HooksPaired(g1, g2)
    ensures VisitCalls(g2, Load, w, a, v) == AsLoad(VisitCalls(g1, Save, w, a, v))
  {
  }

  lemma {:induction false} PairedCalls(g1: Graph, g2: Graph, w: bool, a: bool, t: seq<Visit>)
    requires HooksPaired(g1, g2)
    ensures Calls(g2, Load, w, a, t) == AsLoad(Calls(g1, Save, w, a, t))
  {
    if |t| != 0 {
      PairedCalls(g1, g2, w, a, t[1..]);
      PairedVisitCalls(g1, g2, w, a, t[0]);
      AsLoadConcat(VisitCalls(g1, Save, w, a, t[0]), Calls(g1, Save, w, a, t[1..]));
    }
  }


  /** Saving `g1` and then loading into a graph `g2` of the same shape whose
      hooks pair with `g1`'s makes exactly the save's calls with each `make`
      turned into a `get` at the same store and path, in the same order. */
  lemma SaveLoadSymmetric(g1: Graph, g2: Graph, snake: string -> string, w: bool, a: bool,
                            root: nat, path: string, visited: set<nat>)
    requires ValidGraph(g1) && ValidGraph(g2) && SameShape(g1, g2) && HooksPaired(g1, g2) && root < |g1|
    ensures Calls(g2, Load, w, a, WalkNode(g2, snake, root, path, visited).visits)
            == AsLoad(Calls(g1, Save, w, a, WalkNode(g1, snake, root, path, visited).visits))
  {
    WalkNodeShapeOnly(g1, g2, snake, root, path, visited);
    PairedCalls(g1, g2, w, a, WalkNode(g1, snake, root, path, visited).visits);
  }

  /** Hence every `get` of the load is at a location some `make` of the save
      wrote. */
  lemma EveryGetWasMade(g1: Graph, g2: Graph, snake: string -> string, w: bool, a: bool, root: nat)
    requires ValidGraph(g1) && ValidGraph(g2) && SameShape(g1, g2) && HooksPaired(g1, g2) && root < |g1|
    ensures var saved := Calls(g1, Save, w, a, WalkNode(g1, snake, root, "", {}).visits);
            var loaded := Calls(g2, Load, w, a, WalkNode(g2, snake, root, "", {}).visits);
            forall c :: c in loaded ==> exists m :: m in saved && m.store == c.store && m.path == c.path
  {
    var saved := Calls(g1, Save, w, a, WalkNode(g1, snake, root, "", {}).visits);
    var loaded := Calls(g2, Load, w, a, WalkNode(g2, snake, root, "", {}).visits);
    SaveLoadSymmetric(g1, g2, snake, w, a, root, "", {});
    forall c | c in loaded ensures exists m :: m in saved && m.store == c.store && m.path == c.path {
      var k :| 0 <= k < |loaded| && loaded[k] == c;
      assert saved[k] in saved;
    }
  }
}
