/** The store side of a walk. Each walk returns the hook calls it makes, in
    order (module Walker). Here is what those calls do to a store: a fold per
    store states the store's contents after the calls, and a method per store
    carries the calls out on a store object. The folds are what the top-level
    entry points are specified with. */
module Replay {
  import opened Results
  import opened Paths
  import opened ObjectGraph
  import opened Walk
  import opened Walker
  import opened Stores

  /* ---------------------------------------------------------------------------
     Where the calls of a walk come from
     --------------------------------------------------------------------------- */

  predicate CallsIn(cs: seq<Call>, size: nat)
  {
    forall k :: 0 <= k < |cs| ==> cs[k].id < size
  }

  /** No asset hook is called: the walk was given no asset store. */
  predicate NoAssetCalls(cs: seq<Call>)
  {
    forall k :: 0 <= k < |cs| ==> cs[k].store == WeightsStore
  }

  /** Node `id`'s class defines the variable hook of direction `d`. */
  predicate HasVarsHook(g: Graph, d: Direction, id: nat)
    requires id < |g|
  {
    if d == Save then g[id].hooks.saveVars else g[id].hooks.loadVars
  }

  /** Node `id`'s class defines the asset hook of direction `d`. */
  predicate HasAssetsHook(g: Graph, d: Direction, id: nat)
    requires id < |g|
  {
    if d == Save then g[id].hooks.saveAssets else g[id].hooks.loadAssets
  }

  /** Every call is made at a visit, to a hook the node's class defines, and
      only into a store the walk was given. */
  lemma {:induction false} CallOrigin(g: Graph, d: Direction, w: bool, a: bool, t: seq<Visit>, c: Call)
    requires c in Calls(g, d, w, a, t)
    ensures Visit(c.id, c.path) in t && c.dir == d && c.id < |g|
    ensures c.store == WeightsStore ==> w && HasVarsHook(g, d, c.id)
    ensures c.store == AssetsStore ==> a && HasAssetsHook(g, d, c.id)
  {
    if c !in VisitCalls(g, d, w, a, t[0]) {
      CallOrigin(g, d, w, a, t[1..], c);
      assert Visit(c.id, c.path) in t[1..];
    }
  }

  /** Conversely, every visit whose class defines the variable hook makes the
      variable call at its path when a weights store is given. */
  lemma {:induction false} CallOfVisit(g: Graph, d: Direction, w: bool, a: bool, t: seq<Visit>, v: Visit)
    requires v in t && v.id < |g| && w && HasVarsHook(g, d, v.id)
    ensures Call(d, WeightsStore, v.id, v.path) in Calls(g, d, w, a, t)
  {
    if t[0] == v {
      assert VisitCalls(g, d, w, a, v)[0] == Call(d, WeightsStore, v.id, v.path);
    } else {
      assert v in t[1..];
      CallOfVisit(g, d, w, a, t[1..], v);
    }
  }

  /** The calls of a walk name nodes of the graph, and with no asset store
      none of them is an asset call. */
  lemma CallsInGraph(g: Graph, d: Direction, w: bool, a: bool, t: seq<Visit>)
    ensures CallsIn(Calls(g, d, w, a, t), |g|)
    ensures !a ==> NoAssetCalls(Calls(g, d, w, a, t))
  {
    var cs := Calls(g, d, w, a, t);
    forall k | 0 <= k < |cs| ensures cs[k].id < |g| && (!a ==> cs[k].store == WeightsStore) {
      CallOrigin(g, d, w, a, t, cs[k]);
    }
  }

  /** No two variable calls address the same `NpzIOStore` key. */
  predicate WeightsKeysDistinct(cs: seq<Call>)
  {
    forall j, k :: 0 <= j < k < |cs| && cs[j].store == WeightsStore && cs[k].store == WeightsStore ==>
      NpzKey(cs[j].path) != NpzKey(cs[k].path)
  }

  /** The calls of one visit are made at its path, and at most the first of
      them is a variable call. */
  lemma VisitCallsShape(g: Graph, d: Direction, w: bool, a: bool, v: Visit)
    ensures forall c :: c in VisitCalls(g, d, w, a, v) ==> c.path == v.path
    ensures var head := VisitCalls(g, d, w, a, v);
            forall k :: 0 < k < |head| ==> head[k].store == AssetsStore
  {
  }

  /** Prepending calls at one path, with at most one variable call among
      them, to calls whose variable keys are distinct and differ from that
      path's key keeps the keys distinct. */
  lemma KeysDistinctPrepend(head: seq<Call>, tail: seq<Call>, p: string)
    requires forall c :: c in head ==> c.path == p
    requires forall k :: 0 < k < |head| ==> head[k].store == AssetsStore
    requires forall k :: 0 <= k < |tail| && tail[k].store == WeightsStore ==> NpzKey(tail[k].path) != NpzKey(p)
    requires WeightsKeysDistinct(tail)
    ensures WeightsKeysDistinct(head + tail)
  {
    var cs := head + tail;
    forall j, k | 0 <= j < k < |cs| && cs[j].store == WeightsStore && cs[k].store == WeightsStore
      ensures NpzKey(cs[j].path) != NpzKey(cs[k].path)
    {
      if j >= |head| {
        assert cs[j] == tail[j - |head|] && cs[k] == tail[k - |head|];
      } else {
        assert cs[j] == head[j] && cs[j] in head;
        assert cs[k] == tail[k - |head|];
      }
    }
  }

  /** When the first visit is the root's, at the root path, and no two
      visits share a path, a variable call at the root path exists exactly
      when the root has the variable hook. */
  lemma RootVarsCall(g: Graph, d: Direction, a: bool, t: seq<Visit>, root: nat, cs: seq<Call>)
    requires DistinctPaths(t) && |t| > 0 && t[0] == Visit(root, "") && root < |g|
    requires cs == Calls(g, d, true, a, t)
    ensures (exists k :: 0 <= k < |cs| && cs[k].store == WeightsStore && cs[k].path == "") <==> HasVarsHook(g, d, root)
  {
    if HasVarsHook(g, d, root) {
      CallOfVisit(g, d, true, a, t, t[0]);
      var k :| 0 <= k < |cs| && cs[k] == Call(d, WeightsStore, root, "");
    }
    if exists k :: 0 <= k < |cs| && cs[k].store == WeightsStore && cs[k].path == "" {
      var k :| 0 <= k < |cs| && cs[k].store == WeightsStore && cs[k].path == "";
      CallOrigin(g, d, true, a, t, cs[k]);
      var j :| 0 <= j < |t| && t[j] == Visit(cs[k].id, "");
      assert t[j].path == t[0].path;
      assert j == 0;
    }
  }

  /** Visits at distinct paths, none of them the reserved key, make variable
      calls at distinct keys. */
  lemma {:induction false} DistinctVisitsDistinctKeys(g: Graph, d: Direction, w: bool, a: bool, t: seq<Visit>)
    requires DistinctPaths(t)
    requires forall k :: 0 <= k < |t| ==> t[k].path != RootKey
    ensures WeightsKeysDistinct(Calls(g, d, w, a, t))
  {
    if |t| != 0 {
      var rest := t[1..];
      var tail := Calls(g, d, w, a, rest);
      assert DistinctPaths(rest) by {
        forall j, k | 0 <= j < k < |rest| ensures rest[j].path != rest[k].path {
          assert rest[j] == t[j + 1] && rest[k] == t[k + 1];
        }
      }
      DistinctVisitsDistinctKeys(g, d, w, a, rest);
      VisitCallsShape(g, d, w, a, t[0]);
      forall k | 0 <= k < |tail| && tail[k].store == WeightsStore
        ensures NpzKey(tail[k].path) != NpzKey(t[0].path)
      {
        CallOrigin(g, d, w, a, rest, tail[k]);
        var m :| 0 <= m < |rest| && rest[m] == Visit(tail[k].id, tail[k].path);
        assert rest[m] == t[m + 1];
        NpzKeyInjective(t[0].path, tail[k].path);
      }
      KeysDistinctPrepend(VisitCalls(g, d, w, a, t[0]), tail, t[0].path);
    }
  }

  /* ---------------------------------------------------------------------------
     NpzIOStore: saving
     --------------------------------------------------------------------------- */

  /** One call against an `NpzIOStore`: a variable hook gets a fresh entry
      from `make` and stores its node's variables in it; an asset call does not
      touch this store. */
  function NpzSaveStep(contents: map<string, Vars>, g: Graph, c: Call): map<string, Vars>
    requires c.id < |g|
  {
    if c.store == WeightsStore then Filled(NpzMade(contents, c.path), NpzKey(c.path), g[c.id].vars)
    else contents
  }

  /** The contents after the calls `cs`, in order. */
  function NpzSaved(contents: map<string, Vars>, g: Graph, cs: seq<Call>): map<string, Vars>
    requires CallsIn(cs, |g|)
    decreases |cs|
  {
    if cs == [] then contents
    else NpzSaved(NpzSaveStep(contents, g, cs[0]), g, cs[1..])
  }

  /** Some variable call of `cs` is at the path `p`. */
  predicate SavesVarsAt(cs: seq<Call>, p: string)
  {
    exists k :: 0 <= k < |cs| && cs[k].store == WeightsStore && cs[k].path == p
  }

  /** A path that is neither empty nor `__root__` has an entry after the
      calls exactly when a variable call was made at it. */
  lemma NpzSavedHasPath(g: Graph, cs: seq<Call>, p: string)
    requires CallsIn(cs, |g|) && p != "" && p != RootKey
    ensures p in NpzSaved(map[], g, cs) <==> SavesVarsAt(cs, p)
  {
    NpzSavedKeys(map[], g, cs, p);
  }

  /** A key holds an entry after the calls `cs` exactly when it held one
      before or some variable call made it. */
  lemma {:induction false} NpzSavedKeys(contents: map<string, Vars>, g: Graph, cs: seq<Call>, key: string)
    requires CallsIn(cs, |g|)
    ensures key in NpzSaved(contents, g, cs) <==>
              key in contents || exists k :: 0 <= k < |cs| && cs[k].store == WeightsStore && NpzKey(cs[k].path) == key
    decreases |cs|
  {
    if cs != [] {
      var rest := cs[1..];
      assert forall k :: 0 <= k < |rest| ==> rest[k] == cs[k + 1];
      var next := NpzSaveStep(contents, g, cs[0]);
      NpzSavedKeys(next, g, rest, key);
      if exists k :: 0 <= k < |cs| && cs[k].store == WeightsStore && NpzKey(cs[k].path) == key {
        var k :| 0 <= k < |cs| && cs[k].store == WeightsStore && NpzKey(cs[k].path) == key;
        if k > 0 {
          assert rest[k - 1] == cs[k];
        }
      }
    }
  }

  /** Calls at other keys leave an entry alone. */
  lemma {:induction false} NpzSavedKeepsOthers(contents: map<string, Vars>, g: Graph, cs: seq<Call>, p: string)
    requires CallsIn(cs, |g|)
    requires forall k :: 0 <= k < |cs| && cs[k].store == WeightsStore ==> NpzKey(cs[k].path) != NpzKey(p)
    ensures NpzLookup(NpzSaved(contents, g, cs), p) == NpzLookup(contents, p)
    decreases |cs|
  {
    if cs != [] {
      if cs[0].store == WeightsStore {
        NpzMakeLeavesOthers(contents, cs[0].path, p, g[cs[0].id].vars);
      }
      var rest := cs[1..];
      assert forall k :: 0 <= k < |rest| ==> rest[k] == cs[k + 1];
      NpzSavedKeepsOthers(NpzSaveStep(contents, g, cs[0]), g, rest, p);
    }
  }

  /** When the variable calls use distinct keys, each key ends up holding
      exactly the variables of the node whose hook wrote it. */
  lemma {:induction false} NpzSavedHolds(contents: map<string, Vars>, g: Graph, cs: seq<Call>, k: nat)
    requires CallsIn(cs, |g|) && WeightsKeysDistinct(cs)
    requires k < |cs| && cs[k].store == WeightsStore
    ensures NpzLookup(NpzSaved(contents, g, cs), cs[k].path) == g[cs[k].id].vars
    decreases k
  {
    var rest := cs[1..];
    assert forall m :: 0 <= m < |rest| ==> rest[m] == cs[m + 1];
    var next := NpzSaveStep(contents, g, cs[0]);
    if k == 0 {
      NpzGetAfterMake(contents, cs[0].path, g[cs[0].id].vars);
      NpzSavedKeepsOthers(next, g, rest, cs[0].path);
    } else {
      NpzSavedHolds(next, g, rest, k - 1);
    }
  }

  /** `_save_state`'s calls carried out on an `NpzIOStore`. */
  method SaveVarsNpz(store: NpzIOStore, g: Graph, cs: seq<Call>)
    requires CallsIn(cs, |g|)
    modifies store
    ensures store.contents == NpzSaved(old(store.contents), g, cs)
  {
    var k := 0;
    while k < |cs|
      invariant 0 <= k <= |cs|
      invariant NpzSaved(old(store.contents), g, cs) == NpzSaved(store.contents, g, cs[k..])
    {
      var c := cs[k];
      assert cs[k..][0] == c && cs[k..][1..] == cs[k + 1..];
      if c.store == WeightsStore {
        var key := store.Make(c.path);
        store.Fill(key, g[c.id].vars);
      }
      k := k + 1;
    }
  }

  /* ---------------------------------------------------------------------------
     H5IOStore: saving
     --------------------------------------------------------------------------- */

  /** An HDF5 file: its groups and the datasets each group holds. */
  datatype H5File = H5File(groups: set<string>, data: map<string, Vars>)

  /** One call against an `H5IOStore`: `make` may raise, which ends the save. */
  function H5SaveStep(f: H5File, g: Graph, c: Call): Result<H5File>
    requires c.id < |g|
  {
    if c.store != WeightsStore then Ok(f)
    else match H5MakeResult(f.groups, c.path)
      case Err(e) => Err(e)
      case Ok(vg) => Ok(H5File(H5MadeGroups(f.groups, c.path), f.data[vg := DataAt(f.data, vg) + g[c.id].vars]))
  }

  /** The file after the calls `cs`, or the first error. */
  function H5Saved(f: H5File, g: Graph, cs: seq<Call>): Result<H5File>
    requires CallsIn(cs, |g|)
    decreases |cs|
  {
    if cs == [] then Ok(f)
    else match H5SaveStep(f, g, cs[0])
      case Err(e) => Err(e)
      case Ok(next) => H5Saved(next, g, cs[1..])
  }

  /** Saving keeps an HDF5 file well formed, and `make` raises only
      `ValueError`. */
  lemma {:induction false} H5SavedValid(f: H5File, g: Graph, cs: seq<Call>)
    requires CallsIn(cs, |g|) && H5Valid(f.groups, f.data)
    ensures H5Saved(f, g, cs).Ok? ==> H5Valid(H5Saved(f, g, cs).value.groups, H5Saved(f, g, cs).value.data)
    ensures H5Saved(f, g, cs).Err? ==> H5Saved(f, g, cs).error == ValueError
    decreases |cs|
  {
    if cs != [] {
      var c := cs[0];
      var rest := cs[1..];
      assert forall m :: 0 <= m < |rest| ==> rest[m] == cs[m + 1];
      if c.store == WeightsStore {
        H5MakeFailsIffPresent(f.groups, f.data, c.path);
        if H5MakeResult(f.groups, c.path).Ok? {
          H5GetAfterMake(f.groups, f.data, c.path, g[c.id].vars);
          H5SavedValid(H5SaveStep(f, g, c).value, g, rest);
        }
      } else {
        H5SavedValid(f, g, rest);
      }
    }
  }

  /** `_save_state`'s calls carried out on an `H5IOStore`, stopping at the
      first `make` that raises. */
  method SaveVarsH5(store: H5IOStore, g: Graph, cs: seq<Call>) returns (o: Outcome)
    requires CallsIn(cs, |g|)
    modifies store
    ensures match H5Saved(H5File(old(store.groups), old(store.data)), g, cs)
      case Ok(f) => o == Pass && store.groups == f.groups && store.data == f.data
      case Err(e) => o == Fail(e)
  {
    ghost var start := H5File(store.groups, store.data);
    var k := 0;
    while k < |cs|
      invariant 0 <= k <= |cs|
      invariant H5Saved(start, g, cs) == H5Saved(H5File(store.groups, store.data), g, cs[k..])
    {
      var c := cs[k];
      assert cs[k..][0] == c && cs[k..][1..] == cs[k + 1..];
      if c.store == WeightsStore {
        var r := store.Make(c.path);
        if r.Err? {
          return Fail(r.error);
        }
        assert r.value in store.groups by {
          assert r.value in Ancestors(r.value);
        }
        store.Fill(r.value, g[c.id].vars);
      }
      k := k + 1;
    }
    return Pass;
  }

  /* ---------------------------------------------------------------------------
     DiskIOStore: saving
     --------------------------------------------------------------------------- */

  /** The directory tree of a `DiskIOStore`. */
  datatype AssetsDir = AssetsDir(tmp: Option<string>, dirs: set<string>, files: set<string>)

  /** One call against a write-mode `DiskIOStore`: an asset hook gets the
      directory `make` returns and writes its node's files into it. */
  function DiskSaveStep(a: AssetsDir, g: Graph, c: Call): (r: AssetsDir)
    requires a.tmp.Some? && c.id < |g|
    ensures r.tmp == a.tmp && a.files <= r.files
  {
    if c.store != AssetsStore then a
    else
      var dir := DiskMakeResult(a.tmp, c.path).value.value;
      AssetsDir(a.tmp, DiskMadeDirs(a.tmp, a.dirs, a.files, c.path), a.files + AssetPaths(dir, g[c.id].assetFiles))
  }

  /** The tree after the calls `cs`. In write mode there is always a
      temporary directory, so no call raises. */
  function DiskSaved(a: AssetsDir, g: Graph, cs: seq<Call>): (r: AssetsDir)
    requires a.tmp.Some? && CallsIn(cs, |g|)
    ensures r.tmp == a.tmp && a.files <= r.files
    decreases |cs|
  {
    if cs == [] then a
    else DiskSaved(DiskSaveStep(a, g, cs[0]), g, cs[1..])
  }

  /** Every file an asset hook writes is in the tree afterwards, in the
      directory `make` handed to that hook. */
  lemma {:induction false} DiskSavedHolds(a: AssetsDir, g: Graph, cs: seq<Call>, k: nat, name: string)
    requires a.tmp.Some? && CallsIn(cs, |g|)
    requires k < |cs| && cs[k].store == AssetsStore && name in g[cs[k].id].assetFiles
    ensures Join(DiskMakeResult(a.tmp, cs[k].path).value.value, name) in DiskSaved(a, g, cs).files
    decreases k
  {
    var rest := cs[1..];
    assert forall m :: 0 <= m < |rest| ==> rest[m] == cs[m + 1];
    if k > 0 {
      DiskSavedHolds(DiskSaveStep(a, g, cs[0]), g, rest, k - 1, name);
    }
  }

  /** The asset hooks of `_save_state`'s calls carried out on a write-mode
      `DiskIOStore`. */
  method SaveAssets(store: DiskIOStore, g: Graph, cs: seq<Call>)
    requires store.tmpDir.Some? && CallsIn(cs, |g|)
    modifies store
    ensures AssetsDir(store.tmpDir, store.dirs, store.files) == DiskSaved(AssetsDir(store.tmpDir, old(store.dirs), old(store.files)), g, cs)
  {
    ghost var start := AssetsDir(store.tmpDir, store.dirs, store.files);
    var k := 0;
    while k < |cs|
      invariant 0 <= k <= |cs|
      invariant DiskSaved(start, g, cs) == DiskSaved(AssetsDir(store.tmpDir, store.dirs, store.files), g, cs[k..])
    {
      var c := cs[k];
      assert cs[k..][0] == c && cs[k..][1..] == cs[k + 1..];
      if c.store == AssetsStore {
        var r := store.Make(c.path);
        store.WriteAssets(r.value.value, g[c.id].assetFiles);
      }
      k := k + 1;
    }
  }

  /* ---------------------------------------------------------------------------
     Loading: what each hook receives
     --------------------------------------------------------------------------- */

  /** The weights a load reads from. */
  datatype WeightsFile = NpzWeights(contents: map<string, Vars>) | H5Weights(file: H5File)

  /** What one load hook is handed: `_load_own_variables` a dict of variables,
      `_load_assets` a directory or `None`. */
  datatype Received = VarsReceived(vars: Vars) | DirReceived(dir: Option<string>)

  /** `get(path)` on the weights store. */
  function WeightsLookup(w: WeightsFile, path: string): Result<Vars>
  {
    match w
    case NpzWeights(c) => NpzReadLookup(c, path)
    case H5Weights(f) => H5Lookup(f.groups, f.data, path)
  }

  /** An asset call needs an asset store; the walk makes none without one. */
  predicate Servable(a: Option<AssetsDir>, cs: seq<Call>)
  {
    a.None? ==> NoAssetCalls(cs)
  }

  /** What one load call hands its hook, or the error `get` raises. */
  function Receive(w: WeightsFile, a: Option<AssetsDir>, c: Call): Result<Received>
    requires c.store == AssetsStore ==> a.Some?
  {
    if c.store == WeightsStore then
      match WeightsLookup(w, c.path)
      case Ok(v) => Ok(VarsReceived(v))
      case Err(e) => Err(e)
    else
      match DiskLookup(a.value.tmp, a.value.dirs, a.value.files, c.path)
      case Ok(d) => Ok(DirReceived(d))
      case Err(e) => Err(e)
  }

  /** What the load calls `cs` hand their hooks, in order, or the first error. */
  function ReceivedAll(w: WeightsFile, a: Option<AssetsDir>, cs: seq<Call>): Result<seq<Received>>
    requires Servable(a, cs)
  {
    if cs == [] then Ok([])
    else
      assert Servable(a, cs[1..]) by {
        if a.None? {
          assert forall k :: 0 <= k < |cs[1..]| ==> cs[1..][k] == cs[k + 1];
        }
      }
      match Receive(w, a, cs[0])
      case Err(e) => Err(e)
      case Ok(x) =>
        match ReceivedAll(w, a, cs[1..])
        case Err(e) => Err(e)
        case Ok(xs) => Ok([x] + xs)
  }

  /** The results `done` already handed out, followed by those of `r`. */
  function Prefixed(done: seq<Received>, r: Result<seq<Received>>): Result<seq<Received>>
  {
    match r
    case Err(e) => Err(e)
    case Ok(xs) => Ok(done + xs)
  }

  lemma PrefixedNothing(r: Result<seq<Received>>)
    ensures Prefixed([], r) == r
  {
    if r.Ok? {
      assert [] + r.value == r.value;
    }
  }

  lemma PrefixedStep(done: seq<Received>, x: Received, r: Result<seq<Received>>)
    ensures Prefixed(done, Prefixed([x], r)) == Prefixed(done + [x], r)
  {
    if r.Ok? {
      assert done + ([x] + r.value) == (done + [x]) + r.value;
    }
  }

  /** Some call of `cs` is at the root path. */
  predicate ReadsRoot(cs: seq<Call>)
  {
    exists k :: 0 <= k < |cs| && cs[k].path == ""
  }

  /** Loading from an `.npz` with no asset store: when the file has a root
      entry and some variable hook reads the root, the load raises
      `TypeError`; otherwise every variable hook receives the entry at its
      path. */
  lemma {:induction false} NpzReceivedAll(contents: map<string, Vars>, cs: seq<Call>)
    requires NoAssetCalls(cs)
    ensures RootKey in contents && ReadsRoot(cs) ==> ReceivedAll(NpzWeights(contents), None, cs) == Err(TypeError)
    ensures !(RootKey in contents && ReadsRoot(cs)) ==>
              ReceivedAll(NpzWeights(contents), None, cs)
              == Ok(seq(|cs|, k requires 0 <= k < |cs| => VarsReceived(NpzLookup(contents, cs[k].path))))
  {
    var w := NpzWeights(contents);
    if cs != [] {
      var rest := cs[1..];
      assert forall k :: 0 <= k < |rest| ==> rest[k] == cs[k + 1];
      NpzReceivedAll(contents, rest);
      if cs[0].path == "" && RootKey in contents {
        assert Receive(w, None, cs[0]) == Err(TypeError);
        assert ReadsRoot(cs) by { assert cs[0].path == ""; }
      } else {
        assert ReadsRoot(cs) && RootKey in contents ==> ReadsRoot(rest) by {
          if ReadsRoot(cs) && RootKey in contents {
            var k :| 0 <= k < |cs| && cs[k].path == "";
            assert rest[k - 1].path == "";
          }
        }
        assert ReadsRoot(rest) ==> ReadsRoot(cs) by {
          if ReadsRoot(rest) {
            var k :| 0 <= k < |rest| && rest[k].path == "";
            assert cs[k + 1].path == "";
          }
        }
        assert Receive(w, None, cs[0]) == Ok(VarsReceived(NpzLookup(contents, cs[0].path)));
        if !(RootKey in contents && ReadsRoot(cs)) {
          var xs := seq(|rest|, k requires 0 <= k < |rest| => VarsReceived(NpzLookup(contents, rest[k].path)));
          var all := seq(|cs|, k requires 0 <= k < |cs| => VarsReceived(NpzLookup(contents, cs[k].path)));
          assert [VarsReceived(NpzLookup(contents, cs[0].path))] + xs == all;
        }
      }
    } else {
      assert seq(|cs|, k requires 0 <= k < |cs| => VarsReceived(NpzLookup(contents, cs[k].path))) == [];
    }
  }

  /** The asset store a load reads from, as seen by `ReceivedAll`. */
  function DiskView(store: DiskIOStore?): Option<AssetsDir>
    reads store
  {
    if store == null then None else Some(AssetsDir(store.tmpDir, store.dirs, store.files))
  }

  /** `_load_state`'s calls carried out on an `NpzIOStore` and an optional
      `DiskIOStore`. */
  method LoadFromNpz(store: NpzIOStore, disk: DiskIOStore?, cs: seq<Call>) returns (r: Result<seq<Received>>)
    requires store.reading && Servable(DiskView(disk), cs)
    ensures r == ReceivedAll(NpzWeights(store.contents), DiskView(disk), cs)
  {
    ghost var w := NpzWeights(store.contents);
    ghost var a := DiskView(disk);
    var done: seq<Received> := [];
    PrefixedNothing(ReceivedAll(w, a, cs));
    var k := 0;
    while k < |cs|
      invariant 0 <= k <= |cs|
      invariant Servable(a, cs[k..])
      invariant ReceivedAll(w, a, cs) == Prefixed(done, ReceivedAll(w, a, cs[k..]))
    {
      var c := cs[k];
      assert cs[k..][0] == c && cs[k..][1..] == cs[k + 1..];
      var x;
      if c.store == WeightsStore {
        var v := store.Get(c.path);
        if v.Err? {
          return Err(v.error);
        }
        x := VarsReceived(v.value);
      } else {
        var d := disk.Get(c.path);
        if d.Err? {
          return Err(d.error);
        }
        x := DirReceived(d.value);
      }
      PrefixedStep(done, x, ReceivedAll(w, a, cs[k + 1..]));
      done := done + [x];
      k := k + 1;
    }
    assert cs[k..] == [] && done + [] == done;
    return Ok(done);
  }

  /** `_load_state`'s calls carried out on an `H5IOStore` and an optional
      `DiskIOStore`. */
  method LoadFromH5(store: H5IOStore, disk: DiskIOStore?, cs: seq<Call>) returns (r: Result<seq<Received>>)
    requires Servable(DiskView(disk), cs)
    ensures r == ReceivedAll(H5Weights(H5File(store.groups, store.data)), DiskView(disk), cs)
  {
    ghost var w := H5Weights(H5File(store.groups, store.data));
    ghost var a := DiskView(disk);
    var done: seq<Received> := [];
    PrefixedNothing(ReceivedAll(w, a, cs));
    var k := 0;
    while k < |cs|
      invariant 0 <= k <= |cs|
      invariant Servable(a, cs[k..])
      invariant ReceivedAll(w, a, cs) == Prefixed(done, ReceivedAll(w, a, cs[k..]))
    {
      var c := cs[k];
      assert cs[k..][0] == c && cs[k..][1..] == cs[k + 1..];
      var x;
      if c.store == WeightsStore {
        var v := store.Get(c.path);
        if v.Err? {
          return Err(v.error);
        }
        x := VarsReceived(v.value);
      } else {
        var d := disk.Get(c.path);
        if d.Err? {
          return Err(d.error);
        }
        x := DirReceived(d.value);
      }
      PrefixedStep(done, x, ReceivedAll(w, a, cs[k + 1..]));
      done := done + [x];
      k := k + 1;
    }
    assert cs[k..] == [] && done + [] == done;
    return Ok(done);
  }
}
