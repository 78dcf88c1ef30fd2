/** The three path-addressed stores: `NpzIOStore` and `H5IOStore` hold each
    node's variables, `DiskIOStore` holds its asset files. Each is a class whose
    methods update its fields as `make` and `get` do; what a call does is stated
    by a function of the store's contents, and the lemmas are about those
    functions. The HDF5 file, the `.npz` serialisation and the file system are
    seen only through these contents. */
module Stores {
  import opened Results
  import opened Paths
  import opened ObjectGraph

  /** The non-empty prefixes of `p` that end at a component boundary: the
      groups `create_group(p)`, or the directories `makedirs(p)`, bring into
      existence. */
  function Ancestors(p: string): (r: set<string>)
    ensures p != "" ==> p in r
  {
    assert p != "" ==> p[..|p|] == p;
    set k | 0 < k <= |p| && (k == |p| || p[k] == '/') :: p[..k]
  }

  /** Every group's parent groups exist too, as in any HDF5 file. */
  predicate AncestorClosed(groups: set<string>)
  {
    forall q, k :: q in groups && 0 < k < |q| && q[k] == '/' ==> q[..k] in groups
  }

  lemma AncestorsClosed(groups: set<string>, p: string)
    requires AncestorClosed(groups)
    ensures AncestorClosed(groups + Ancestors(p))
  {
    forall q, k | q in groups + Ancestors(p) && 0 < k < |q| && q[k] == '/' ensures q[..k] in groups + Ancestors(p) {
      if q !in groups {
        var m :| 0 < m <= |p| && (m == |p| || p[m] == '/') && p[..m] == q;
        assert q[..k] == p[..k];
      }
    }
  }

  /** A group that does not exist has no group below it. */
  lemma AbsentHasNoDescendant(groups: set<string>, p: string, s: string)
    requires AncestorClosed(groups) && p != "" && p !in groups
    ensures p + "/" + s !in groups
  {
    var q := p + "/" + s;
    assert q[|p|] == '/' && q[..|p|] == p;
  }

  /* ---------------------------------------------------------------------------
     NpzIOStore
     --------------------------------------------------------------------------- */

  /** The key the empty path is stored under. */
  const RootKey: string := "__root__"

  /** The dict key of a path. */
  function NpzKey(path: string): string
  {
    if path == "" then RootKey else path
  }

  /** `make(path)`: a fresh empty entry at the path's key, overwriting any
      earlier one. */
  function NpzMade(contents: map<string, Vars>, path: string): map<string, Vars>
  {
    contents[NpzKey(path) := map[]]
  }

  /** The entry the saved dict holds at the path's key, `{}` when there is
      none. A store reopened for reading returns it through `get` at every
      path but the root (`NpzReadLookup`); on the store that filled the dict,
      `get` returns it at the root and for absent keys (`NpzWriteLookup`). */
  function NpzLookup(contents: map<string, Vars>, path: string): Vars
  {
    if NpzKey(path) in contents then contents[NpzKey(path)] else map[]
  }

  /** `get(path)` on a store opened for writing. Its entries are the plain
      dicts `make` stored: `dict()` copies the root one, but a dict has no
      `.tolist()`, so `get` at any other path that holds an entry raises
      `AttributeError`. */
  function NpzWriteLookup(contents: map<string, Vars>, path: string): (r: Result<Vars>)
    ensures r.Err? <==> path != "" && path in contents
    ensures r.Err? ==> r.error == AttributeError
    ensures r.Ok? ==> r.value == NpzLookup(contents, path)
  {
    if path == "" then
      if RootKey in contents then Ok(contents[RootKey]) else Ok(map[])
    else if path in contents then Err(AttributeError)
    else Ok(map[])
  }

  /** `get(path)` on a store opened for reading. `np.load` hands back every
      entry as a zero-dimensional object array: `.tolist()` turns one back
      into the dict saved in it, but the root entry is passed to `dict()`
      instead, which cannot iterate such an array and raises `TypeError`.
      Everywhere else this agrees with `get` on the dict a save fills. */
  function NpzReadLookup(contents: map<string, Vars>, path: string): (r: Result<Vars>)
    ensures r.Err? <==> path == "" && RootKey in contents
    ensures r.Err? ==> r.error == TypeError
    ensures r.Ok? ==> r.value == NpzLookup(contents, path)
  {
    if path == "" then
      if RootKey in contents then Err(TypeError) else Ok(map[])
    else if path in contents then Ok(contents[path])
    else Ok(map[])
  }

  /** `get(path)` on a store opened for reading, with the root entry read
      through `.tolist()` like every other: it never raises, returns the
      saved entry, and differs from `NpzReadLookup` only at the root. */
  function NpzReadLookupFixed(contents: map<string, Vars>, path: string): (r: Result<Vars>)
    ensures r == Ok(NpzLookup(contents, path))
    ensures path != "" ==> r == NpzReadLookup(contents, path)
  {
    if path == "" then
      if RootKey in contents then Ok(contents[RootKey]) else Ok(map[])
    else if path in contents then Ok(contents[path])
    else Ok(map[])
  }

  /** The name of `np.savez`'s first parameter. In write mode `close()` calls
      `np.savez(self.f, **self.contents)`, so an entry under this key is a
      second value for that parameter, and the call raises `TypeError`. */
  const SavezFileParam: string := "file"

  /** A variable hook storing `vars` into the entry at `key`. */
  function Filled(entries: map<string, Vars>, key: string, vars: Vars): map<string, Vars>
    requires key in entries
  {
    entries[key := entries[key] + vars]
  }

  class NpzIOStore {
    /** Whether the store was opened with `mode="r"`. */
    const reading: bool
    var contents: map<string, Vars>

    /** Write mode: an empty dict. */
    constructor ForWriting()
      ensures !reading && contents == map[]
    {
      reading := false;
      contents := map[];
    }

    /** Read mode: the entries `np.load` gives back. */
    constructor ForReading(loaded: map<string, Vars>)
      ensures reading && contents == loaded
    {
      reading := true;
      contents := loaded;
    }

    /** `make(path)`; returns the key of the entry it hands to the hook. */
    method Make(path: string) returns (key: string)
      modifies this
      ensures key == NpzKey(path) && key in contents
      ensures contents == NpzMade(old(contents), path)
    {
      if path == "" {
        contents := contents[RootKey := map[]];
        key := RootKey;
      } else {
        contents := contents[path := map[]];
        key := path;
      }
    }

    /** `_save_own_variables` writing into the entry `make` handed it. */
    method Fill(key: string, vars: Vars)
      requires key in contents
      modifies this
      ensures contents == Filled(old(contents), key, vars)
    {
      contents := contents[key := contents[key] + vars];
    }

    /** `get(path)`: `dict()` on the root entry, `.tolist()` on any other. */
    method Get(path: string) returns (r: Result<Vars>)
      ensures r == if reading then NpzReadLookup(contents, path) else NpzWriteLookup(contents, path)
    {
      if path == "" {
        if RootKey in contents {
          if reading {
            return Err(TypeError);
          }
          return Ok(contents[RootKey]);
        }
        return Ok(map[]);
      }
      if path in contents {
        if !reading {
          return Err(AttributeError);
        }
        return Ok(contents[path]);
      }
      return Ok(map[]);
    }
  }

  /** After `make` and the hook's fill, the saved dict holds at the path's
      key exactly what the hook stored; a store reopened for reading returns
      it through `get` at every path but the root, and the filling store
      only at the root. */
  lemma NpzGetAfterMake(contents: map<string, Vars>, path: string, vars: Vars)
    ensures NpzLookup(Filled(NpzMade(contents, path), NpzKey(path), vars), path) == vars
    ensures path != "" ==> NpzReadLookup(Filled(NpzMade(contents, path), NpzKey(path), vars), path) == Ok(vars)
    ensures path == "" ==> NpzWriteLookup(Filled(NpzMade(contents, path), NpzKey(path), vars), path) == Ok(vars)
  {
    assert map[] + vars == vars;
  }

  /** `make` at one path and its filling leave the saved entry, and `get` in
      either mode, alone at every path with another key. */
  lemma NpzMakeLeavesOthers(contents: map<string, Vars>, p: string, q: string, vars: Vars)
    requires NpzKey(p) != NpzKey(q)
    ensures NpzLookup(Filled(NpzMade(contents, p), NpzKey(p), vars), q) == NpzLookup(contents, q)
    ensures NpzReadLookup(Filled(NpzMade(contents, p), NpzKey(p), vars), q) == NpzReadLookup(contents, q)
    ensures NpzWriteLookup(Filled(NpzMade(contents, p), NpzKey(p), vars), q) == NpzWriteLookup(contents, q)
  {
  }

  /** `get` of a path never made is `{}`, not an error, in either mode. */
  lemma NpzGetMissing(contents: map<string, Vars>, path: string)
    requires NpzKey(path) !in contents
    ensures NpzLookup(contents, path) == map[]
    ensures NpzReadLookup(contents, path) == Ok(map[]) && NpzWriteLookup(contents, path) == Ok(map[])
  {
  }

  /** Keys tell paths apart, except that the empty path shares its key with the
      literal path `"__root__"` (which the walk never produces; see
      `Walk.RootKeyIsNeverAPath`). */
  lemma NpzKeyInjective(p: string, q: string)
    ensures NpzKey(p) == NpzKey(q) <==> p == q || {p, q} == {"", RootKey}
  {
    if NpzKey(p) == NpzKey(q) && p != q {
      if p != "" && q != "" {
        assert false;
      } else if p == "" {
        assert q == RootKey;
      } else {
        assert p == RootKey;
      }
    }
  }

  /* ---------------------------------------------------------------------------
     H5IOStore
     --------------------------------------------------------------------------- */

  /** The group a node's variables go in. */
  function VarsGroup(path: string): string
  {
    Join(path, "vars")
  }

  /** What a group holds: the datasets written into it, none if never written. */
  function DataAt(data: map<string, Vars>, group: string): Vars
  {
    if group in data then data[group] else map[]
  }

  /** The groups after `make(path)`: `create_group(path)` (for a non-empty
      path) and then `create_group("vars")` below it; a step that finds its group
      already there raises and stops. */
  function H5MadeGroups(groups: set<string>, path: string): set<string>
  {
    if path == "" then (if "vars" in groups then groups else groups + Ancestors("vars"))
    else if path in groups then groups
    else
      var after := groups + Ancestors(path);
      if VarsGroup(path) in after then after else after + Ancestors(VarsGroup(path))
  }

  /** What `make(path)` returns: the vars group, or the `ValueError` h5py raises
      for a group that exists. */
  function H5MakeResult(groups: set<string>, path: string): Result<string>
  {
    if path == "" then (if "vars" in groups then Err(ValueError) else Ok("vars"))
    else if path in groups || VarsGroup(path) in groups + Ancestors(path) then Err(ValueError)
    else Ok(VarsGroup(path))
  }

  /** `get(path)`: the root's vars group with no presence check (indexing a
      missing group raises `KeyError`); below the root, the path's vars group if
      both exist, `{}` otherwise. */
  function H5Lookup(groups: set<string>, data: map<string, Vars>, path: string): Result<Vars>
  {
    if path == "" then (if "vars" in groups then Ok(DataAt(data, "vars")) else Err(KeyError))
    else if path in groups && VarsGroup(path) in groups then Ok(DataAt(data, VarsGroup(path)))
    else Ok(map[])
  }

  /** An HDF5 file: its groups are closed under parents and only groups hold
      datasets. */
  predicate H5Valid(groups: set<string>, data: map<string, Vars>)
  {
    AncestorClosed(groups) && data.Keys <= groups
  }

  class H5IOStore {
    var groups: set<string>
    var data: map<string, Vars>

    /** Write mode: an empty file. */
    constructor ForWriting()
      ensures groups == {} && data == map[]
    {
      groups := {};
      data := map[];
    }

    /** Read mode: the file as it was written. */
    constructor ForReading(fileGroups: set<string>, fileData: map<string, Vars>)
      ensures groups == fileGroups && data == fileData
    {
      groups := fileGroups;
      data := fileData;
    }

    /** h5py's `create_group(name)`, with the parents it needs. */
    method CreateGroup(name: string) returns (r: Outcome)
      modifies this
      ensures name in old(groups) ==> r == Fail(ValueError) && groups == old(groups)
      ensures name !in old(groups) ==> r == Pass && groups == old(groups) + Ancestors(name)
      ensures data == old(data)
    {
      if name in groups {
        return Fail(ValueError);
      }
      groups := groups + Ancestors(name);
      return Pass;
    }

    /** `make(path)`; returns the vars group it hands to the hook. */
    method Make(path: string) returns (r: Result<string>)
      modifies this
      ensures r == H5MakeResult(old(groups), path)
      ensures groups == H5MadeGroups(old(groups), path) && data == old(data)
    {
      if path == "" {
        var o := CreateGroup("vars");
        return if o.Pass? then Ok("vars") else Err(o.error);
      }
      var o := CreateGroup(path);
      if o.Fail? {
        return Err(o.error);
      }
      var o2 := CreateGroup(Join(path, "vars"));
      return if o2.Pass? then Ok(Join(path, "vars")) else Err(o2.error);
    }

    /** `_save_own_variables` writing datasets into the group `make` handed it. */
    method Fill(group: string, vars: Vars)
      requires group in groups
      modifies this
      ensures groups == old(groups) && data == old(data)[group := DataAt(old(data), group) + vars]
    {
      data := data[group := DataAt(data, group) + vars];
    }

    /** `get(path)`. */
    method Get(path: string) returns (r: Result<Vars>)
      ensures r == H5Lookup(groups, data, path)
    {
      if path == "" {
        if "vars" !in groups {
          return Err(KeyError);
        }
        return Ok(DataAt(data, "vars"));
      }
      if path in groups && Join(path, "vars") in groups {
        return Ok(DataAt(data, Join(path, "vars")));
      }
      return Ok(map[]);
    }
  }

  /** In a well-formed file, `make` fails exactly when the path (the vars group,
      for the root) is already a group, and otherwise keeps the file well formed. */
  lemma H5MakeFailsIffPresent(groups: set<string>, data: map<string, Vars>, path: string)
    requires H5Valid(groups, data)
    ensures H5MakeResult(groups, path).Err? <==> (if path == "" then "vars" in groups else path in groups)
    ensures H5MakeResult(groups, path).Err? ==> H5MakeResult(groups, path).error == ValueError
    ensures H5Valid(H5MadeGroups(groups, path), data)
  {
    if path != "" && path !in groups {
      AbsentHasNoDescendant(groups, path, "vars");
      assert VarsGroup(path) !in Ancestors(path) by {
        forall k | 0 < k <= |path| && (k == |path| || path[k] == '/') ensures path[..k] != VarsGroup(path) {
          assert |path[..k]| < |VarsGroup(path)|;
        }
      }
      AncestorsClosed(groups, path);
      AncestorsClosed(groups + Ancestors(path), VarsGroup(path));
    } else if path == "" && "vars" !in groups {
      AncestorsClosed(groups, "vars");
    }
  }

  /** `get` after a successful `make` and the hook's fill returns exactly what
      the hook stored. */
  lemma H5GetAfterMake(groups: set<string>, data: map<string, Vars>, path: string, vars: Vars)
    requires H5Valid(groups, data) && H5MakeResult(groups, path).Ok?
    ensures var g := H5MadeGroups(groups, path);
            var vg := H5MakeResult(groups, path).value;
            vg in g && H5Lookup(g, data[vg := DataAt(data, vg) + vars], path) == Ok(vars)
  {
    H5MakeFailsIffPresent(groups, data, path);
    assert map[] + vars == vars;
    var vg := H5MakeResult(groups, path).value;
    assert vg in Ancestors(vg);
    assert vg !in data;
  }

  /** Below the root a missing path, or one without a vars group, reads as
      `{}`, not an error. */
  lemma H5GetMissing(groups: set<string>, data: map<string, Vars>, path: string)
    requires path != "" && (path !in groups || VarsGroup(path) !in groups)
    ensures H5Lookup(groups, data, path) == Ok(map[])
  {
  }

  /** At the root there is no presence check: a file whose root has no vars
      group raises `KeyError` on `get("")`. */
  lemma H5RootGetRaises(groups: set<string>, data: map<string, Vars>)
    requires "vars" !in groups
    ensures H5Lookup(groups, data, "") == Err(KeyError)
  {
  }

  /** A node's vars group and a child attribute named `vars` share a path:
      once `make("dense")` has run, `make("dense/vars")` raises. */
  lemma VarsAttributeCollides()
    ensures var g := H5MadeGroups({}, "dense");
            H5MakeResult({}, "dense") == Ok("dense/vars")
            && H5MakeResult(g, "dense/vars") == Err(ValueError)
  {
    assert VarsGroup("dense") == "dense/vars";
    assert "dense/vars" !in Ancestors("dense") by {
      forall k | 0 < k <= |"dense"| ensures "dense"[..k] != "dense/vars" {
        assert |"dense"[..k]| < |"dense/vars"|;
      }
    }
  }

  /* ---------------------------------------------------------------------------
     DiskIOStore
     --------------------------------------------------------------------------- */

  /** What `make(path)` returns: the temporary directory for the empty path,
      otherwise that directory joined with the path; joining onto no directory
      (`None`) raises `TypeError`. */
  function DiskMakeResult(tmpDir: Option<string>, path: string): Result<Option<string>>
  {
    if path == "" then Ok(tmpDir)
    else if tmpDir.None? then Err(TypeError)
    else Ok(Some(Join(tmpDir.value, path)))
  }

  /** The directories after `make(path)`: `makedirs` of the joined path when
      nothing exists there. */
  function DiskMadeDirs(tmpDir: Option<string>, dirs: set<string>, files: set<string>, path: string): set<string>
  {
    if path == "" || tmpDir.None? then dirs
    else
      var full := Join(tmpDir.value, path);
      if full in dirs + files then dirs else dirs + Ancestors(full)
  }

  /** What `get(path)` returns: as `make`, but `None` for a path that does not
      exist. */
  function DiskLookup(tmpDir: Option<string>, dirs: set<string>, files: set<string>, path: string): Result<Option<string>>
  {
    if path == "" then Ok(tmpDir)
    else if tmpDir.None? then Err(TypeError)
    else if Join(tmpDir.value, path) in dirs + files then Ok(Some(Join(tmpDir.value, path)))
    else Ok(None)
  }

  /** The files an asset hook writes into `dir`. */
  function AssetPaths(dir: string, names: set<string>): set<string>
  {
    set n | n in names :: Join(dir, n)
  }

  class DiskIOStore {
    /** `self.tmp_dir`: set in write mode and whenever an archive is given;
        `None` when reading a plain directory. */
    const tmpDir: Option<string>
    /** `self.working_dir`. `make` and `get` do not use it. */
    const workingDir: string
    /** The directories that exist, by full path. */
    var dirs: set<string>
    /** The files that exist, by full path. */
    var files: set<string>

    /** With an archive, or in write mode: a fresh temporary directory, into
        which read mode has extracted `extracted` (full paths). */
    constructor WithTempDir(tmp: string, extracted: set<string>)
      ensures tmpDir == Some(tmp) && workingDir == tmp
      ensures dirs == Ancestors(tmp) && files == extracted
    {
      tmpDir := Some(tmp);
      workingDir := tmp;
      dirs := Ancestors(tmp);
      files := extracted;
    }

    /** Read mode on a plain directory: `tmp_dir` stays `None`. */
    constructor ReadingDirectory(root: string, presentDirs: set<string>, presentFiles: set<string>)
      ensures tmpDir == None && workingDir == root && dirs == presentDirs && files == presentFiles
    {
      tmpDir := None;
      workingDir := root;
      dirs := presentDirs;
      files := presentFiles;
    }

    /** `make(path)`. */
    method Make(path: string) returns (r: Result<Option<string>>)
      modifies this
      ensures r == DiskMakeResult(tmpDir, path)
      ensures dirs == DiskMadeDirs(tmpDir, old(dirs), old(files), path) && files == old(files)
    {
      if path == "" {
        return Ok(tmpDir);
      }
      if tmpDir.None? {
        return Err(TypeError);
      }
      var full := Join(tmpDir.value, path);
      if full !in dirs && full !in files {
        dirs := dirs + Ancestors(full);
      }
      return Ok(Some(full));
    }

    /** `_save_assets` writing files named `names` into directory `dir`. */
    method WriteAssets(dir: string, names: set<string>)
      modifies this
      ensures dirs == old(dirs) && files == old(files) + AssetPaths(dir, names)
    {
      files := files + AssetPaths(dir, names);
    }

    /** `get(path)`. */
    method Get(path: string) returns (r: Result<Option<string>>)
      ensures r == DiskLookup(tmpDir, dirs, files, path)
    {
      if path == "" {
        return Ok(tmpDir);
      }
      if tmpDir.None? {
        return Err(TypeError);
      }
      var full := Join(tmpDir.value, path);
      if full in dirs || full in files {
        return Ok(Some(full));
      }
      return Ok(None);
    }
  }

  /** With a temporary directory, `get` after `make` finds the directory `make`
      returned. */
  lemma DiskGetAfterMake(tmp: string, dirs: set<string>, files: set<string>, path: string)
    ensures DiskLookup(Some(tmp), DiskMadeDirs(Some(tmp), dirs, files, path), files, path) == DiskMakeResult(Some(tmp), path)
  {
    if path != "" {
      assert Join(tmp, path) != "";
    }
  }

  /** A missing path reads as `None`, not an error. */
  lemma DiskGetMissing(tmp: string, dirs: set<string>, files: set<string>, path: string)
    requires path != "" && Join(tmp, path) !in dirs + files
    ensures DiskLookup(Some(tmp), dirs, files, path) == Ok(None)
  {
  }

  /** Reading a plain directory, `make` and `get` ignore the directory: the
      root path yields `None`, any other path raises `TypeError`. */
  lemma DiskReadingDirectoryIgnoresIt(dirs: set<string>, files: set<string>, path: string)
    ensures DiskLookup(None, dirs, files, path) == (if path == "" then Ok(None) else Err(TypeError))
    ensures DiskMakeResult(None, path) == DiskLookup(None, dirs, files, path)
  {
  }
}
