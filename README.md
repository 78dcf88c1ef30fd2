# Keras saving library (`saving_lib`) in Dafny

This project models the core of Keras' idempotent saving library: the graph
walk that gives every trackable object of a model a logical path, the three
path-addressed stores that hold what the objects' hooks write, and the four
entry points `save_model`, `load_model`, `save_weights_only` and
`load_weights_only` with their extension checks and store dispatch.

- `Results.dfy`: `Option`, `Result`, the Python exception kinds the model
  raises, and `Outcome`.
- `Paths.dfy`: `tf.io.gfile.join` on logical paths, prefix and suffix tests,
  decimal rendering of counters, and "lies below" on paths.
- `ObjectGraph.dfy`: the object graph as an arena of nodes indexed by `nat`,
  with the index standing for `id(obj)`. Each node has a class name, its
  attributes in `dir` order, its four hooks, its variables and its asset
  files. `ATTR_SKIPLIST` and the attribute filter live here.
- `ContainerNaming.dfy`: the reference definition of the name an item of a
  container gets (`name`, then `name_1`, `name_2`, ...), and its properties.
- `Walk.dfy`: the walk as pure functions. Each returns the visited set and
  the sequence of (node, path) visits. Lemmas cover visit-once, the skip
  list, path structure and shape-only dependence.
- `Walker.dfy`: `_save_state`, `_load_state`, `_save_container_state` and
  `_load_container_state` as methods. They thread the visited set, keep
  `used_names` as a map updated in place, and are proved to perform exactly
  the hook calls the walk functions prescribe. A save walk and a load walk
  over structurally equal graphs make the same calls at the same paths.
- `Stores.dfy`: `NpzIOStore`, `H5IOStore` and `DiskIOStore` as classes
  whose `Make` and `Get` update and read their fields as `make` and `get`
  do. Pure functions state what each call does.
- `Replay.dfy`: the walk's hook calls played against each store, in call
  order, on save and on load.
- `SavingLib.dfy`: the four entry points. They are methods proved equal to
  specification functions, with lemmas relating a save to the load of what
  it wrote.

The walk does not read the stores. So the hook calls of one walk are
computed first (`Walker`) and then played against each store in call order
(`Replay`). Per store, this gives the same effects as the interleaved calls
of the source.

Notes on what the code does:

- An unknown `weights_format` raises `ValueError` only after the archive has
  been opened and the metadata and configuration members written
  (`SavingLib.UnknownFormatLeavesPartialArchive`). It is not a check made
  before anything is created.
- The three discrepancies under "## Findings" are modelled as written,
  each next to a corrected version.
- `H5IOStore.get("")` does no presence check and raises when the root
  `vars` group is missing (`Stores.H5RootGetRaises`). Missing state
  elsewhere reads as empty.
- `DiskIOStore.make` and `get` join against `tmp_dir`, not `working_dir`.
  A store reading a plain directory has no `tmp_dir`, so it fails on every
  non-empty path (`Stores.DiskReadingDirectoryIgnoresIt`).
- Iterating a dict container yields its keys. The model's container is the
  sequence of items that iteration yields.
- In write mode, `NpzIOStore.get` at a non-empty path that was made calls
  `.tolist()` on a plain dict and raises `AttributeError`
  (`Stores.NpzWriteLookup`). The library itself only calls `get` on stores
  opened for reading.
- `NpzIOStore.close()` in write mode calls `np.savez(self.f, **self.contents)`.
  A variable hook saving at the path `file` gives a second value for
  `np.savez`'s first parameter, so the call raises `TypeError`. The
  member's write handle is still open then. Closing the zip file at the end
  of the `with` block therefore raises `ValueError`, and the file at
  `filepath` is not a readable zip (`SavingLib.NpzSavedArchive`).
- A `.npz` member that `np.load` cannot read as npz or npy goes to its
  pickle fallback. An empty member raises `EOFError` and any other raises
  `UnpicklingError`. An `.h5` member that is not HDF5 raises `OSError`
  (`SavingLib.WeightsChoicePrefersH5`).

Two hypotheses appear in the path lemmas, collected in
`ObjectGraph.WellNamed`:

- Attribute names are distinct, non-empty and slash-free, as `dir` gives
  them.
- Snake-cased class names are slash-free and do not already end in
  `_<digits>`.

Without the second one, two items of a container can get the same name
(`ContainerNaming.RepeatLikeLabelCollides`).

## Model

| member | source | states |
|---|---|---|
| ObjectGraph.Traversable | keras/saving/experimental/saving_lib.py:335-358 | the attributes the walk descends into are exactly the node's attributes that are neither dunder nor skip-listed and hold a trackable or a container, and no more of them than the node has |
| ObjectGraph.TraversableConcat | keras/saving/experimental/saving_lib.py:335-358 | the filter keeps `dir` order: the traversable attributes of two runs of attributes are those of the first run followed by those of the second |
| Paths.NatToString | keras/saving/experimental/saving_lib.py:410-412 | the counter rendered in `f"{name}_{n}"` is a non-empty string of decimal digits, one digit exactly when the counter is below ten |
| Paths.NatToStringInjective | keras/saving/experimental/saving_lib.py:410-412 | different counters render differently |
| Paths.SuffixedNameSplit | keras/saving/experimental/saving_lib.py:410-412 | a name `base_digits` determines its base and its digits |
| Paths.SuffixedNameIsSegment | keras/saving/experimental/saving_lib.py:410-412 | a suffixed name of a slash-free class name is a path component |
| Paths.UnderJoin | keras/saving/experimental/saving_lib.py:348 | whatever lies at or below `join(p, s)` lies strictly below `p`, and its component right after `p` is `s` |
| ContainerNaming.ContainerNamesDistinct | keras/saving/experimental/saving_lib.py:404-415 | any two trackable items of one container get different names, provided no class name already ends in `_<digits>` |
| ContainerNaming.RepeatLikeLabelCollides | keras/saving/experimental/saving_lib.py:408-412 | without that proviso, items `foo`, `foo`, `foo_1` give the second and the third item the same name `foo_1` |
| ContainerNaming.ContainerNameIsSegment | keras/saving/experimental/saving_lib.py:408-412 | an item's name is a path component whenever its snake-cased class name is |
| ContainerNaming.PlainItemTakesNoName | keras/saving/experimental/saving_lib.py:404-406 | inserting a non-trackable item anywhere before a trackable one leaves that item's name unchanged: it consumes no name and moves no counter |
| ContainerNaming.OccurrencesGrow | keras/saving/experimental/saving_lib.py:408-413 | the count behind a name never decreases along the container, and it strictly grows past an item of the same class |
| Walk.WalkNode | keras/saving/experimental/saving_lib.py:319-332 | a walk from a node only adds to the visited set |
| Walk.WalkNodeVisitsOnce | keras/saving/experimental/saving_lib.py:322-332 | no node already in the visited set is visited again, no node is visited twice, and the visited set grows by exactly the nodes visited |
| Walk.WalkAttrsVisitsOnce | keras/saving/experimental/saving_lib.py:335-358 | the same visit-once property across all attributes of a node, sharing one visited set |
| Walk.WalkAttrVisitsOnce | keras/saving/experimental/saving_lib.py:343-358 | the same visit-once property for one attribute |
| Walk.WalkContainerVisitsOnce | keras/saving/experimental/saving_lib.py:401-422 | the same visit-once property across a container; an object held twice is visited once |
| Walk.SkippedAttributesIgnored | keras/saving/experimental/saving_lib.py:335-342 | deleting every dunder, skip-listed, unreadable or plain attribute from every node changes neither the visits nor the visited set |
| Walk.WalkAttrsSkipsUntraversable | keras/saving/experimental/saving_lib.py:335-342 | an attribute the walk does not descend into contributes nothing |
| Walk.TraversableIdempotent | keras/saving/experimental/saving_lib.py:335-342 | filtering the attributes twice gives what filtering once gives |
| Walk.WalkNodeShapeOnly | keras/saving/experimental/saving_lib.py:319-358 | the walk depends only on class names and traversable attributes, not on variables, assets, hooks or ignored attributes |
| Walk.WalkAttrsShapeOnly | keras/saving/experimental/saving_lib.py:335-358 | two attribute lists with the same traversable attributes walk alike |
| Walk.WalkContainerShapeOnly | keras/saving/experimental/saving_lib.py:401-422 | a container walks alike in two graphs of the same shape |
| Walk.WalkNodePaths | keras/saving/experimental/saving_lib.py:319-358 | every visit of a walk from `p` lies at or below `p`, the first is the node itself at `p`, and no two visits share a path |
| Walk.WalkAttrsPaths | keras/saving/experimental/saving_lib.py:335-358 | the visits below a node's attributes lie strictly below the node's path, through the name of a walked attribute, at distinct paths |
| Walk.WalkAttrPaths | keras/saving/experimental/saving_lib.py:343-358 | a trackable or container attribute `a` of a node at `p` has all its visits at or below `join(p, a)` |
| Walk.WalkContainerPaths | keras/saving/experimental/saving_lib.py:401-422 | the visits of a container at `p` lie below `p` through the names of its items, at distinct paths |
| Walk.RootKeyIsNeverAPath | keras/saving/experimental/saving_lib.py:564-578 | no walk from the root produces the path `__root__`, so the key the npz store gives the empty path never collides with a walked path |
| Walk.DunderNeverWalked | keras/saving/experimental/saving_lib.py:336 | a dunder name is never among the walked attribute names |
| Walker.SaveState | keras/saving/experimental/saving_lib.py:319-358 | `_save_state` returns the visited set of the walk and makes exactly its calls: at each visit, the weights `make` if the node has `_save_own_variables` and weights are saved, then the assets `make` if it has `_save_assets` and assets are saved |
| Walker.SaveContainerState | keras/saving/experimental/saving_lib.py:401-422 | `_save_container_state` makes the walk's calls for a container, naming items through a `used_names` map it updates in place |
| Walker.LoadState | keras/saving/experimental/saving_lib.py:361-398 | `_load_state` returns the walk's visited set and makes exactly its `get` calls |
| Walker.LoadContainerState | keras/saving/experimental/saving_lib.py:425-443 | `_load_container_state` does the same for a container |
| Walker.NameItem | keras/saving/experimental/saving_lib.py:408-414 | one update of `used_names` yields the item's reference name and the counters of the container prefix one item longer |
| Walker.UsedNamesCount | keras/saving/experimental/saving_lib.py:408-414 | after a container prefix, a class name is in `used_names` exactly when it occurred, and its counter is one less than its occurrences |
| Walker.UsedNamesNaming | keras/saving/experimental/saving_lib.py:408-414 | the source's update rule (unsuffixed on first sight, else counter plus one) computes the reference name |
| Walker.CallsConcat | keras/saving/experimental/saving_lib.py:319-358 | the calls of two visit sequences in a row are the calls of the first followed by those of the second |
| Walker.PairedCalls | keras/saving/experimental/saving_lib.py:327-330 | over the same visits, the load hooks of paired classes make the save calls with `get` for `make` |
| Walker.SaveLoadSymmetric | keras/saving/experimental/saving_lib.py:319-443 | a load walk over a graph of the same shape, with paired hooks, makes the save walk's calls in the same order at the same paths |
| Walker.EveryGetWasMade | keras/saving/experimental/saving_lib.py:319-443 | every `get` a load walk makes is at a path, and in a store, where the save walk made a `make` |
| Stores.NpzIOStore.Make | keras/saving/experimental/saving_lib.py:564-569 | `make` installs a fresh empty entry under the path, `__root__` for the empty path, replacing any earlier one, and returns its key |
| Stores.NpzIOStore.Get | keras/saving/experimental/saving_lib.py:571-578 | `get` behaves as `NpzWriteLookup` on a store opened for writing and as `NpzReadLookup` on one opened for reading |
| Stores.NpzWriteLookup | keras/saving/experimental/saving_lib.py:564-578 | on a store opened for writing, `get` raises, always `AttributeError`, exactly when a non-empty path holds an entry (a plain dict has no `.tolist()`); otherwise it returns the root entry or `{}` |
| Stores.NpzReadLookup | keras/saving/experimental/saving_lib.py:562-578 | on a store `np.load` opened, `get` raises, always `TypeError`, exactly when the path is empty and a root entry exists; otherwise it agrees with `get` on the saved dict |
| Stores.NpzReadLookupFixed | keras/saving/experimental/saving_lib.py:571-578 | with the root read through `.tolist()`, `get` never raises, returns the saved entry or `{}`, and differs from the source's `get` only at the root |
| Stores.NpzIOStore.Fill | keras/saving/experimental/saving_lib.py:328 | a variable hook writes its variables into the entry `make` returned, and nothing else changes |
| Stores.NpzGetAfterMake | keras/saving/experimental/saving_lib.py:564-578 | after `make(p)` and a hook fills the entry, the saved dict holds at `p`'s key exactly what was filled; a store reopened for reading returns it through `get(p)` for `p != ""`, and the filling store returns it only for `p == ""` |
| Stores.NpzMakeLeavesOthers | keras/saving/experimental/saving_lib.py:564-578 | `make(p)` and its filling leave the saved entry at `q`, and `get(q)` in either mode, unchanged for every path with another key |
| Stores.NpzGetMissing | keras/saving/experimental/saving_lib.py:571-578 | `get` on a path never made returns `{}` and does not raise, in either mode |
| Stores.NpzKeyInjective | keras/saving/experimental/saving_lib.py:564-569 | two paths share a key exactly when they are equal, or one is empty and the other is `__root__` |
| Stores.H5IOStore.CreateGroup | keras/saving/experimental/saving_lib.py:522-525 | `create_group` raises `ValueError` on an existing name; otherwise it adds the group with its missing ancestors |
| Stores.H5IOStore.Make | keras/saving/experimental/saving_lib.py:522-525 | `make` creates the path's group and its `vars` subgroup (`vars` alone for the empty path) and returns the `vars` group |
| Stores.H5IOStore.Get | keras/saving/experimental/saving_lib.py:527-532 | `get` returns the path's `vars` data, `{}` when the group or its `vars` subgroup is missing, and for the empty path reads `vars` unchecked |
| Stores.H5IOStore.Fill | keras/saving/experimental/saving_lib.py:328 | a variable hook adds its variables to the group `make` returned |
| Stores.H5MakeFailsIffPresent | keras/saving/experimental/saving_lib.py:522-525 | `make(p)` fails, always with `ValueError`, exactly when the group it creates first already exists, and the file stays well formed |
| Stores.H5GetAfterMake | keras/saving/experimental/saving_lib.py:522-532 | after a successful `make(p)` and its filling, `get(p)` returns exactly what was filled |
| Stores.H5GetMissing | keras/saving/experimental/saving_lib.py:530-532 | `get` on a non-empty path that is absent or has no `vars` subgroup returns `{}` |
| Stores.H5RootGetRaises | keras/saving/experimental/saving_lib.py:528-529 | `get("")` with no root `vars` group raises `KeyError` |
| Stores.VarsAttributeCollides | keras/saving/experimental/saving_lib.py:522-525 | after `make("dense")`, a child at `dense/vars` fails, because that group already exists |
| Stores.AncestorsClosed | keras/saving/experimental/saving_lib.py:522-525 | creating a group with its ancestors keeps the group set closed under parents |
| Stores.AbsentHasNoDescendant | keras/saving/experimental/saving_lib.py:530 | in a parent-closed file, nothing lies below an absent group |
| Stores.DiskIOStore.Make | keras/saving/experimental/saving_lib.py:473-479 | `make` returns the temporary directory for the empty path; otherwise it joins the path to it, creates the directory and its ancestors if missing, and returns it |
| Stores.DiskIOStore.Get | keras/saving/experimental/saving_lib.py:481-487 | `get` returns the temporary directory for the empty path, the joined path when it exists, and `None` otherwise |
| Stores.DiskIOStore.WriteAssets | keras/saving/experimental/saving_lib.py:330 | an asset hook adds its files in the directory `make` returned, and nothing else changes |
| Stores.DiskIOStore.WithTempDir | keras/saving/experimental/saving_lib.py:456-464 | a store bound to an archive works in a fresh temporary directory, holding the extracted member when reading |
| Stores.DiskIOStore.ReadingDirectory | keras/saving/experimental/saving_lib.py:465-468 | a store reading a plain directory has that directory as working directory and no temporary directory |
| Stores.DiskGetAfterMake | keras/saving/experimental/saving_lib.py:473-487 | after `make(p)`, `get(p)` returns what `make(p)` returned |
| Stores.DiskGetMissing | keras/saving/experimental/saving_lib.py:481-487 | `get` on a non-empty path that does not exist returns `None` and does not raise |
| Stores.DiskReadingDirectoryIgnoresIt | keras/saving/experimental/saving_lib.py:465-487 | without a temporary directory, `get("")` returns `None` and any other path fails joining to `None`, whatever the directory holds; `make` behaves the same |
| Replay.CallOrigin | keras/saving/experimental/saving_lib.py:327-330 | every call comes from a visit of the walk, in the walk's direction, and only from a node with the matching hook when that store is in use |
| Replay.CallOfVisit | keras/saving/experimental/saving_lib.py:327-328 | every visit of a node with a variable hook makes a weights call at its path |
| Replay.CallsInGraph | keras/saving/experimental/saving_lib.py:329-330 | every call names a node of the graph, and without an asset store no asset call is made |
| Replay.VisitCallsShape | keras/saving/experimental/saving_lib.py:327-330 | one visit's calls are all at its path, and the weights call, if any, comes first |
| Replay.DistinctVisitsDistinctKeys | keras/saving/experimental/saving_lib.py:564-569 | visits at distinct paths, none of them `__root__`, make weights calls with pairwise distinct npz keys |
| Replay.NpzSavedHolds | keras/saving/experimental/saving_lib.py:327-328 | when the keys are distinct, each weights call's path reads back the variables of the node that made it |
| Replay.NpzSavedKeepsOthers | keras/saving/experimental/saving_lib.py:564-569 | calls at other keys leave a path's entry unchanged |
| Replay.SaveVarsNpz | keras/saving/experimental/saving_lib.py:327-328 | playing the weights calls against an `NpzIOStore` leaves the contents the replay function prescribes |
| Replay.H5SavedValid | keras/saving/experimental/saving_lib.py:522-525 | playing the weights calls against an HDF5 file keeps it well formed, and the only failure is `ValueError` |
| Replay.SaveVarsH5 | keras/saving/experimental/saving_lib.py:327-328 | playing the weights calls against an `H5IOStore` stops at the first failing `make`, with that error, or leaves the prescribed file |
| Replay.DiskSaveStep | keras/saving/experimental/saving_lib.py:329-330 | an asset call keeps the temporary directory and loses no file |
| Replay.DiskSavedHolds | keras/saving/experimental/saving_lib.py:329-330 | every file an asset hook writes ends up in the directory `make` gave for its path |
| Replay.SaveAssets | keras/saving/experimental/saving_lib.py:329-330 | playing the asset calls against a `DiskIOStore` leaves the files the replay function prescribes |
| Replay.NpzReceivedAll | keras/saving/experimental/saving_lib.py:367-368 | without an asset store, loading from a loaded `.npz` raises `TypeError` exactly when it has a root entry and some hook reads the root; otherwise each load hook receives the entry at its path |
| Replay.RootVarsCall | keras/saving/experimental/saving_lib.py:322-328 | when the walk starts at the root's path and its paths are distinct, a variable call at the root path exists exactly when the root has the variable hook |
| Replay.NpzSavedKeys | keras/saving/experimental/saving_lib.py:564-569 | after the save calls, a key holds an entry exactly when it held one before or some variable call's `make` created it |
| Replay.LoadFromNpz | keras/saving/experimental/saving_lib.py:367-370 | the load hooks read from an `NpzIOStore` and a possibly absent asset store, in call order |
| Replay.LoadFromH5 | keras/saving/experimental/saving_lib.py:367-370 | the same against an `H5IOStore` |
| SavingLib.SaveCalls | keras/saving/experimental/saving_lib.py:174-180 | the save walk from the root names only nodes of the graph and makes no asset call without an asset store |
| SavingLib.LoadCalls | keras/saving/experimental/saving_lib.py:235-241 | the same for the load walk |
| SavingLib.AssetMembers | keras/saving/experimental/saving_lib.py:307-316 | every member the asset store writes is `assets/<relative path>`, and none is named `assets` itself |
| SavingLib.MemberNamesDistinct | keras/saving/experimental/saving_lib.py:44-47 | the configuration, metadata, two weights and assets member names are pairwise distinct |
| SavingLib.SaveModel | keras/saving/experimental/saving_lib.py:98-187 | `save_model` produces the report its specification function gives; the saving flag ends as it began, except after a failed serialization, when it stays set |
| SavingLib.WriteArchive | keras/saving/experimental/saving_lib.py:149-182 | the `try` block opens the stores, walks the model and yields the archive its specification function gives |
| SavingLib.SaveModelFlagInTry | keras/saving/experimental/saving_lib.py:138-187 | with the `try` begun right after the flag is set, `save_model` gives the same report and restores the flag on every exit |
| SavingLib.LoadModel | keras/saving/experimental/saving_lib.py:190-251 | `load_model` yields what its specification function gives and restores the saving flag on every exit |
| SavingLib.SaveWeightsOnly | keras/saving/experimental/saving_lib.py:254-274 | `save_weights_only` yields its specification's result: an HDF5 file from a walk without an asset store |
| SavingLib.LoadWeightsOnly | keras/saving/experimental/saving_lib.py:277-304 | `load_weights_only` yields its specification's result: reads from the chosen HDF5 file, without an asset store |
| SavingLib.SaveChecksComeFirst | keras/saving/experimental/saving_lib.py:122-148 | an archive is written exactly when the name ends in `.keras`, h5py is present or not needed, the model serializes, and an npz save has no variables saved at `file`; a passing save always leaves one; a wrong extension raises `ValueError`, a missing h5py `ImportError`, a failed serialization its own error; the unbuilt warning is given exactly when both checks pass for an unbuilt model |
| SavingLib.SerializeFailureLeavesFlagSet | keras/saving/experimental/saving_lib.py:138-187 | the flag changes across `save_model` exactly when it was unset, both checks passed and serialization raised; that call reports the serializer's error and leaves no archive |
| SavingLib.UnknownFormatLeavesPartialArchive | keras/saving/experimental/saving_lib.py:150-170 | an unknown `weights_format` raises `ValueError` after the archive holds exactly the metadata and configuration members |
| SavingLib.SavedArchiveBase | keras/saving/experimental/saving_lib.py:150-155 | a written archive holds the metadata member and the configuration member of the serialized model, and no member named `assets` |
| SavingLib.NpzSavedArchive | keras/saving/experimental/saving_lib.py:161-182 | an npz save whose variable hooks save at the path `file` fails with `ValueError` and leaves no readable archive; any other npz save succeeds and writes the `.npz` member holding the replayed store contents, and no `.h5` member |
| SavingLib.H5SavedArchive | keras/saving/experimental/saving_lib.py:157-182 | a successful h5 save writes an HDF5 `.h5` weights member |
| SavingLib.SavedAssetMembers | keras/saving/experimental/saving_lib.py:172-182 | a successful save archives exactly the files the asset hooks wrote below the temporary directory, as `assets/...` members |
| SavingLib.AssetFileRelative | keras/saving/experimental/saving_lib.py:473-479 | a file an asset hook writes for path `p` lies below the temporary directory at `join(p, name)` |
| SavingLib.SavedAssetFilesArchived | keras/saving/experimental/saving_lib.py:172-182 | every file an asset hook writes at path `p` becomes the member `assets/<p>/<name>` |
| SavingLib.SavedAssetsNeverLoaded | keras/saving/experimental/saving_lib.py:230-233 | loading any archive `save_model` wrote opens no asset store, so every load hook receives only variables |
| SavingLib.SavedAssetsFoundFixed | keras/saving/experimental/saving_lib.py:230-233 | with the asset store opened for any member under `assets/`, every successful save in which an asset hook wrote a file leaves an archive for which the load opens it |
| SavingLib.ReceivedOnlyVars | keras/saving/experimental/saving_lib.py:367-370 | without an asset store, a successful load hands each hook variables, one per call |
| SavingLib.NpzSavedServesLoad | keras/saving/experimental/saving_lib.py:319-443 | every path the load walk reads from the saved npz contents holds the saved variables of the node at that position |
| SavingLib.LoadNpzArchive | keras/saving/experimental/saving_lib.py:201-244 | loading an archive with a usable configuration and only the `.npz` weights member raises `TypeError` when the file has a root entry that some hook reads, and otherwise succeeds and hands each hook the npz entry of its path |
| SavingLib.NpzRootEntry | keras/saving/experimental/saving_lib.py:319-328 | the `.npz` a save leaves has a `__root__` entry exactly when the model's class defines `_save_own_variables` |
| SavingLib.LoadReadsRoot | keras/saving/experimental/saving_lib.py:361-368 | the load walk reads the root path exactly when the model's class defines `_load_own_variables` |
| SavingLib.NpzSaveLoadRoundTrip | keras/saving/experimental/saving_lib.py:98-251 | an npz `save_model` whose hooks save at `file` fails and writes nothing; otherwise, loading what it wrote, into a model of the same shape with paired hooks, raises `TypeError` when the model's own class saves variables, and otherwise succeeds and gives each load hook exactly the variables its counterpart saved |
| SavingLib.NpzFixedServesLoad | keras/saving/experimental/saving_lib.py:571-578 | with the root read through `.tolist()`, every `get` of the load walk on the saved `.npz` succeeds with exactly the variables its counterpart saved |
| SavingLib.LoadChecksComeFirst | keras/saving/experimental/saving_lib.py:192-228 | a wrong extension raises `ValueError`; an unusable configuration or weights member ends the load with its error before any hook runs; a successful load returns the configuration read |
| SavingLib.WeightsChoicePrefersH5 | keras/saving/experimental/saving_lib.py:216-228 | the `.h5` member is read when present, else the `.npz` member, and `ValueError` is raised exactly when neither is present; an `.h5` member that is not HDF5 raises `OSError`, an empty `.npz` member `EOFError` and any other unreadable one `UnpicklingError` |
| SavingLib.CompileFalseNullsCompileConfig | keras/saving/experimental/saving_lib.py:209-212 | with `compile=False` the configuration is the one read with `compile=True`, with `compile_config` set to null |
| SavingLib.WeightsOnlyDispatch | keras/saving/experimental/saving_lib.py:261-292 | `save_weights_only` rejects a name without `.weights.h5`; `load_weights_only` reads the file for `.weights.h5`, the archive's `.h5` member for `.keras`, and for any other name fails on its unassigned store |

## Findings

| source | as written | input that shows it | evidently intended | confidence | as-written member | corrected member |
|---|---|---|---|---|---|---|
| keras/saving/experimental/saving_lib.py:138-149 | the saving flag is set at line 139, but `serialize_keras_object` and `json.dumps` run before the `try` at line 149, so the `finally` block does not restore the flag when they raise | `save_model(model, "m.keras", "npz")` with the flag unset and a model whose serialization raises | the `try` begun right after the flag is set, so that every exit restores it | not executed | SavingLib.SerializeFailureLeavesFlagSet | SavingLib.SaveModelFlagInTry |
| keras/saving/experimental/saving_lib.py:562-577 | in read mode the entries come from `np.load` as zero-dimensional object arrays; `get("")` passes the root one to `dict()`, which raises `TypeError`, while other paths use `.tolist()` | `save_model(model, "m.keras", "npz")` then `load_model("m.keras")`, for a model whose own class defines `_save_own_variables` and `_load_own_variables` | the root entry read through `.tolist()` like the others | not executed | SavingLib.NpzSaveLoadRoundTrip | Stores.NpzReadLookupFixed |
| keras/saving/experimental/saving_lib.py:230-233 | the asset store is opened only when the archive has a member named exactly `assets`; the save writes only files, as `assets/<path>/<name>` members, so it never does | saving a model whose asset hook writes a file, then loading the archive | the asset store opened whenever a member lies under `assets/` | not executed | SavingLib.SavedAssetsNeverLoaded | SavingLib.SavedAssetsFoundFixed |

## Left out

- Zip archive I/O (`zipfile`, `writestr`, `extract`, `namelist` as a list) is left out. An archive is a map from member names to what they hold, plus the names of the asset files.
- The HDF5 and `.npz` encodings (`h5py`, `np.savez`, `np.load`, `.tolist()`) are left out. A store's contents are maps from keys to variables. Of the arrays `np.load` returns, only one consequence is modelled: `dict()` raises `TypeError` on the root entry.
- `_get_temp_dir` and the removal of temporary directories in `DiskIOStore.close` are left out, and so is any leak of them on an error. These are operating-system resources; the temporary directory is a parameter.
- `_write_to_zip_recursively` is modelled only by its result: every file below the temporary directory becomes a member under `assets/`.
- `serialize_keras_object`, `deserialize_keras_object`, `json` and the metadata's date and version are left out. The serialized model is a parameter, or the error the serializer raises, and only `compile_config` inside its `config` entry is modelled. The model a load builds is a parameter too.
- `warnings.warn` is modelled as a flag in the save report.
- The thread-local `_SAVING_V3_ENABLED` is one variable of the single thread that saves or loads (`SavingFlag`). What the serializer does with the flag is left out. `saving_v3_enabled()` only reads it and is not modelled separately.
- `_print_h5_file` and `_print_zip_file` are console output and are left out.
- `_is_keras_trackable`, `dir` and `getattr` are left out. A node declares its attributes in `dir` order and what each holds; an attribute whose access raises is `Unreadable`.
- What asset hooks read from their files is left out, and so are the files' contents. Only the files' names and places are modelled.
- The h5py-missing path is modelled only as the `ImportError` of `save_model`. The weights-only entry points assume h5py is installed.
- Hook calls are replayed against each store after the walk, not interleaved with it. The walk never reads a store, and each store sees its calls in the same order, so the result is the same.
- SavingLib.SavedAssetsFoundFixed: only the corrected test for opening the asset store is modelled. What the extraction and `get` would then hand the asset hooks is not modelled, because `extract("assets")` and `get`'s join against the temporary directory would also need fixing, and that fix has no single evident form.
- SavingLib.H5SavedArchive: no round trip through the HDF5 store is proved, only that a successful save writes an HDF5 member. A node attribute named `vars` can make `make` fail (`Stores.VarsAttributeCollides`), so an h5 round trip needs a hypothesis on attribute names that is not stated here.
- Walker.SaveLoadSymmetric, Walker.EveryGetWasMade, SavingLib.NpzSavedServesLoad, SavingLib.NpzSaveLoadRoundTrip, SavingLib.NpzFixedServesLoad: these relate a save in one process to a load in another through `SameShape`, which gives each container the same item sequence in both graphs. A Python `set` container iterates in hash order, which depends on `id()` and can differ between the two processes. Items of one class can then swap their `name`/`name_1` paths, and a load hook reads another item's variables. The results hold only when every container iterates in the same order on save and on load.
- SavingLib.NpzSavedArchive, SavingLib.NpzSaveLoadRoundTrip: only the parameter name `file` is modelled as colliding with `np.savez`. Other keyword parameters that some numpy versions add to `np.savez` are not.
- SavingLib.NpzSavedArchive, SavingLib.NpzSaveLoadRoundTrip, SavingLib.SaveChecksComeFirst, SavingLib.LoadNpzArchive: hooks (`_save_own_variables`, `_save_assets`, `_load_own_variables`, `_load_assets`) are taken never to raise. In the library an exception from a hook leaves `_save_state` or `_load_state` at once. It skips the stores' `close()`, so a save leaves an archive with only the metadata and configuration members. The saving flag is still restored, and the call raises that exception. The model's hooks only store or receive variables.
- Walk.WalkNodePaths: the distinct-paths results assume `ObjectGraph.WellNamed`. These are distinct, slash-free attribute names, and class names without a `_<digits>` suffix.
- Walker.VisitCalls treats a node index outside the graph as having no hooks. Every walk over a valid graph only visits indices inside it.
