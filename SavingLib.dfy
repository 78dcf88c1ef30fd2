/** The entry points `save_model`, `load_model`, `save_weights_only` and
    `load_weights_only`. They check the file extension, choose and open the
    stores, set the saving flag and restore it when they finish, and walk the model
    with its hooks writing into or reading from the stores. A zip archive is seen
    as a map from member names to what the members hold; what each entry point
    produces is stated by a function, and the lemmas are about those functions. */
module SavingLib {
  import opened Results
  import opened Paths
  import opened ObjectGraph
  import opened Walk
  import opened Walker
  import opened Stores
  import opened Replay

  const ConfigFilename: string := "config.json"
  const MetadataFilename: string := "metadata.json"
  const VarsFname: string := "variables.weights"
  const AssetsDirname: string := "assets"

  /** The archive members the two weights formats are written to. */
  const H5MemberName: string := VarsFname + ".h5"
  const NpzMemberName: string := VarsFname + ".npz"

  /* ---------------------------------------------------------------------------
     Archives
     --------------------------------------------------------------------------- */

  /** `config["config"]` of `config.json`: only its `compile_config` entry is
      modelled (`None` stands for JSON null). */
  datatype ModelConfig = ModelConfig(compileConfig: Option<string>)

  /** The parsed `config.json`: the `"config"` entry, if present. */
  datatype ConfigDict = ConfigDict(config: Option<ModelConfig>)

  /** What an archive member holds. `Empty` is a member with no bytes;
      `Garbled` is a non-empty member in none of the formats a load reads
      (JSON, HDF5, npz or npy, pickle). */
  datatype Member =
    | MetadataMember
    | ConfigMember(dict: ConfigDict)
    | WeightsMember(weights: WeightsFile)
    | AssetFile
    | Empty
    | Garbled

  /** A `.keras` zip archive: the members a load parses, by name, and apart
      from them the names of the asset files stored under `assets/`. */
  datatype Archive = Archive(members: map<string, Member>, assetFiles: set<string>)

  /** `zf.namelist()`, as a set. */
  function Names(a: Archive): set<string>
  {
    a.members.Keys + a.assetFiles
  }

  /** The process-wide `_SAVING_V3_ENABLED.value`, for the one thread that
      saves or loads. */
  class SavingFlag {
    var value: bool

    constructor (initial: bool)
      ensures value == initial
    {
      value := initial;
    }
  }

  /** The calls of `_save_state(model, weights_store, assets_store, "", set())`
      with a weights store, and an asset store when `withAssets`. */
  function SaveCalls(g: Graph, snake: string -> string, root: nat, withAssets: bool): (r: seq<Call>)
    requires ValidGraph(g) && root < |g|
    ensures CallsIn(r, |g|) && (!withAssets ==> NoAssetCalls(r))
  {
    var t := WalkNode(g, snake, root, "", {}).visits;
    CallsInGraph(g, Save, true, withAssets, t);
    Calls(g, Save, true, withAssets, t)
  }

  /** Likewise for `_load_state`. */
  function LoadCalls(g: Graph, snake: string -> string, root: nat, withAssets: bool): (r: seq<Call>)
    requires ValidGraph(g) && root < |g|
    ensures CallsIn(r, |g|) && (!withAssets ==> NoAssetCalls(r))
  {
    var t := WalkNode(g, snake, root, "", {}).visits;
    CallsInGraph(g, Load, true, withAssets, t);
    Calls(g, Load, true, withAssets, t)
  }

  /* ---------------------------------------------------------------------------
     save_model
     --------------------------------------------------------------------------- */

  /** The two members written before the weights format is looked at. */
  function BaseMembers(serialized: ConfigDict): map<string, Member>
  {
    map[MetadataFilename := MetadataMember, ConfigFilename := ConfigMember(serialized)]
  }

  /** The five names an archive is read by are distinct (their lengths are). */
  lemma MemberNamesDistinct()
    ensures |{MetadataFilename, ConfigFilename, H5MemberName, NpzMemberName, AssetsDirname}| == 5
  {
    assert |MetadataFilename| == 13 && |ConfigFilename| == 11 && |AssetsDirname| == 6;
    assert |H5MemberName| == 20 && |NpzMemberName| == 21;
  }

  /** A file below the temporary directory, relative to it. */
  function RelativeTo(f: string, tmp: string): string
    requires StrictlyUnder(f, tmp)
  {
    if tmp == "" then f else f[|tmp| + 1..]
  }

  /** The members `DiskIOStore.close` writes: each file below the temporary
      directory under `assets/`. Directories by themselves give no member, so
      no member is ever named `assets` itself. */
  function AssetMembers(tmp: string, files: set<string>): (r: set<string>)
    ensures forall m :: m in r ==> StartsWith(m, AssetsDirname + "/")
    ensures AssetsDirname !in r
  {
    set f | f in files && StrictlyUnder(f, tmp) :: AssetsDirname + "/" + RelativeTo(f, tmp)
  }

  /** What `save_model` does: the error it raises, if any; whether it warns
      that the model is unbuilt; and the archive it leaves at `filepath`, if
      any file there can be opened as a zip archive. `serialized` is what the
      serializer makes of the model, or the error it raises; `tmp` is the
      temporary directory of the asset store. */
  datatype SaveReport = SaveReport(outcome: Outcome, warned: bool, written: Option<Archive>)

  /** The two checks `save_model` makes before it warns, sets the saving flag
      and serializes the model. */
  predicate SaveChecksPass(filepath: string, weightsFormat: string, h5pyAvailable: bool)
  {
    EndsWith(filepath, ".keras") && !(weightsFormat == "h5" && !h5pyAvailable)
  }

  function SaveModelSpec(g: Graph, snake: string -> string, root: nat, built: bool, filepath: string,
                         weightsFormat: string, h5pyAvailable: bool, serialized: Result<ConfigDict>,
                         tmp: string): SaveReport
    requires ValidGraph(g) && root < |g|
  {
    if !EndsWith(filepath, ".keras") then SaveReport(Fail(ValueError), false, None)
    else if weightsFormat == "h5" && !h5pyAvailable then SaveReport(Fail(ImportError), false, None)
    else match serialized
      case Err(e) => SaveReport(Fail(e), !built, None)
      case Ok(config) => ArchiveSpec(g, snake, root, built, weightsFormat, config, tmp)
  }

  /** What the `try` block of `save_model` does once the model is
      serialized: open the archive, write the metadata and the configuration,
      then the weights and the asset files. */
  function ArchiveSpec(g: Graph, snake: string -> string, root: nat, built: bool, weightsFormat: string,
                       config: ConfigDict, tmp: string): SaveReport
    requires ValidGraph(g) && root < |g|
  {
    if weightsFormat != "h5" && weightsFormat != "npz" then
      SaveReport(Fail(ValueError), !built, Some(Archive(BaseMembers(config), {})))
    else
      var cs := SaveCalls(g, snake, root, true);
      var assets := DiskSaved(AssetsDir(Some(tmp), Ancestors(tmp), {}), g, cs);
      var assetMembers := AssetMembers(tmp, assets.files);
      if weightsFormat == "npz" then
        var contents := NpzSaved(map[], g, cs);
        // `np.savez` raises with the member's write handle still open, so
        // closing the zip file at the end of the `with` block raises
        // `ValueError` in its place, and the zip's central directory is
        // never written.
        if SavezFileParam in contents then SaveReport(Fail(ValueError), !built, None)
        else
          var weights := WeightsMember(NpzWeights(contents));
          SaveReport(Pass, !built, Some(Archive(BaseMembers(config)[NpzMemberName := weights], assetMembers)))
      else
        match H5Saved(H5File({}, map[]), g, cs)
        case Err(e) => SaveReport(Fail(e), !built, Some(Archive(BaseMembers(config), {})))
        case Ok(f) =>
          var weights := WeightsMember(H5Weights(f));
          SaveReport(Pass, !built, Some(Archive(BaseMembers(config)[H5MemberName := weights], assetMembers)))
  }

  /** The saving flag after `save_model`, given its value `before`. The
      `finally` block restores it on every exit from the `try` block, but the
      serializer runs after the flag is set and before the `try` begins: when
      it raises, the flag stays set. */
  function FlagAfterSave(filepath: string, weightsFormat: string, h5pyAvailable: bool,
                         serialized: Result<ConfigDict>, before: bool): bool
  {
    if SaveChecksPass(filepath, weightsFormat, h5pyAvailable) && serialized.Err? then true else before
  }

  /** The `try` block of `save_model`: the stores, the walk and the archive. */
  method WriteArchive(g: Graph, snake: string -> string, root: nat, built: bool, weightsFormat: string,
                      config: ConfigDict, tmp: string) returns (report: SaveReport)
    requires ValidGraph(g) && root < |g|
    ensures report == ArchiveSpec(g, snake, root, built, weightsFormat, config, tmp)
  {
    var warned := !built;
    var members := BaseMembers(config);
    if weightsFormat == "h5" {
      var weights := new H5IOStore.ForWriting();
      var assets := new DiskIOStore.WithTempDir(tmp, {});
      var visited, cs := SaveState(g, snake, true, true, root, "", {});
      assert cs == SaveCalls(g, snake, root, true);
      var o := SaveVarsH5(weights, g, cs);
      if o.Fail? {
        return SaveReport(o, warned, Some(Archive(members, {})));
      }
      SaveAssets(assets, g, cs);
      members := members[H5MemberName := WeightsMember(H5Weights(H5File(weights.groups, weights.data)))];
      return SaveReport(Pass, warned, Some(Archive(members, AssetMembers(tmp, assets.files))));
    } else if weightsFormat == "npz" {
      var weights := new NpzIOStore.ForWriting();
      var assets := new DiskIOStore.WithTempDir(tmp, {});
      var visited, cs := SaveState(g, snake, true, true, root, "", {});
      assert cs == SaveCalls(g, snake, root, true);
      SaveVarsNpz(weights, g, cs);
      if SavezFileParam in weights.contents {
        return SaveReport(Fail(ValueError), warned, None);
      }
      SaveAssets(assets, g, cs);
      members := members[NpzMemberName := WeightsMember(NpzWeights(weights.contents))];
      return SaveReport(Pass, warned, Some(Archive(members, AssetMembers(tmp, assets.files))));
    } else {
      return SaveReport(Fail(ValueError), warned, Some(Archive(members, {})));
    }
  }

  /** `save_model(model, filepath, weights_format)`, as written: the flag is
      restored on every exit except a failed serialization. */
  method SaveModel(flag: SavingFlag, g: Graph, snake: string -> string, root: nat, built: bool, filepath: string,
                   weightsFormat: string, h5pyAvailable: bool, serialized: Result<ConfigDict>, tmp: string)
    returns (report: SaveReport)
    requires ValidGraph(g) && root < |g|
    modifies flag
    ensures report == SaveModelSpec(g, snake, root, built, filepath, weightsFormat, h5pyAvailable, serialized, tmp)
    ensures flag.value == FlagAfterSave(filepath, weightsFormat, h5pyAvailable, serialized, old(flag.value))
  {
    if !EndsWith(filepath, ".keras") {
      return SaveReport(Fail(ValueError), false, None);
    }
    if weightsFormat == "h5" && !h5pyAvailable {
      return SaveReport(Fail(ImportError), false, None);
    }
    var warned := !built;
    var previous := flag.value;
    flag.value := true;
    if serialized.Err? {
      return SaveReport(Fail(serialized.error), warned, None);
    }
    report := WriteArchive(g, snake, root, built, weightsFormat, serialized.value, tmp);
    flag.value := previous;
  }

  /** `save_model` with the `try` block begun right after the flag is set,
      so that the `finally` block covers the serializer too: the same
      outcome, and the flag restored on every exit. */
  method SaveModelFlagInTry(flag: SavingFlag, g: Graph, snake: string -> string, root: nat, built: bool,
                            filepath: string, weightsFormat: string, h5pyAvailable: bool,
                            serialized: Result<ConfigDict>, tmp: string)
    returns (report: SaveReport)
    requires ValidGraph(g) && root < |g|
    modifies flag
    ensures report == SaveModelSpec(g, snake, root, built, filepath, weightsFormat, h5pyAvailable, serialized, tmp)
    ensures flag.value == old(flag.value)
  {
    if !EndsWith(filepath, ".keras") {
      return SaveReport(Fail(ValueError), false, None);
    }
    if weightsFormat == "h5" && !h5pyAvailable {
      return SaveReport(Fail(ImportError), false, None);
    }
    var warned := !built;
    var previous := flag.value;
    flag.value := true;
    if serialized.Err? {
      report := SaveReport(Fail(serialized.error), warned, None);
    } else {
      report := WriteArchive(g, snake, root, built, weightsFormat, serialized.value, tmp);
    }
    flag.value := previous;
  }

  /* ---------------------------------------------------------------------------
     load_model
     --------------------------------------------------------------------------- */

  /** Reading `config.json`, with `compile_config` nulled when not compiling. */
  function ReadConfig(members: map<string, Member>, compile: bool): Result<ConfigDict>
  {
    if ConfigFilename !in members then Err(KeyError)
    else match members[ConfigFilename]
      case ConfigMember(dict) =>
        if compile then Ok(dict)
        else (match dict.config
          case None => Err(KeyError)
          case Some(mc) => Ok(ConfigDict(Some(mc.(compileConfig := None)))))
      case _ => Err(ValueError)
  }

  /** The weights member a load reads: the `.h5` one if present, else the
      `.npz` one, else `ValueError`. h5py raises `OSError` on a member that is
      not HDF5. On a member that is neither npz nor npy, `np.load` with
      `allow_pickle=True` falls back to `pickle.load`, which raises
      `UnpicklingError`; an empty member raises `EOFError` first. */
  function WeightsChoice(members: map<string, Member>): Result<WeightsFile>
  {
    if H5MemberName in members then
      (match members[H5MemberName]
        case WeightsMember(H5Weights(f)) => Ok(H5Weights(f))
        case _ => Err(OSError))
    else if NpzMemberName in members then
      (match members[NpzMemberName]
        case WeightsMember(NpzWeights(c)) => Ok(NpzWeights(c))
        case Empty => Err(EOFError)
        case _ => Err(UnpicklingError))
    else Err(ValueError)
  }

  /** The asset store of a load: opened, with the member named `assets`
      extracted into the temporary directory, only when that member exists. */
  function AssetsOnLoad(names: set<string>, tmp: string): Option<AssetsDir>
  {
    if AssetsDirname in names then Some(AssetsDir(Some(tmp), Ancestors(tmp), {Join(tmp, AssetsDirname)}))
    else None
  }

  /** What `load_model` yields: the configuration handed to the deserializer
      and, in call order, what each load hook of the model receives. */
  datatype Loaded = Loaded(config: ConfigDict, received: seq<Received>)

  /** `g` is the model the deserializer builds from the configuration. */
  function LoadModelSpec(filepath: string, archive: Archive, g: Graph, snake: string -> string, root: nat,
                         compile: bool, tmp: string): Result<Loaded>
    requires ValidGraph(g) && root < |g|
  {
    if !EndsWith(filepath, ".keras") then Err(ValueError)
    else match ReadConfig(archive.members, compile)
      case Err(e) => Err(e)
      case Ok(config) =>
        match WeightsChoice(archive.members)
        case Err(e) => Err(e)
        case Ok(w) =>
          var assets := AssetsOnLoad(Names(archive), tmp);
          var cs := LoadCalls(g, snake, root, assets.Some?);
          match ReceivedAll(w, assets, cs)
          case Err(e) => Err(e)
          case Ok(xs) => Ok(Loaded(config, xs))
  }

  /** `load_model(filepath, compile=compile)`. */
  method LoadModel(flag: SavingFlag, filepath: string, archive: Archive, g: Graph, snake: string -> string,
                   root: nat, compile: bool, tmp: string) returns (r: Result<Loaded>)
    requires ValidGraph(g) && root < |g|
    modifies flag
    ensures r == LoadModelSpec(filepath, archive, g, snake, root, compile, tmp)
    ensures flag.value == old(flag.value)
  {
    if !EndsWith(filepath, ".keras") {
      return Err(ValueError);
    }
    var previous := flag.value;
    flag.value := true;
    var config := ReadConfig(archive.members, compile);
    if config.Err? {
      flag.value := previous;
      return Err(config.error);
    }
    var chosen := WeightsChoice(archive.members);
    if chosen.Err? {
      flag.value := previous;
      return Err(chosen.error);
    }
    var disk: DiskIOStore? := null;
    if AssetsDirname in Names(archive) {
      disk := new DiskIOStore.WithTempDir(tmp, {Join(tmp, AssetsDirname)});
    }
    var visited, cs := LoadState(g, snake, true, disk != null, root, "", {});
    CallsInGraph(g, Load, true, disk != null, WalkNode(g, snake, root, "", {}).visits);
    var received;
    if chosen.value.H5Weights? {
      var f := chosen.value.file;
      var weights := new H5IOStore.ForReading(f.groups, f.data);
      received := LoadFromH5(weights, disk, cs);
    } else {
      var weights := new NpzIOStore.ForReading(chosen.value.contents);
      received := LoadFromNpz(weights, disk, cs);
    }
    flag.value := previous;
    if received.Err? {
      return Err(received.error);
    }
    return Ok(Loaded(config.value, received.value));
  }

  /* ---------------------------------------------------------------------------
     save_weights_only and load_weights_only
     --------------------------------------------------------------------------- */

  /** What `save_weights_only` writes: an HDF5 file of the model's variables,
      with no asset store. */
  function SaveWeightsOnlySpec(g: Graph, snake: string -> string, root: nat, filepath: string): Result<H5File>
    requires ValidGraph(g) && root < |g|
  {
    if !EndsWith(filepath, ".weights.h5") then Err(ValueError)
    else H5Saved(H5File({}, map[]), g, SaveCalls(g, snake, root, false))
  }

  /** `save_weights_only(model, filepath)`. */
  method SaveWeightsOnly(g: Graph, snake: string -> string, root: nat, filepath: string) returns (r: Result<H5File>)
    requires ValidGraph(g) && root < |g|
    ensures r == SaveWeightsOnlySpec(g, snake, root, filepath)
  {
    if !EndsWith(filepath, ".weights.h5") {
      return Err(ValueError);
    }
    var weights := new H5IOStore.ForWriting();
    var visited, cs := SaveState(g, snake, true, false, root, "", {});
    ghost var expected := SaveWeightsOnlySpec(g, snake, root, filepath);
    assert cs == SaveCalls(g, snake, root, false);
    assert expected == H5Saved(H5File({}, map[]), g, cs);
    var o := SaveVarsH5(weights, g, cs);
    if o.Fail? {
      return Err(o.error);
    }
    return Ok(H5File(weights.groups, weights.data));
  }

  /** The weights `load_weights_only` opens: the file itself for
      `.weights.h5`, the archive's `.h5` member for `.keras`, and nothing for
      any other name, so that reading the unassigned store raises
      `UnboundLocalError`. `onDisk` is the HDF5 file at `filepath`, if one
      exists. */
  function WeightsOnlyChoice(filepath: string, onDisk: Option<H5File>, archive: Archive): Result<WeightsFile>
  {
    if EndsWith(filepath, ".weights.h5") then
      (if onDisk.Some? then Ok(H5Weights(onDisk.value)) else Err(OSError))
    else if EndsWith(filepath, ".keras") then
      (if H5MemberName !in archive.members then Err(KeyError)
       else match archive.members[H5MemberName]
         case WeightsMember(H5Weights(f)) => Ok(H5Weights(f))
         case _ => Err(OSError))
    else Err(UnboundLocalError)
  }

  function LoadWeightsOnlySpec(g: Graph, snake: string -> string, root: nat, filepath: string,
                               onDisk: Option<H5File>, archive: Archive): Result<seq<Received>>
    requires ValidGraph(g) && root < |g|
  {
    match WeightsOnlyChoice(filepath, onDisk, archive)
    case Err(e) => Err(e)
    case Ok(w) => ReceivedAll(w, None, LoadCalls(g, snake, root, false))
  }

  /** `load_weights_only(model, filepath)`. */
  method LoadWeightsOnly(g: Graph, snake: string -> string, root: nat, filepath: string,
                         onDisk: Option<H5File>, archive: Archive) returns (r: Result<seq<Received>>)
    requires ValidGraph(g) && root < |g|
    ensures r == LoadWeightsOnlySpec(g, snake, root, filepath, onDisk, archive)
  {
    var chosen := WeightsOnlyChoice(filepath, onDisk, archive);
    if chosen.Err? {
      return Err(chosen.error);
    }
    var f := chosen.value.file;
    var weights := new H5IOStore.ForReading(f.groups, f.data);
    var visited, cs := LoadState(g, snake, true, false, root, "", {});
    CallsInGraph(g, Load, true, false, WalkNode(g, snake, root, "", {}).visits);
    r := LoadFromH5(weights, null, cs);
  }

  /* ---------------------------------------------------------------------------
     What the entry points promise
     --------------------------------------------------------------------------- */

  /** `load_model` rejects a name without the `.keras` extension before it
      opens anything, and a configuration or weights member it cannot use
      ends the load with that error before any hook runs. */
  lemma LoadChecksComeFirst(filepath: string, archive: Archive, g: Graph, snake: string -> string, root: nat,
                            compile: bool, tmp: string)
    requires ValidGraph(g) && root < |g|
    ensures var l := LoadModelSpec(filepath, archive, g, snake, root, compile, tmp);
            && (!EndsWith(filepath, ".keras") ==> l == Err(ValueError))
            && (EndsWith(filepath, ".keras") && ReadConfig(archive.members, compile).Err? ==>
                  l == Err(ReadConfig(archive.members, compile).error))
            && ((EndsWith(filepath, ".keras") && ReadConfig(archive.members, compile).Ok?
                 && WeightsChoice(archive.members).Err?) ==> l == Err(WeightsChoice(archive.members).error))
            && (l.Ok? ==> Ok(l.value.config) == ReadConfig(archive.members, compile))
  {
  }

  /** The `.h5` weights member wins over the `.npz` one; with neither, the
      load raises `ValueError`, and with a usable one it reads exactly that. */
  lemma WeightsChoicePrefersH5(members: map<string, Member>)
    ensures WeightsChoice(members) == Err(ValueError) <==> H5MemberName !in members && NpzMemberName !in members
    ensures (H5MemberName in members && members[H5MemberName].WeightsMember? && members[H5MemberName].weights.H5Weights?)
              ==> WeightsChoice(members) == Ok(members[H5MemberName].weights)
    ensures (H5MemberName !in members && NpzMemberName in members
             && members[NpzMemberName].WeightsMember? && members[NpzMemberName].weights.NpzWeights?)
              ==> WeightsChoice(members) == Ok(members[NpzMemberName].weights)
    ensures (H5MemberName in members
             && !(members[H5MemberName].WeightsMember? && members[H5MemberName].weights.H5Weights?))
              ==> WeightsChoice(members) == Err(OSError)
    ensures (H5MemberName !in members && NpzMemberName in members && members[NpzMemberName] == Empty)
              ==> WeightsChoice(members) == Err(EOFError)
    ensures (H5MemberName !in members && NpzMemberName in members && members[NpzMemberName] != Empty
             && !(members[NpzMemberName].WeightsMember? && members[NpzMemberName].weights.NpzWeights?))
              ==> WeightsChoice(members) == Err(UnpicklingError)
  {
  }

  /** Loading with `compile=False` reads the same configuration as loading
      with `compile=True`, with its `compile_config` set to null. */
  lemma CompileFalseNullsCompileConfig(members: map<string, Member>)
    ensures ReadConfig(members, false).Ok? ==>
              && ReadConfig(members, true).Ok?
              && ReadConfig(members, true).value.config.Some?
              && ReadConfig(members, false)
                 == Ok(ConfigDict(Some(ReadConfig(members, true).value.config.value.(compileConfig := None))))
    ensures ReadConfig(members, false).Ok? ==> ReadConfig(members, false).value.config.value.compileConfig.None?
  {
  }

  /** `save_weights_only` insists on `.weights.h5`; `load_weights_only` reads
      the file itself for `.weights.h5`, the archive's `.h5` member for
      `.keras`, and for any other name fails on its unassigned store. */
  lemma WeightsOnlyDispatch(g: Graph, snake: string -> string, root: nat, filepath: string,
                            onDisk: Option<H5File>, archive: Archive)
    requires ValidGraph(g) && root < |g|
    ensures !EndsWith(filepath, ".weights.h5") ==> SaveWeightsOnlySpec(g, snake, root, filepath) == Err(ValueError)
    ensures !EndsWith(filepath, ".weights.h5") && !EndsWith(filepath, ".keras") ==>
              LoadWeightsOnlySpec(g, snake, root, filepath, onDisk, archive) == Err(UnboundLocalError)
    ensures EndsWith(filepath, ".weights.h5") && onDisk.Some? ==>
              WeightsOnlyChoice(filepath, onDisk, archive) == Ok(H5Weights(onDisk.value))
    ensures EndsWith(filepath, ".keras") && H5MemberName !in archive.members ==>
              LoadWeightsOnlySpec(g, snake, root, filepath, onDisk, archive) == Err(KeyError)
  {
    if EndsWith(filepath, ".keras") {
      assert !EndsWith(filepath, ".weights.h5") by {
        assert filepath[|filepath| - 1] == 's';
      }
    }
  }

  /** `save_model` leaves an archive exactly when the extension check and the
      h5py check pass and the model serializes: all three happen before the
      archive is opened. The warning about an unbuilt model follows the two
      checks alone. */
  lemma SaveChecksComeFirst(g: Graph, snake: string -> string, root: nat, built: bool, filepath: string,
                            weightsFormat: string, h5pyAvailable: bool, serialized: Result<ConfigDict>, tmp: string)
    requires ValidGraph(g) && root < |g|
    ensures var s := SaveModelSpec(g, snake, root, built, filepath, weightsFormat, h5pyAvailable, serialized, tmp);
            (s.written.Some? <==>
               && SaveChecksPass(filepath, weightsFormat, h5pyAvailable) && serialized.Ok?
               && !(weightsFormat == "npz" && SavesVarsAt(SaveCalls(g, snake, root, true), SavezFileParam)))
            && (s.outcome == Pass ==> s.written.Some?)
            && (!EndsWith(filepath, ".keras") ==> s.outcome == Fail(ValueError))
            && ((EndsWith(filepath, ".keras") && weightsFormat == "h5" && !h5pyAvailable) ==> s.outcome == Fail(ImportError))
            && ((SaveChecksPass(filepath, weightsFormat, h5pyAvailable) && serialized.Err?) ==>
                  s.outcome == Fail(serialized.error))
            && (s.warned <==> SaveChecksPass(filepath, weightsFormat, h5pyAvailable) && !built)
  {
    NpzSavedHasPath(g, SaveCalls(g, snake, root, true), SavezFileParam);
  }

  /** The saving flag is left set after `save_model` exactly when it was
      unset before, the two checks passed and the serializer raised; that
      call reports the serializer's error and leaves no archive. Every other
      call restores the flag. */
  lemma SerializeFailureLeavesFlagSet(g: Graph, snake: string -> string, root: nat, built: bool, filepath: string,
                                      weightsFormat: string, h5pyAvailable: bool, serialized: Result<ConfigDict>,
                                      tmp: string, before: bool)
    requires ValidGraph(g) && root < |g|
    ensures var after := FlagAfterSave(filepath, weightsFormat, h5pyAvailable, serialized, before);
            (after != before <==> !before && SaveChecksPass(filepath, weightsFormat, h5pyAvailable) && serialized.Err?)
            && (after != before ==>
                  var s := SaveModelSpec(g, snake, root, built, filepath, weightsFormat, h5pyAvailable, serialized, tmp);
                  s.outcome == Fail(serialized.error) && s.written == None)
  {
  }

  /** An unknown `weights_format` raises `ValueError` only after the archive
      was opened, so the archive is left holding just the metadata and the
      configuration. */
  lemma UnknownFormatLeavesPartialArchive(g: Graph, snake: string -> string, root: nat, built: bool, filepath: string,
                                          weightsFormat: string, h5pyAvailable: bool, serialized: ConfigDict, tmp: string)
    requires ValidGraph(g) && root < |g|
    requires EndsWith(filepath, ".keras") && weightsFormat != "h5" && weightsFormat != "npz"
    ensures var s := SaveModelSpec(g, snake, root, built, filepath, weightsFormat, h5pyAvailable, Ok(serialized), tmp);
            s.outcome == Fail(ValueError) && s.written.Some?
            && Names(s.written.value) == {MetadataFilename, ConfigFilename}
  {
    assert BaseMembers(serialized).Keys == {MetadataFilename, ConfigFilename};
  }

  /** What every archive written by `save_model` holds: the metadata and the
      configuration; and never a member named `assets`, since the asset store
      writes only files below that directory. */
  lemma SavedArchiveBase(g: Graph, snake: string -> string, root: nat, built: bool, filepath: string,
                         weightsFormat: string, h5pyAvailable: bool, serialized: Result<ConfigDict>, tmp: string)
    requires ValidGraph(g) && root < |g|
    ensures var s := SaveModelSpec(g, snake, root, built, filepath, weightsFormat, h5pyAvailable, serialized, tmp);
            s.written.Some? ==>
              var m := s.written.value.members;
              && AssetsDirname !in Names(s.written.value)
              && MetadataFilename in m && m[MetadataFilename] == MetadataMember
              && serialized.Ok? && ConfigFilename in m && m[ConfigFilename] == ConfigMember(serialized.value)
  {
    MemberNamesDistinct();
  }

  /** With `weights_format="npz"` and a `.keras` path, `save_model` fails
      with `ValueError` and leaves no readable archive when a variable hook
      saves at the path `file`. Otherwise it completes, and the archive holds
      the `.npz` member, filled by the walk's variable hooks, and no `.h5`
      member. */
  lemma NpzSavedArchive(g: Graph, snake: string -> string, root: nat, built: bool, filepath: string,
                        h5pyAvailable: bool, serialized: ConfigDict, tmp: string, cs: seq<Call>)
    requires ValidGraph(g) && root < |g| && EndsWith(filepath, ".keras")
    requires cs == SaveCalls(g, snake, root, true)
    ensures var s := SaveModelSpec(g, snake, root, built, filepath, "npz", h5pyAvailable, Ok(serialized), tmp);
            && (SavesVarsAt(cs, SavezFileParam) ==> s.outcome == Fail(ValueError) && s.written == None)
            && (!SavesVarsAt(cs, SavezFileParam) ==>
                  s.outcome == Pass && s.written.Some? &&
                  var m := s.written.value.members;
                  && NpzMemberName in m && H5MemberName !in m
                  && m[NpzMemberName] == WeightsMember(NpzWeights(NpzSaved(map[], g, cs))))
  {
    NpzSavedHasPath(g, cs, SavezFileParam);
    assert H5MemberName !in BaseMembers(serialized);
  }

  /** With `weights_format="h5"`, a completed `save_model` leaves an `.h5`
      member holding an HDF5 file. */
  lemma H5SavedArchive(g: Graph, snake: string -> string, root: nat, built: bool, filepath: string,
                       h5pyAvailable: bool, serialized: Result<ConfigDict>, tmp: string)
    requires ValidGraph(g) && root < |g|
    ensures var s := SaveModelSpec(g, snake, root, built, filepath, "h5", h5pyAvailable, serialized, tmp);
            s.outcome == Pass ==>
              s.written.Some? && var m := s.written.value.members;
              H5MemberName in m && m[H5MemberName].WeightsMember? && m[H5MemberName].weights.H5Weights?
  {
  }

  /** The asset members of a completed `save_model` are those of the files
      the asset hooks left in the temporary directory. */
  lemma SavedAssetMembers(g: Graph, snake: string -> string, root: nat, built: bool, filepath: string,
                          weightsFormat: string, h5pyAvailable: bool, serialized: Result<ConfigDict>, tmp: string, cs: seq<Call>)
    requires ValidGraph(g) && root < |g| && cs == SaveCalls(g, snake, root, true)
    ensures var s := SaveModelSpec(g, snake, root, built, filepath, weightsFormat, h5pyAvailable, serialized, tmp);
            s.outcome == Pass ==>
              s.written.Some? &&
              s.written.value.assetFiles == AssetMembers(tmp, DiskSaved(AssetsDir(Some(tmp), Ancestors(tmp), {}), g, cs).files)
  {
  }

  /** A file `name` that the hook at `p` writes into the directory `make(p)`
      returned lies below the temporary directory at `p/name`. */
  lemma AssetFileRelative(tmp: string, p: string, name: string)
    requires tmp != ""
    ensures var f := Join(DiskMakeResult(Some(tmp), p).value.value, name);
            StrictlyUnder(f, tmp) && RelativeTo(f, tmp) == Join(p, name)
  {
    var dir := DiskMakeResult(Some(tmp), p).value.value;
    var f := Join(dir, name);
    var rel := Join(p, name);
    assert f == tmp + "/" + rel by {
      if p != "" {
        assert dir == tmp + "/" + p;
        assert f == tmp + "/" + p + "/" + name;
      }
    }
    assert f[..|tmp| + 1] == tmp + "/";
    assert f[|tmp| + 1..] == rel;
  }

  /** Every file an asset hook writes during a successful `save_model` is in
      the archive, as `assets/` followed by the hook's path and the file's
      name. */
  lemma SavedAssetFilesArchived(g: Graph, snake: string -> string, root: nat, built: bool, filepath: string,
                                weightsFormat: string, h5pyAvailable: bool, serialized: Result<ConfigDict>, tmp: string,
                                k: nat, name: string)
    requires ValidGraph(g) && root < |g| && tmp != "" && name != ""
    requires k < |SaveCalls(g, snake, root, true)|
    requires SaveCalls(g, snake, root, true)[k].store == AssetsStore
    requires name in g[SaveCalls(g, snake, root, true)[k].id].assetFiles
    ensures var s := SaveModelSpec(g, snake, root, built, filepath, weightsFormat, h5pyAvailable, serialized, tmp);
            s.outcome == Pass ==>
              AssetsDirname + "/" + Join(SaveCalls(g, snake, root, true)[k].path, name) in s.written.value.assetFiles
  {
    var cs := SaveCalls(g, snake, root, true);
    var start := AssetsDir(Some(tmp), Ancestors(tmp), {});
    var p := cs[k].path;
    DiskSavedHolds(start, g, cs, k, name);
    AssetFileRelative(tmp, p, name);
    var f := Join(DiskMakeResult(Some(tmp), p).value.value, name);
    var assets := DiskSaved(start, g, cs);
    assert AssetsDirname + "/" + RelativeTo(f, tmp) in AssetMembers(tmp, assets.files);
    SavedAssetMembers(g, snake, root, built, filepath, weightsFormat, h5pyAvailable, serialized, tmp, cs);
  }

  /** `load_model` opens an asset store only for a member named exactly
      `assets`, which `save_model` never writes: loading a saved archive runs
      no asset hook, so the asset files saved above are never handed back. */
  lemma SavedAssetsNeverLoaded(g1: Graph, g2: Graph, snake: string -> string, root: nat, built: bool, filepath: string,
                               weightsFormat: string, h5pyAvailable: bool, serialized: Result<ConfigDict>, tmp: string,
                               compile: bool, tmpLoad: string)
    requires ValidGraph(g1) && ValidGraph(g2) && root < |g1| && root < |g2|
    ensures var s := SaveModelSpec(g1, snake, root, built, filepath, weightsFormat, h5pyAvailable, serialized, tmp);
            s.written.Some? ==>
              AssetsOnLoad(Names(s.written.value), tmpLoad) == None
              && var l := LoadModelSpec(filepath, s.written.value, g2, snake, root, compile, tmpLoad);
                 l.Ok? ==> forall k :: 0 <= k < |l.value.received| ==> l.value.received[k].VarsReceived?
  {
    SavedArchiveBase(g1, snake, root, built, filepath, weightsFormat, h5pyAvailable, serialized, tmp);
    var s := SaveModelSpec(g1, snake, root, built, filepath, weightsFormat, h5pyAvailable, serialized, tmp);
    if s.written.Some? {
      var members := s.written.value.members;
      var l := LoadModelSpec(filepath, s.written.value, g2, snake, root, compile, tmpLoad);
      if l.Ok? {
        var w := WeightsChoice(members).value;
        var cs := LoadCalls(g2, snake, root, false);
        ReceivedOnlyVars(w, cs);
      }
    }
  }
  /** The asset-store test `load_model` evidently intends: some member of the
      archive lies under `assets/`, as every member the asset store writes
      does. */
  predicate HasAssetMembers(names: set<string>)
  {
    exists m :: m in names && StartsWith(m, AssetsDirname + "/")
  }

  /** Under that test, every successful save in which an asset hook wrote a
      file leaves an archive for which the load opens its asset store, while
      the test as written (`SavedAssetsNeverLoaded`) never does. */
  lemma SavedAssetsFoundFixed(g: Graph, snake: string -> string, root: nat, built: bool, filepath: string,
                              weightsFormat: string, h5pyAvailable: bool, serialized: Result<ConfigDict>, tmp: string,
                              k: nat, name: string)
    requires ValidGraph(g) && root < |g| && tmp != "" && name != ""
    requires k < |SaveCalls(g, snake, root, true)|
    requires SaveCalls(g, snake, root, true)[k].store == AssetsStore
    requires name in g[SaveCalls(g, snake, root, true)[k].id].assetFiles
    ensures var s := SaveModelSpec(g, snake, root, built, filepath, weightsFormat, h5pyAvailable, serialized, tmp);
            s.outcome == Pass ==> s.written.Some? && HasAssetMembers(Names(s.written.value))
  {
    var s := SaveModelSpec(g, snake, root, built, filepath, weightsFormat, h5pyAvailable, serialized, tmp);
    SavedAssetFilesArchived(g, snake, root, built, filepath, weightsFormat, h5pyAvailable, serialized, tmp, k, name);
    if s.outcome == Pass {
      SaveChecksComeFirst(g, snake, root, built, filepath, weightsFormat, h5pyAvailable, serialized, tmp);
      var m := AssetsDirname + "/" + Join(SaveCalls(g, snake, root, true)[k].path, name);
      assert m[..|AssetsDirname + "/"|] == AssetsDirname + "/";
      assert m in Names(s.written.value);
    }
  }


  /** With no asset store, every hook handed anything is a variable hook. */
  lemma {:induction false} ReceivedOnlyVars(w: WeightsFile, cs: seq<Call>)
    requires NoAssetCalls(cs)
    ensures ReceivedAll(w, None, cs).Ok? ==>
              var xs := ReceivedAll(w, None, cs).value;
              |xs| == |cs| && forall k :: 0 <= k < |xs| ==> xs[k].VarsReceived?
  {
    if cs != [] {
      var rest := cs[1..];
      assert forall k :: 0 <= k < |rest| ==> rest[k] == cs[k + 1];
      ReceivedOnlyVars(w, rest);
    }
  }

  /** The `.npz` contents a saved model leaves hold, at the key of every
      variable hook the load walk of a same-shaped model calls, exactly the
      variables the saving model's counterpart hook saved. */
  lemma NpzSavedServesLoad(g1: Graph, g2: Graph, snake: string -> string, root: nat,
                           cs: seq<Call>, ls: seq<Call>)
    requires ValidGraph(g1) && ValidGraph(g2) && WellNamed(g1, snake) && SameShape(g1, g2) && HooksPaired(g1, g2)
    requires root < |g1|
    requires cs == SaveCalls(g1, snake, root, true) && ls == LoadCalls(g2, snake, root, false)
    ensures forall k :: 0 <= k < |ls| ==> NpzLookup(NpzSaved(map[], g1, cs), ls[k].path) == g1[ls[k].id].vars
  {
    var none: set<nat> := {};
    var t1 := WalkNode(g1, snake, root, "", none).visits;
    var t2 := WalkNode(g2, snake, root, "", none).visits;
    WalkNodeShapeOnly(g1, g2, snake, root, "", none);
    assert cs == Calls(g1, Save, true, true, t1);
    assert ls == Calls(g2, Load, true, false, t2);
    WalkNodePaths(g1, snake, root, "", none);
    RootKeyIsNeverAPath(g1, snake, root);
    DistinctVisitsDistinctKeys(g1, Save, true, true, t1);
    forall k | 0 <= k < |ls| ensures NpzLookup(NpzSaved(map[], g1, cs), ls[k].path) == g1[ls[k].id].vars {
      var c := ls[k];
      CallOrigin(g2, Load, true, false, t2, c);
      var v := Visit(c.id, c.path);
      CallOfVisit(g1, Save, true, true, t1, v);
      var m :| 0 <= m < |cs| && cs[m] == Call(Save, WeightsStore, c.id, c.path);
      NpzSavedHolds(map[], g1, cs, m);
    }
  }

  /** The `.npz` a save leaves holds a root entry exactly when the model's
      class defines `_save_own_variables`. */
  lemma NpzRootEntry(g: Graph, snake: string -> string, root: nat, cs: seq<Call>)
    requires ValidGraph(g) && WellNamed(g, snake) && root < |g|
    requires cs == SaveCalls(g, snake, root, true)
    ensures RootKey in NpzSaved(map[], g, cs) <==> g[root].hooks.saveVars
  {
    var none: set<nat> := {};
    var t := WalkNode(g, snake, root, "", none).visits;
    assert cs == Calls(g, Save, true, true, t);
    WalkNodePaths(g, snake, root, "", none);
    RootKeyIsNeverAPath(g, snake, root);
    RootVarsCall(g, Save, true, t, root, cs);
    NpzSavedKeys(map[], g, cs, RootKey);
    forall k | 0 <= k < |cs| && cs[k].store == WeightsStore
      ensures NpzKey(cs[k].path) == RootKey <==> cs[k].path == ""
    {
      CallOrigin(g, Save, true, true, t, cs[k]);
    }
  }

  /** The load walk of a model without asset store reads the root path
      exactly when the model's class defines `_load_own_variables`. */
  lemma LoadReadsRoot(g1: Graph, g2: Graph, snake: string -> string, root: nat, ls: seq<Call>)
    requires ValidGraph(g1) && ValidGraph(g2) && WellNamed(g1, snake) && SameShape(g1, g2) && root < |g1|
    requires ls == LoadCalls(g2, snake, root, false)
    ensures ReadsRoot(ls) <==> g2[root].hooks.loadVars
  {
    var none: set<nat> := {};
    var t := WalkNode(g2, snake, root, "", none).visits;
    WalkNodeShapeOnly(g1, g2, snake, root, "", none);
    WalkNodePaths(g1, snake, root, "", none);
    assert ls == Calls(g2, Load, true, false, t);
    RootVarsCall(g2, Load, false, t, root, ls);
  }

  /** The round trip through the `.npz` format, as written: saving a model
      and loading the archive into a model of the same shape whose load hooks
      pair with the saved model's save hooks. When the model's own class
      saves variables, the root entry exists and its `get` raises
      `TypeError`; otherwise the load succeeds and hands every variable hook
      exactly the variables its counterpart saved. Requires the walk's paths
      to be distinct, which well-named graphs guarantee. */
  lemma NpzSaveLoadRoundTrip(g1: Graph, g2: Graph, snake: string -> string, root: nat, built: bool, filepath: string,
                             h5pyAvailable: bool, serialized: ConfigDict, tmp: string, compile: bool, tmpLoad: string)
    requires ValidGraph(g1) && ValidGraph(g2) && WellNamed(g1, snake) && SameShape(g1, g2) && HooksPaired(g1, g2)
    requires root < |g1| && EndsWith(filepath, ".keras") && (compile || serialized.config.Some?)
    ensures var s := SaveModelSpec(g1, snake, root, built, filepath, "npz", h5pyAvailable, Ok(serialized), tmp);
            var cs := SaveCalls(g1, snake, root, true);
            && (SavesVarsAt(cs, SavezFileParam) ==> s.outcome == Fail(ValueError) && s.written == None)
            && (!SavesVarsAt(cs, SavezFileParam) ==>
                  s.outcome == Pass && s.written.Some? &&
                  var l := LoadModelSpec(filepath, s.written.value, g2, snake, root, compile, tmpLoad);
                  var ls := LoadCalls(g2, snake, root, false);
                  && (g1[root].hooks.saveVars ==> l == Err(TypeError))
                  && (!g1[root].hooks.saveVars ==>
                        && l.Ok? && l.value.config == ReadConfig(BaseMembers(serialized), compile).value
                        && |l.value.received| == |ls|
                        && forall k :: 0 <= k < |ls| ==> l.value.received[k] == VarsReceived(g1[ls[k].id].vars)))
  {
    var s := SaveModelSpec(g1, snake, root, built, filepath, "npz", h5pyAvailable, Ok(serialized), tmp);
    var cs := SaveCalls(g1, snake, root, true);
    var ls := LoadCalls(g2, snake, root, false);
    NpzSavedArchive(g1, snake, root, built, filepath, h5pyAvailable, serialized, tmp, cs);
    if SavesVarsAt(cs, SavezFileParam) {
      return;
    }
    SavedArchiveBase(g1, snake, root, built, filepath, "npz", h5pyAvailable, Ok(serialized), tmp);
    var final := NpzSaved(map[], g1, cs);
    LoadNpzArchive(filepath, s.written.value, g2, snake, root, compile, tmpLoad, final, ls);
    NpzRootEntry(g1, snake, root, cs);
    LoadReadsRoot(g1, g2, snake, root, ls);
    NpzSavedServesLoad(g1, g2, snake, root, cs, ls);
  }

  /** With the root entry read through `.tolist()` like the others, the
      `get` of every variable hook of the load walk succeeds on the `.npz` a
      save leaves and returns exactly the variables its counterpart saved,
      whether or not the model's own class saves variables. */
  lemma NpzFixedServesLoad(g1: Graph, g2: Graph, snake: string -> string, root: nat, cs: seq<Call>, ls: seq<Call>)
    requires ValidGraph(g1) && ValidGraph(g2) && WellNamed(g1, snake) && SameShape(g1, g2) && HooksPaired(g1, g2)
    requires root < |g1|
    requires cs == SaveCalls(g1, snake, root, true) && ls == LoadCalls(g2, snake, root, false)
    ensures forall k :: 0 <= k < |ls| ==> NpzReadLookupFixed(NpzSaved(map[], g1, cs), ls[k].path) == Ok(g1[ls[k].id].vars)
  {
    NpzSavedServesLoad(g1, g2, snake, root, cs, ls);
  }

  /** Loading an archive whose weights are the `.npz` contents `final`, with
      no `.h5` member and no `assets` member: the load runs the variable hooks
      only. It raises `TypeError` when `final` has a root entry that some
      hook reads; otherwise each hook receives the entry at its path. */
  lemma LoadNpzArchive(filepath: string, archive: Archive, g: Graph, snake: string -> string, root: nat,
                       compile: bool, tmp: string, final: map<string, Vars>, ls: seq<Call>)
    requires ValidGraph(g) && root < |g| && EndsWith(filepath, ".keras")
    requires ReadConfig(archive.members, compile).Ok?
    requires H5MemberName !in archive.members && NpzMemberName in archive.members
    requires archive.members[NpzMemberName] == WeightsMember(NpzWeights(final))
    requires AssetsDirname !in Names(archive)
    requires ls == LoadCalls(g, snake, root, false)
    ensures var l := LoadModelSpec(filepath, archive, g, snake, root, compile, tmp);
            && (RootKey in final && ReadsRoot(ls) ==> l == Err(TypeError))
            && (!(RootKey in final && ReadsRoot(ls)) ==>
                  && l.Ok? && l.value.config == ReadConfig(archive.members, compile).value
                  && |l.value.received| == |ls|
                  && forall k :: 0 <= k < |ls| ==> l.value.received[k] == VarsReceived(NpzLookup(final, ls[k].path)))
  {
    assert WeightsChoice(archive.members) == Ok(NpzWeights(final));
    NpzReceivedAll(final, ls);
  }
}
