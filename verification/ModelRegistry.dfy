/**
  The registry of loaded models: versions, the active one, and where their files are.
  Every method of ModelService holds the registry's lock, so each call is one step.
 */
module ModelRegistry {
  import opened Common
  import Strings

  datatype LoadedModel = LoadedModel(name: string, version: string, backend: string, session: nat)

  function Key(name: string, version: string): string {
    name + ":" + version
  }

  /** Keys join name and version with a colon: for colon-free names they tell models apart. */
  lemma KeyInjective(name: string, version: string, name': string, version': string)
    requires ':' !in name && ':' !in name'
    ensures Key(name, version) == Key(name', version') <==> name == name' && version == version'
  {
    if Key(name, version) == Key(name', version') {
      Strings.SplitAtFirstColon(name, version, name', version');
    }
  }

  // ------------------------------------------------------------------ registry

  datatype Registry = Registry(models: map<string, LoadedModel>, active: map<string, string>)

  datatype Refusal = NotRegistered | UnknownName | WrongBackend

  const EMPTY: Registry := Registry(map[], map[])

  function Registered(s: Registry, m: LoadedModel, makeActive: bool): Registry {
    Registry(s.models[Key(m.name, m.version) := m],
             if makeActive || m.name !in s.active then s.active[m.name := m.version] else s.active)
  }

  function Activated(s: Registry, name: string, version: string): Registry {
    if Key(name, version) in s.models then s.(active := s.active[name := version]) else s
  }

  /** get; a version that is None or empty means the active one. */
  function Get(s: Registry, name: string, version: Option<string>): Result<LoadedModel, Refusal> {
    var pinned := version.Some? && version.value != "";
    if !pinned && name !in s.active then Err(UnknownName)
    else
      var resolved := if pinned then version.value else s.active[name];
      if Key(name, resolved) in s.models then Ok(s.models[Key(name, resolved)]) else Err(NotRegistered)
  }

  /** get_for_backend: a pinned runtime must be the one the model was loaded with. */
  function GetForBackend(s: Registry, name: string, version: Option<string>, backend: Option<string>)
    : Result<LoadedModel, Refusal>
  {
    var r := Get(s, name, version);
    if r.Ok? && backend.Some? && backend.value != r.value.backend then Err(WrongBackend) else r
  }

  class ModelService {
    var models: map<string, LoadedModel>
    var active: map<string, string>

    function View(): Registry
      reads this
    {
      Registry(models, active)
    }

    constructor ()
      ensures View() == EMPTY
    {
      models, active := map[], map[];
    }

    method Register(m: LoadedModel, makeActive: bool)
      modifies this
      ensures View() == Registered(old(View()), m, makeActive)
    {
      models := models[Key(m.name, m.version) := m];
      if makeActive || m.name !in active {
        active := active[m.name := m.version];
      }
    }

    method SetActive(name: string, version: string) returns (refused: bool)
      modifies this
      ensures View() == Activated(old(View()), name, version)
      ensures refused <==> Key(name, version) !in old(models)
    {
      if Key(name, version) !in models {
        return true;
      }
      active := active[name := version];
      return false;
    }

    method Resolve(name: string, version: Option<string>) returns (r: Result<LoadedModel, Refusal>)
      ensures r == Get(View(), name, version)
    {
      var resolved: Option<string> := if version.Some? && version.value != "" then version
                                      else if name in active then Some(active[name])
                                      else None;
      if resolved.None? {
        return Err(UnknownName);
      }
      if Key(name, resolved.value) !in models {
        return Err(NotRegistered);
      }
      return Ok(models[Key(name, resolved.value)]);
    }

    method ResolveForBackend(name: string, version: Option<string>, backend: Option<string>)
      returns (r: Result<LoadedModel, Refusal>)
      ensures r == GetForBackend(View(), name, version, backend)
    {
      r := Resolve(name, version);
      if r.Err? || backend.None? || r.value.backend == backend.value {
        return;
      }
      return Err(WrongBackend);
    }
  }

  datatype Operation = Register(m: LoadedModel, makeActive: bool) | SetActive(name: string, version: string)

  function Perform(s: Registry, op: Operation): Registry {
    match op
    case Register(m, makeActive) => Registered(s, m, makeActive)
    case SetActive(name, version) => Activated(s, name, version)
  }

  function PerformAll(s: Registry, ops: seq<Operation>): Registry {
    if ops == [] then s else Perform(PerformAll(s, ops[..|ops| - 1]), ops[|ops| - 1])
  }

  /** Every entry sits under its own key. */
  ghost predicate OwnKeys(s: Registry) {
    forall key | key in s.models :: Key(s.models[key].name, s.models[key].version) == key
  }

  ghost predicate ActiveRegistered(s: Registry) {
    forall name | name in s.active :: Key(name, s.active[name]) in s.models
  }

  ghost predicate NamesActive(s: Registry) {
    forall key | key in s.models :: s.models[key].name in s.active
  }

  ghost predicate Sane(s: Registry) {
    OwnKeys(s) && ActiveRegistered(s) && NamesActive(s)
  }

  lemma EmptySane()
    ensures Sane(EMPTY)
  {
  }

  lemma StepKeepsOwnKeys(s: Registry, op: Operation)
    requires OwnKeys(s)
    ensures OwnKeys(Perform(s, op))
  {
    hide Key;
  }

  lemma StepKeepsActiveRegistered(s: Registry, op: Operation)
    requires ActiveRegistered(s)
    ensures ActiveRegistered(Perform(s, op))
  {
    hide Key;
  }

  lemma StepKeepsNamesActive(s: Registry, op: Operation)
    requires NamesActive(s)
    ensures NamesActive(Perform(s, op))
  {
    hide Key;
  }

  lemma StepKeepsSane(s: Registry, op: Operation)
    requires Sane(s)
    ensures Sane(Perform(s, op))
    ensures s.models.Keys <= Perform(s, op).models.Keys && s.active.Keys <= Perform(s, op).active.Keys
  {
    hide Key, OwnKeys, ActiveRegistered, NamesActive;
    StepKeepsOwnKeys(s, op);
    StepKeepsActiveRegistered(s, op);
    StepKeepsNamesActive(s, op);
  }

  /** In every run the active version of every name stays registered, and nothing is unregistered. */
  lemma {:induction false} RunKeepsSane(s: Registry, ops: seq<Operation>)
    requires Sane(s)
    ensures Sane(PerformAll(s, ops))
    ensures s.models.Keys <= PerformAll(s, ops).models.Keys && s.active.Keys <= PerformAll(s, ops).active.Keys
  {
    hide Sane, Perform;
    if ops != [] {
      RunKeepsSane(s, ops[..|ops| - 1]);
      StepKeepsSane(PerformAll(s, ops[..|ops| - 1]), ops[|ops| - 1]);
    }
  }

  /** Registering without make_active leaves the active version of every known name alone. */
  lemma RegisterKeepsActive(s: Registry, m: LoadedModel, name: string)
    requires name in s.active
    ensures name in Registered(s, m, false).active && Registered(s, m, false).active[name] == s.active[name]
    ensures Key(m.name, m.version) != Key(name, s.active[name])
      ==> Get(Registered(s, m, false), name, None) == Get(s, name, None)
  {
    hide Key;
  }

  predicate ColonFree(ops: seq<Operation>) {
    forall i | 0 <= i < |ops| :: if ops[i].Register? then ':' !in ops[i].m.name else ':' !in ops[i].name
  }

  /** The latest model registered under exactly this name and version. */
  function LastRegistered(ops: seq<Operation>, name: string, version: string): Option<LoadedModel> {
    if ops == [] then None
    else
      var op := ops[|ops| - 1];
      if op.Register? && op.m.name == name && op.m.version == version then Some(op.m)
      else LastRegistered(ops[..|ops| - 1], name, version)
  }

  /** The registry's dictionary is the history of registrations, looked up by name and version. */
  lemma {:induction false} ModelsAreHistory(ops: seq<Operation>, name: string, version: string)
    requires ColonFree(ops) && ':' !in name
    ensures var s := PerformAll(EMPTY, ops);
      (if Key(name, version) in s.models then Some(s.models[Key(name, version)]) else None)
      == LastRegistered(ops, name, version)
  {
    hide Key;
    if ops != [] {
      ModelsAreHistory(ops[..|ops| - 1], name, version);
      var op := ops[|ops| - 1];
      if op.Register? {
        KeyInjective(op.m.name, op.m.version, name, version);
      }
    }
  }

  /** A pinned version is served exactly if it was registered, by the latest model of that name and version. */
  lemma PinnedIsHonoured(ops: seq<Operation>, name: string, version: string)
    requires ColonFree(ops) && ':' !in name && version != ""
    ensures var r := Get(PerformAll(EMPTY, ops), name, Some(version));
      match LastRegistered(ops, name, version)
      case Some(m) => r == Ok(m) && m.name == name && m.version == version
      case None => r == Err(NotRegistered)
  {
    hide Key;
    ModelsAreHistory(ops, name, version);
    LastRegisteredFits(ops, name, version);
  }

  lemma {:induction false} LastRegisteredFits(ops: seq<Operation>, name: string, version: string)
    ensures var m := LastRegistered(ops, name, version); m.Some? ==> m.value.name == name && m.value.version == version
  {
    if ops != [] {
      LastRegisteredFits(ops[..|ops| - 1], name, version);
    }
  }

  predicate EverRegistered(ops: seq<Operation>, name: string) {
    ops != [] && ((ops[|ops| - 1].Register? && ops[|ops| - 1].m.name == name)
                  || EverRegistered(ops[..|ops| - 1], name))
  }

  lemma {:induction false} LastImpliesEver(ops: seq<Operation>, name: string, version: string)
    requires LastRegistered(ops, name, version).Some?
    ensures EverRegistered(ops, name)
  {
    if !(ops[|ops| - 1].Register? && ops[|ops| - 1].m.name == name) {
      LastImpliesEver(ops[..|ops| - 1], name, version);
    }
  }

  lemma {:induction false} ActiveNames(ops: seq<Operation>, name: string)
    requires ColonFree(ops) && ':' !in name
    ensures name in PerformAll(EMPTY, ops).active <==> EverRegistered(ops, name)
  {
    hide Key;
    if ops != [] {
      var front := ops[..|ops| - 1];
      ActiveNames(front, name);
      match ops[|ops| - 1] {
        case Register(m, makeActive) =>
        case SetActive(n, version) =>
          if n == name && Key(n, version) in PerformAll(EMPTY, front).models {
            ModelsAreHistory(front, name, version);
            LastImpliesEver(front, name, version);
          }
      }
    }
  }

  /**
    After any run an unpinned request is served exactly if a model of that name was ever
    registered, and then by a model of that name in its active version.
   */
  lemma UnpinnedServedExactly(ops: seq<Operation>, name: string)
    requires ColonFree(ops) && ':' !in name
    ensures var s := PerformAll(EMPTY, ops);
      var r := Get(s, name, None);
      && (r.Ok? <==> EverRegistered(ops, name))
      && (r.Ok? ==> r.value.name == name && name in s.active && r.value.version == s.active[name])
  {
    hide Key;
    var s := PerformAll(EMPTY, ops);
    ActiveNames(ops, name);
    RunKeepsSane(EMPTY, ops);
    if name in s.active {
      ModelsAreHistory(ops, name, s.active[name]);
      LastRegisteredFits(ops, name, s.active[name]);
    }
  }

  /**
    The version last activated under this name: by registering with make_active or as the
    first of the name, or by set_active on a version registered before.
   */
  function LastActivated(ops: seq<Operation>, name: string): Option<string> {
    if ops == [] then None
    else
      var before := LastActivated(ops[..|ops| - 1], name);
      match ops[|ops| - 1]
      case Register(m, makeActive) => if m.name == name && (makeActive || before.None?) then Some(m.version) else before
      case SetActive(n, version) =>
        if n == name && LastRegistered(ops[..|ops| - 1], name, version).Some? then Some(version) else before
  }

  lemma {:induction false} ActiveIsLastActivated(ops: seq<Operation>, name: string)
    requires ColonFree(ops) && ':' !in name
    ensures var active := PerformAll(EMPTY, ops).active;
      (if name in active then Some(active[name]) else None) == LastActivated(ops, name)
  {
    hide Key;
    if ops != [] {
      var front := ops[..|ops| - 1];
      ActiveIsLastActivated(front, name);
      if ops[|ops| - 1].SetActive? {
        ModelsAreHistory(front, name, ops[|ops| - 1].version);
      }
    }
  }

  /** An unpinned request gets the latest model registered under the version last activated. */
  lemma UnpinnedGetsLastActivated(ops: seq<Operation>, name: string)
    requires ColonFree(ops) && ':' !in name
    ensures match LastActivated(ops, name)
      case None => Get(PerformAll(EMPTY, ops), name, None) == Err(UnknownName)
      case Some(version) =>
        && LastRegistered(ops, name, version).Some?
        && Get(PerformAll(EMPTY, ops), name, None) == Ok(LastRegistered(ops, name, version).value)
  {
    hide Key, LastRegistered, LastActivated, PerformAll;
    ActiveIsLastActivated(ops, name);
    EmptySane();
    RunKeepsSane(EMPTY, ops);
    var active := PerformAll(EMPTY, ops).active;
    if name in active {
      ModelsAreHistory(ops, name, active[name]);
    }
  }

  /** A pinned version with a pinned runtime is served exactly if the latest such model was loaded with it. */
  lemma BackendIsHonoured(ops: seq<Operation>, name: string, version: string, backend: string, m: LoadedModel)
    requires ColonFree(ops) && ':' !in name && version != ""
    ensures GetForBackend(PerformAll(EMPTY, ops), name, Some(version), Some(backend)) == Ok(m)
       <==> LastRegistered(ops, name, version) == Some(m) && m.backend == backend
    ensures GetForBackend(PerformAll(EMPTY, ops), name, Some(version), None) == Ok(m)
       <==> LastRegistered(ops, name, version) == Some(m)
  {
    hide Key, Get, LastRegistered, PerformAll;
    PinnedIsHonoured(ops, name, version);
  }

  /** is_active */
  predicate IsActive(s: Registry, m: LoadedModel) {
    m.name in s.active && s.active[m.name] == m.version
  }

  /** A registered model is the active one exactly if it is what an unpinned request gets. */
  lemma ActiveIsWhatUnpinnedGet(ops: seq<Operation>, m: LoadedModel)
    requires ColonFree(ops) && ':' !in m.name && LastRegistered(ops, m.name, m.version) == Some(m)
    ensures IsActive(PerformAll(EMPTY, ops), m) <==> Get(PerformAll(EMPTY, ops), m.name, None) == Ok(m)
  {
    hide Key, LastRegistered;
    ModelsAreHistory(ops, m.name, m.version);
    UnpinnedServedExactly(ops, m.name);
  }

  // ----------------------------------------------------------------- artefacts

  const DEFAULT_VERSION := "v1"

  /** A file in a version's directory, or in the flat layout beside the version directories. */
  datatype Path = Versioned(version: string, filename: string) | Flat(filename: string)

  /** resolve_versioned_artifact, given the files that exist. */
  function LocateArtifact(existing: set<Path>, filename: string, version: string): Path {
    if Versioned(version, filename) in existing || version != DEFAULT_VERSION then Versioned(version, filename)
    else Flat(filename)
  }

  /** resolve_versioned_metadata */
  function LocateMetadata(existing: set<Path>, filename: string, version: string): Option<Path> {
    if Versioned(version, filename) in existing then Some(Versioned(version, filename))
    else if version == DEFAULT_VERSION && Flat(filename) in existing then Some(Flat(filename))
    else None
  }

  /** Whatever is on disk, two versions never share weights or labels. */
  lemma VersionsNeverShareFiles(existing: set<Path>, filename: string, v: string, w: string)
    requires v != w
    ensures LocateArtifact(existing, filename, v) != LocateArtifact(existing, filename, w)
    ensures LocateMetadata(existing, filename, v).Some? && LocateMetadata(existing, filename, w).Some? ==>
      LocateMetadata(existing, filename, v) != LocateMetadata(existing, filename, w)
  {
    assert v == DEFAULT_VERSION ==> w != DEFAULT_VERSION;
  }

  /**
    A version's weights and labels come from the same layout exactly unless it is the
    default version and its directory has only one of the two files.
   */
  lemma SameLayoutExactly(existing: set<Path>, weights: string, labels: string, version: string)
    requires LocateMetadata(existing, labels, version).Some?
    ensures
      (LocateArtifact(existing, weights, version).Flat? <==> LocateMetadata(existing, labels, version).value.Flat?)
      <==> (version == DEFAULT_VERSION ==>
              (Versioned(version, weights) in existing <==> Versioned(version, labels) in existing))
  {
  }
}
