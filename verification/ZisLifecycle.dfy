/** The server's life as a transition system: start, clean-up, installation one field write
    at a time, stop, crash and restart.  Router calls may happen between any two steps. */
module ZisLifecycle {
  import opened Common
  import opened ZisStorage

  /** Where the (single-threaded) server is. */
  datatype Control =
    | Down
    | Cleaning(p: nat, k: nat, stateCleared: bool, starting: bool)
    | Ready
    | Relocating(plugin: Plugin, pa: nat)
    | PluginInit(plugin: Plugin, pa: nat)
    | Installing(plugin: Plugin, pa: nat, i: nat, phase: Phase)

  /** Progress through the installation of one service. */
  datatype Phase =
    | Finding
    | Creating
    | Updating(id: AnchorId, writes: nat)
    | Initialising(id: AnchorId)
    | Putting(id: AnchorId)
    | Activating(id: AnchorId)

  /** `names` are the plug-ins in the server's own list; `installed` maps a path to the descriptor of
      the service a plug-in brought since the last completed clean-up; `started` are the paths whose
      installation was completed since then. */
  datatype State = State(
    st: Storage,
    pc: Control,
    names: set<Name>,
    installed: map<Path, Service>,
    started: set<Path>)

  datatype Action =
    | Start
    | ClearState
    | ClearServe
    | NextPlugin
    | CleanDone
    | Stop
    | Crash
    | BeginInstall(plugin: Plugin)
    | RelocateFailed
    | Relocated(copy: Plugin)
    | PluginInited(ok: bool)
    | FindAnchor
    | CreateAnchor(id: AnchorId)
    | AllocFailed
    | WriteField
    | ServiceInited(ok: bool)
    | TablePut(ok: bool)
    | Activate
    | InstallDone

  /** What the installer relies on: unique service names within a plug-in, and no null routine. */
  predicate DescriptorOk(plugin: Plugin) {
    && (forall i, j :: 0 <= i < j < |plugin.services| ==> plugin.services[i].name != plugin.services[j].name)
    && (forall i :: 0 <= i < |plugin.services| ==> plugin.services[i].serve != NULL_ROUTINE)
  }

  function ServicePath(plugin: Plugin, i: nat): Path
    requires i < |plugin.services|
  {
    Path(plugin.name, plugin.services[i].name)
  }

  /** Descriptors by path. */
  function Descriptors(plugin: Plugin): (m: map<Path, Service>)
    requires DescriptorOk(plugin)
    ensures forall path :: path in m ==> path.plugin == plugin.name && m[path].serve != NULL_ROUTINE
    ensures forall i :: 0 <= i < |plugin.services| ==>
      ServicePath(plugin, i) in m && m[ServicePath(plugin, i)] == plugin.services[i]
  {
    map i | 0 <= i < |plugin.services| :: ServicePath(plugin, i) := plugin.services[i]
  }

  predicate Running(pc: Control) {
    pc.Ready? || pc.Relocating? || pc.PluginInit? || pc.Installing?
  }

  // ----- steps

  predicate CleaningAt(s: State) {
    s.pc.Cleaning? && s.pc.p < |s.st.plugins| && s.pc.k < |s.st.plugins[s.pc.p].services|
  }

  predicate InstallingAt(s: State) {
    && s.pc.Installing?
    && s.pc.pa < |s.st.plugins|
    && s.pc.i < |s.pc.plugin.services|
  }

  function Current(s: State): Service
    requires InstallingAt(s)
  {
    s.pc.plugin.services[s.pc.i]
  }

  function CurrentPath(s: State): Path
    requires InstallingAt(s)
  {
    ServicePath(s.pc.plugin, s.pc.i)
  }

  predicate Enabled(s: State, act: Action)
    requires Linked(s.st)
  {
    match act
    case Start => s.pc.Down?
    case ClearState => CleaningAt(s) && !s.pc.stateCleared
    case ClearServe => CleaningAt(s) && s.pc.stateCleared
    case NextPlugin =>
      s.pc.Cleaning? && s.pc.p < |s.st.plugins| && s.pc.k == |s.st.plugins[s.pc.p].services| && !s.pc.stateCleared
    case CleanDone => s.pc.Cleaning? && s.pc.p == |s.st.plugins|
    case Stop => s.pc.Ready?
    case Crash => true
    case BeginInstall(plugin) => s.pc.Ready? && plugin.name !in s.names
    case RelocateFailed => s.pc.Relocating?
    case Relocated(copy) => s.pc.Relocating? && copy.name == s.pc.plugin.name && DescriptorOk(copy)
    case PluginInited(_) => s.pc.PluginInit?
    case FindAnchor => InstallingAt(s) && s.pc.phase.Finding?
    case CreateAnchor(id) => InstallingAt(s) && s.pc.phase.Creating? && id !in s.st.anchors
    case AllocFailed => InstallingAt(s) && s.pc.phase.Creating?
    case WriteField =>
      && InstallingAt(s) && s.pc.phase.Updating?
      && s.pc.phase.id in s.st.anchors && s.pc.phase.writes < UPDATE_WRITES
    case ServiceInited(_) => InstallingAt(s) && s.pc.phase.Initialising?
    case TablePut(_) => AtPublication(s)
    case Activate => AtActivation(s)
    case InstallDone => s.pc.Installing? && s.pc.i == |s.pc.plugin.services|
  }

  function WriteAnchor(st: Storage, id: AnchorId, a: ServiceAnchor): Storage {
    st.(anchors := st.anchors[id := a])
  }

  /** installPlugin's first action: reuse the plug-in's anchor or push a new one in front. */
  function WithPluginAnchor(st: Storage, name: Name): Storage {
    if FindPlugin(st.plugins, name) < |st.plugins| then st
    else st.(plugins := [PluginAnchor(PLUGIN_ANCHOR_VERSION, name, [])] + st.plugins)
  }

  function FindStep(s: State): State
    requires Linked(s.st) && InstallingAt(s)
  {
    match Lookup(s.st, CurrentPath(s))
    case None => s.(pc := s.pc.(phase := Creating))
    case Some(id) =>
      var a := s.st.anchors[id];
      if Compatible(Current(s), a) then s.(pc := s.pc.(phase := Updating(id, 0)))
      else s.(st := WriteAnchor(s.st, id, a.(discarded := true)), pc := s.pc.(phase := Creating))
  }

  function CreateStep(s: State, id: AnchorId): State
    requires InstallingAt(s)
  {
    var plug := s.st.plugins[s.pc.pa];
    var anchors := s.st.anchors[id := CreatedAnchor(s.pc.plugin.name, Current(s))];
    s.(st := s.st.(anchors := anchors, plugins := s.st.plugins[s.pc.pa := plug.(services := [id] + plug.services)]),
       pc := s.pc.(phase := Initialising(id)))
  }

  predicate AtPublication(s: State) {
    InstallingAt(s) && s.pc.phase.Putting? && s.pc.phase.id in s.st.anchors
  }

  function PublishStep(s: State): State
    requires AtPublication(s)
  {
    var id := s.pc.phase.id;
    s.(st := s.st.(table := s.st.table[s.st.anchors[id].path := id]), pc := s.pc.(phase := Activating(id)))
  }

  predicate AtActivation(s: State) {
    InstallingAt(s) && s.pc.phase.Activating? && s.pc.phase.id in s.st.anchors
  }

  function ActivateStep(s: State): State
    requires AtActivation(s)
  {
    var id := s.pc.phase.id;
    s.(st := WriteAnchor(s.st, id, s.st.anchors[id].(active := true)),
       pc := s.pc.(i := s.pc.i + 1, phase := Finding),
       started := s.started + {s.st.anchors[id].path})
  }

  function Apply(s: State, act: Action): State
    requires Linked(s.st) && Enabled(s, act)
  {
    match act
    case Start => s.(pc := Cleaning(0, 0, false, true), names := {})
    case ClearState =>
      var id := s.st.plugins[s.pc.p].services[s.pc.k];
      s.(st := WriteAnchor(s.st, id, s.st.anchors[id].(active := false)), pc := s.pc.(stateCleared := true))
    case ClearServe =>
      var id := s.st.plugins[s.pc.p].services[s.pc.k];
      s.(st := WriteAnchor(s.st, id, s.st.anchors[id].(serve := NULL_ROUTINE)),
         pc := s.pc.(k := s.pc.k + 1, stateCleared := false))
    case NextPlugin => s.(pc := s.pc.(p := s.pc.p + 1, k := 0))
    case CleanDone => s.(pc := if s.pc.starting then Ready else Down, installed := map[], started := {})
    case Stop => s.(pc := Cleaning(0, 0, false, false))
    case Crash => s.(pc := Down)
    case BeginInstall(plugin) =>
      var st' := WithPluginAnchor(s.st, plugin.name);
      s.(st := st', pc := Relocating(plugin, FindPlugin(st'.plugins, plugin.name)))
    case RelocateFailed => s.(pc := Ready)
    case Relocated(copy) =>
      s.(pc := PluginInit(copy, s.pc.pa),
         names := s.names + {copy.name},
         installed := s.installed + Descriptors(copy))
    case PluginInited(ok) =>
      s.(pc := if ok then Installing(s.pc.plugin, s.pc.pa, 0, Finding) else Ready)
    case FindAnchor => FindStep(s)
    case CreateAnchor(id) => CreateStep(s, id)
    case AllocFailed => s.(pc := Ready)
    case WriteField =>
      var id, w := s.pc.phase.id, s.pc.phase.writes;
      s.(st := WriteAnchor(s.st, id, UpdateWrite(s.st.anchors[id], Current(s), w)),
         pc := s.pc.(phase := if w + 1 == UPDATE_WRITES then Initialising(id) else Updating(id, w + 1)))
    case ServiceInited(ok) =>
      s.(pc := if ok then s.pc.(phase := Putting(s.pc.phase.id)) else s.pc.(i := s.pc.i + 1, phase := Finding))
    case TablePut(ok) =>
      if ok then PublishStep(s) else s.(pc := Ready)
    case Activate => ActivateStep(s)
    case InstallDone => s.(pc := Ready)
  }

  // ----- the invariant

  ghost predicate IsActive(s: State, id: AnchorId) {
    id in s.st.anchors && s.st.anchors[id].active
  }

  /** Everything that is promised of an active anchor. */
  ghost predicate ActiveSound(s: State, id: AnchorId)
    requires Linked(s.st) && id in s.st.anchors
  {
    var a := s.st.anchors[id];
    && a.path in s.installed && Matches(a, s.installed[a.path])
    && a.path in s.started
    && a.path in s.st.table && s.st.table[a.path] == id
    && Lookup(s.st, a.path) == Some(id)
    && !a.discarded
  }

  ghost predicate AllActiveSound(s: State)
    requires Linked(s.st)
  {
    forall id :: IsActive(s, id) ==> ActiveSound(s, id)
  }

  /** While the server runs, completed installations are active and known to the server. */
  ghost predicate RunningSound(s: State) {
    Running(s.pc) ==>
      && (forall path :: path in s.started ==> path in s.st.table && IsActive(s, s.st.table[path]))
      && (forall path :: path in s.installed ==> path.plugin in s.names)
  }

  ghost predicate Earlier(p: nat, k: nat, p': nat, k': nat) {
    p < p' || (p == p' && k < k')
  }

  ghost predicate CleaningSound(s: State) {
    s.pc.Cleaning? ==>
      && s.pc.p <= |s.st.plugins|
      && (s.pc.p < |s.st.plugins| ==> s.pc.k <= |s.st.plugins[s.pc.p].services|)
      && (s.pc.stateCleared ==> CleaningAt(s) && !IsActive(s, s.st.plugins[s.pc.p].services[s.pc.k]))
      && forall p: nat, k: nat ::
           p < |s.st.plugins| && k < |s.st.plugins[p].services| && Earlier(p, k, s.pc.p, s.pc.k) ==>
           !IsActive(s, s.st.plugins[p].services[k])
  }

  ghost predicate AnchorSelected(s: State, id: AnchorId)
    requires Linked(s.st) && InstallingAt(s)
  {
    Lookup(s.st, CurrentPath(s)) == Some(id) && !s.st.anchors[id].active
  }

  ghost predicate PhaseSound(s: State)
    requires Linked(s.st) && InstallingAt(s)
  {
    match s.pc.phase
    case Finding => true
    case Creating => true
    case Updating(id, w) =>
      && AnchorSelected(s, id) && w < UPDATE_WRITES
      && Compatible(Current(s), s.st.anchors[id]) && WrittenUpTo(s.st.anchors[id], Current(s), w)
    case Initialising(id) => AnchorSelected(s, id) && Matches(s.st.anchors[id], Current(s))
    case Putting(id) => AnchorSelected(s, id) && Matches(s.st.anchors[id], Current(s))
    case Activating(id) =>
      && AnchorSelected(s, id) && Matches(s.st.anchors[id], Current(s))
      && CurrentPath(s) in s.st.table && s.st.table[CurrentPath(s)] == id
  }

  ghost predicate InstallingSound(s: State)
    requires Linked(s.st)
  {
    && (s.pc.Relocating? ==>
         && s.pc.pa < |s.st.plugins| && s.pc.pa == FindPlugin(s.st.plugins, s.pc.plugin.name)
         && s.pc.plugin.name !in s.names)
    && (s.pc.PluginInit? || s.pc.Installing? ==>
         var plugin := s.pc.plugin;
         && s.pc.pa < |s.st.plugins| && s.pc.pa == FindPlugin(s.st.plugins, plugin.name)
         && DescriptorOk(plugin) && plugin.name in s.names
         && (forall i :: 0 <= i < |plugin.services| ==>
              ServicePath(plugin, i) in s.installed && s.installed[ServicePath(plugin, i)] == plugin.services[i])
         && (forall i :: (if s.pc.Installing? then s.pc.i else 0) <= i < |plugin.services| ==>
              ServicePath(plugin, i) !in s.started))
    && (s.pc.Installing? ==> s.pc.i <= |s.pc.plugin.services| && (InstallingAt(s) ==> PhaseSound(s)))
  }

  ghost predicate Inv(s: State) {
    && Linked(s.st)
    && TableSound(s.st)
    && (forall path :: path in s.started ==> path in s.installed)
    && (forall path :: path in s.installed ==> s.installed[path].serve != NULL_ROUTINE)
    && AllActiveSound(s)
    && RunningSound(s)
    && CleaningSound(s)
    && InstallingSound(s)
  }
}
