/** Relocation of plug-in modules to the link pack area (LPA), one write at a time, over restarts,
    version changes, failing LPA requests, development-mode switches and crashes. */
module ZisLpa {
  import opened Common

  type Name = string

  /** Identifies a module in the LPA; 0 is the cleared module information of an anchor. */
  type Module = nat

  datatype PluginAnchor = PluginAnchor(name: Name, lpa: bool, mod: Module, pluginVersion: nat)

  /** The part of a plug-in descriptor that relocation reads. */
  datatype Plugin = Plugin(name: Name, needsLpa: bool, pluginVersion: nat)

  datatype Stage =
    | Checking
    | Unloaded     // module deleted from the LPA, anchor untouched
    | Zeroed       // module information cleared, flag still set
    | Adding
    | Added        // module loaded, flag not yet set
    | Versioning   // anchor's version not yet written

  datatype Control =
    | Idle
    | Cleaning(i: nat, stage: Stage)
    | Relocating(i: nat, plugin: Plugin, stage: Stage)

  /** `loaded` gives the version of every module in the LPA; `devMode` is fixed at each start. */
  datatype State = State(anchors: seq<PluginAnchor>, loaded: map<Module, nat>, devMode: bool, pc: Control)

  datatype Action =
    | Start(devMode: bool)
    | CleanNext
    | Delete(ok: bool)
    | ZeroInfo
    | ClearFlag
    | Install(plugin: Plugin)
    | Keep
    | NothingToAdd
    | Add(mod: Option<Module>)
    | SetFlag
    | WriteVersion
    | Crash

  function Find(anchors: seq<PluginAnchor>, name: Name): (r: nat)
    ensures r <= |anchors|
    ensures r < |anchors| ==> anchors[r].name == name
  {
    if anchors == [] || anchors[0].name == name then 0 else 1 + Find(anchors[1..], name)
  }

  predicate Busy(s: State) {
    (s.pc.Cleaning? || s.pc.Relocating?) && s.pc.i < |s.anchors|
  }

  function Anchor(s: State): PluginAnchor
    requires Busy(s)
  {
    s.anchors[s.pc.i]
  }

  predicate At(s: State, stage: Stage) {
    Busy(s) && s.pc.stage == stage
  }

  /** The relocation must drop the module the anchor refers to, if it refers to one. */
  predicate VersionDiffers(s: State)
    requires Busy(s)
  {
    s.pc.Relocating? && Anchor(s).pluginVersion != s.pc.plugin.pluginVersion
  }

  predicate Enabled(s: State, act: Action) {
    match act
    case Start(_) => s.pc.Idle?
    case CleanNext => At(s, Checking) && s.pc.Cleaning? && !(Anchor(s).lpa && s.devMode)
    case Delete(_) => At(s, Checking) && Anchor(s).lpa && s.devMode
    case ZeroInfo =>
      At(s, Unloaded) || (At(s, Checking) && Anchor(s).lpa && !s.devMode && VersionDiffers(s))
    case ClearFlag => At(s, Zeroed)
    case Install(_) => s.pc.Idle?
    case Keep => At(s, Checking) && s.pc.Relocating? && (Anchor(s).lpa ==> !s.devMode && !VersionDiffers(s))
    case NothingToAdd => At(s, Adding) && s.pc.Relocating? && (!s.pc.plugin.needsLpa || Anchor(s).lpa)
    case Add(m) =>
      && At(s, Adding) && s.pc.Relocating? && s.pc.plugin.needsLpa && !Anchor(s).lpa
      && (m.Some? ==> m.value != 0 && m.value !in s.loaded)
    case SetFlag => At(s, Added) && s.pc.Relocating?
    case WriteVersion => At(s, Versioning) && s.pc.Relocating?
    case Crash => true
  }

  function Write(s: State, a: PluginAnchor, stage: Stage): State
    requires Busy(s)
  {
    s.(anchors := s.anchors[s.pc.i := a], pc := s.pc.(stage := stage))
  }

  /** Cleaning goes on with the next anchor and ends after the last. */
  function NextAnchor(s: State): State
    requires s.pc.Cleaning?
  {
    if s.pc.i + 1 < |s.anchors| then s.(pc := Cleaning(s.pc.i + 1, Checking)) else s.(pc := Idle)
  }

  function Apply(s: State, act: Action): State
    requires Enabled(s, act)
  {
    match act
    case Start(dev) => s.(devMode := dev, pc := if s.anchors == [] then Idle else Cleaning(0, Checking))
    case CleanNext => NextAnchor(s)
    case Delete(ok) =>
      if ok then s.(loaded := s.loaded - {Anchor(s).mod}, pc := s.pc.(stage := Unloaded))
      else if s.pc.Cleaning? then NextAnchor(s)
      else s.(pc := Idle)
    case ZeroInfo => Write(s, Anchor(s).(mod := 0), Zeroed)
    case ClearFlag =>
      var s' := Write(s, Anchor(s).(lpa := false), Adding);
      if s.pc.Cleaning? then NextAnchor(s') else s'
    case Install(plugin) =>
      var i := Find(s.anchors, plugin.name);
      if i < |s.anchors| then s.(pc := Relocating(i, plugin, Checking))
      else s.(anchors := [PluginAnchor(plugin.name, false, 0, plugin.pluginVersion)] + s.anchors,
              pc := Relocating(0, plugin, Checking))
    case Keep => s.(pc := s.pc.(stage := Adding))
    case NothingToAdd => s.(pc := s.pc.(stage := Versioning))
    case Add(m) =>
      if m.None? then s.(pc := Idle)
      else Write(s, Anchor(s).(mod := m.value), Added).(loaded := s.loaded[m.value := s.pc.plugin.pluginVersion])
    case SetFlag => Write(s, Anchor(s).(lpa := true), Versioning)
    case WriteVersion =>
      s.(anchors := s.anchors[s.pc.i := Anchor(s).(pluginVersion := s.pc.plugin.pluginVersion)], pc := Idle)
    case Crash => s.(pc := Idle)
  }

  // ----- what an LPA flag promises

  /** An anchor flagged as LPA-resident refers to a loaded module of the anchor's own version. */
  predicate Sound(a: PluginAnchor, loaded: map<Module, nat>) {
    a.lpa ==> a.mod in loaded && loaded[a.mod] == a.pluginVersion
  }

  predicate AllSound(s: State) {
    forall i :: 0 <= i < |s.anchors| ==> Sound(s.anchors[i], s.loaded)
  }

  /** The stretches of code in which a flagged anchor is not what it says: from the deletion (or the
      clearing of the module information) to the clearing of the flag, and, when the version changes,
      from the setting of the flag to the writing of the version. */
  predicate InWindow(s: State) {
    || At(s, Unloaded)
    || At(s, Zeroed)
    || (At(s, Versioning) && s.pc.Relocating? && Anchor(s).lpa && Anchor(s).pluginVersion != s.pc.plugin.pluginVersion)
  }

  predicate Distinct(s: State) {
    forall i, j :: 0 <= i < j < |s.anchors| && s.anchors[i].lpa && s.anchors[j].lpa ==>
      s.anchors[i].mod != s.anchors[j].mod
  }

  predicate StageSound(s: State) {
    s.pc.Idle? || (
      && Busy(s)
      && var a := Anchor(s);
         match s.pc.stage
         case Checking => Sound(a, s.loaded)
         case Unloaded => a.lpa && a.mod !in s.loaded
         case Zeroed => a.lpa && a.mod == 0
         case Adding => s.pc.Relocating? && Sound(a, s.loaded) && (a.lpa ==> !VersionDiffers(s))
         case Added =>
           && s.pc.Relocating? && s.pc.plugin.needsLpa && !a.lpa
           && a.mod in s.loaded && s.loaded[a.mod] == s.pc.plugin.pluginVersion
           && forall j :: 0 <= j < |s.anchors| && j != s.pc.i && s.anchors[j].lpa ==> s.anchors[j].mod != a.mod
         case Versioning =>
           && s.pc.Relocating? && (s.pc.plugin.needsLpa ==> a.lpa)
           && (a.lpa ==> a.mod in s.loaded && s.loaded[a.mod] == s.pc.plugin.pluginVersion))
  }

  predicate Inv(s: State) {
    && 0 !in s.loaded
    && Distinct(s)
    && StageSound(s)
    && forall j :: 0 <= j < |s.anchors| && (s.pc.Idle? || j != s.pc.i) ==> Sound(s.anchors[j], s.loaded)
  }

  /** In every state that keeps the invariant, all flags are honest exactly outside the windows. */
  lemma HonestOutsideWindows(s: State)
    requires Inv(s)
    ensures AllSound(s) <==> !InWindow(s)
  {
    if InWindow(s) {
      assert !Sound(s.anchors[s.pc.i], s.loaded);
    }
  }

  lemma DeleteKeeps(s: State, ok: bool)
    requires Inv(s) && Enabled(s, Delete(ok))
    ensures Inv(Apply(s, Delete(ok)))
  {
    assert Sound(s.anchors[s.pc.i], s.loaded);
  }

  lemma InstallKeeps(s: State, plugin: Plugin)
    requires Inv(s) && Enabled(s, Install(plugin))
    ensures Inv(Apply(s, Install(plugin)))
  {
    var s' := Apply(s, Install(plugin));
    if Find(s.anchors, plugin.name) == |s.anchors| {
      assert forall j :: 0 < j < |s'.anchors| ==> s'.anchors[j] == s.anchors[j - 1];
    }
  }

  lemma AddKeeps(s: State, m: Option<Module>)
    requires Inv(s) && Enabled(s, Add(m))
    ensures Inv(Apply(s, Add(m)))
  {
  }

  lemma StepKeeps(s: State, act: Action)
    requires Inv(s) && Enabled(s, act)
    requires act.Crash? ==> !InWindow(s)
    ensures Inv(Apply(s, act))
  {
    match act
    case Delete(ok) => DeleteKeeps(s, ok);
    case Install(plugin) => InstallKeeps(s, plugin);
    case Add(m) => AddKeeps(s, m);
    case Crash => HonestOutsideWindows(s);
    case ZeroInfo => ClearStepKeeps(s, act);
    case ClearFlag => ClearStepKeeps(s, act);
    case SetFlag => RelocatedStepKeeps(s, act);
    case WriteVersion => RelocatedStepKeeps(s, act);
    case _ =>
  }

  /** The module's information and flag are cleared. */
  lemma ClearStepKeeps(s: State, act: Action)
    requires Inv(s) && Enabled(s, act) && (act.ZeroInfo? || act.ClearFlag?)
    ensures Inv(Apply(s, act))
  {
  }

  /** The new module's flag and version are written. */
  lemma RelocatedStepKeeps(s: State, act: Action)
    requires Inv(s) && Enabled(s, act) && (act.SetFlag? || act.WriteVersion?)
    ensures Inv(Apply(s, act))
  {
  }

  /** What relocation may do first with a plug-in's anchor, apart from crashing: in development mode a resident
      module is always deleted before anything else; otherwise it is given up exactly if its version differs, and
      kept exactly if it does not. */
  lemma FirstStepOfRelocation(s: State, act: Action)
    requires At(s, Checking) && s.pc.Relocating? && !act.Crash?
    ensures Enabled(s, act) <==>
      if !Anchor(s).lpa then act.Keep?
      else if s.devMode then act.Delete?
      else if Anchor(s).pluginVersion != s.pc.plugin.pluginVersion then act.ZeroInfo?
      else act.Keep?
  {
  }

  // ----- runs

  ghost function Exec(s: State, acts: seq<Action>): Option<State>
    decreases |acts|
  {
    if acts == [] then Some(s)
    else
      match Exec(s, acts[..|acts| - 1])
      case None => None
      case Some(m) => if Enabled(m, acts[|acts| - 1]) then Some(Apply(m, acts[|acts| - 1])) else None
  }

  /** Every crash of the run happened outside the windows. */
  ghost predicate CrashesOutsideWindows(s: State, acts: seq<Action>) {
    forall n :: 0 <= n < |acts| && acts[n].Crash? ==>
      match Exec(s, acts[..n])
      case None => true
      case Some(m) => !InWindow(m)
  }

  ghost predicate Fresh(s: State) {
    s.pc.Idle? && AllSound(s) && Distinct(s) && 0 !in s.loaded
  }

  lemma {:induction false} RunKeeps(s: State, acts: seq<Action>)
    requires Fresh(s) && Exec(s, acts).Some? && CrashesOutsideWindows(s, acts)
    ensures Inv(Exec(s, acts).value)
    decreases |acts|
  {
    if acts == [] {
      assert AllSound(s);
    } else {
      var n := |acts| - 1;
      forall k | 0 <= k < |acts[..n]| && acts[..n][k].Crash?
        ensures match Exec(s, acts[..n][..k]) case None => true case Some(m) => !InWindow(m)
      {
        assert acts[..n][..k] == acts[..k];
      }
      RunKeeps(s, acts[..n]);
      StepKeeps(Exec(s, acts[..n]).value, acts[n]);
    }
  }

  /** Over every run whose crashes avoid the windows: flags are honest at every state outside a window,
      and the entry point a relocated plug-in is called through belongs to a loaded module of exactly the
      version being installed. */
  lemma FlagsAreHonest(s: State, acts: seq<Action>)
    requires Fresh(s) && Exec(s, acts).Some? && CrashesOutsideWindows(s, acts)
    ensures
      var e := Exec(s, acts).value;
      && (AllSound(e) <==> !InWindow(e))
      && (At(e, Versioning) && e.pc.Relocating? && e.pc.plugin.needsLpa ==>
           Anchor(e).mod in e.loaded && e.loaded[Anchor(e).mod] == e.pc.plugin.pluginVersion)
  {
    RunKeeps(s, acts);
    HonestOutsideWindows(Exec(s, acts).value);
  }

  /** A crash inside a window leaves a dishonest flag behind, always. */
  lemma CrashInWindowBreaks(s: State, acts: seq<Action>)
    requires Fresh(s) && Exec(s, acts).Some? && CrashesOutsideWindows(s, acts)
    ensures AllSound(Apply(Exec(s, acts).value, Crash)) <==> !InWindow(Exec(s, acts).value)
  {
    RunKeeps(s, acts);
    var e := Exec(s, acts).value;
    HonestOutsideWindows(e);
    var c := Apply(e, Crash);
    assert c.anchors == e.anchors && c.loaded == e.loaded;
  }

  // ----- what a crash in the version window leads to

  lemma {:induction false} ExecAppend(s: State, a: seq<Action>, b: seq<Action>)
    requires Exec(s, a).Some?
    ensures Exec(s, a + b) == Exec(Exec(s, a).value, b)
    decreases |b|
  {
    if b == [] {
      assert a + b == a;
    } else {
      var n := |b| - 1;
      ExecAppend(s, a, b[..n]);
      assert (a + b)[..|a + b| - 1] == a + b[..n];
    }
  }

  lemma {:induction false} ExecOne(s: State, act: Action)
    requires Enabled(s, act)
    ensures Exec(s, [act]) == Some(Apply(s, act))
  {
    assert [act][..0] == [];
  }

  /** The first action and then the others. */
  lemma {:induction false} ExecFirst(s: State, act: Action, rest: seq<Action>)
    requires Enabled(s, act)
    ensures Exec(s, [act] + rest) == Exec(Apply(s, act), rest)
  {
    ExecOne(s, act);
    ExecAppend(s, [act], rest);
  }

  /** A restart outside development mode: the cleaning pass looks at every anchor and changes none. */
  function Restart(s: State): seq<Action> {
    [Start(false)] + Repeat(CleanNext, |s.anchors|)
  }

  lemma {:induction false} CleaningPass(s: State)
    requires s.pc.Cleaning? && s.pc == Cleaning(s.pc.i, Checking) && s.pc.i < |s.anchors| && !s.devMode
    ensures Exec(s, Repeat(CleanNext, |s.anchors| - s.pc.i)) == Some(s.(pc := Idle))
    decreases |s.anchors| - s.pc.i
  {
    var rest := Repeat(CleanNext, |s.anchors| - s.pc.i - 1);
    ExecFirst(s, CleanNext, rest);
    if rest != [] {
      CleaningPass(NextAnchor(s));
    }
  }

  lemma {:induction false} RestartChangesNothing(s: State)
    requires s.pc.Idle?
    ensures Exec(s, Restart(s)) == Some(s.(devMode := false))
  {
    ExecFirst(s, Start(false), Repeat(CleanNext, |s.anchors|));
    if s.anchors != [] {
      CleaningPass(Apply(s, Start(false)));
    }
  }

  /** Steps of an upgrade up to the setting of the flag. */
  function Upgrade(plugin: Plugin, m: Module): seq<Action> {
    [Install(plugin)] + ([ZeroInfo] + ([ClearFlag] + ([Add(Some(m))] + [SetFlag])))
  }

  /** The anchor belongs to a module in the LPA that the plug-in's installation would replace. */
  predicate Outdated(s: State, plugin: Plugin, m: Module) {
    && s.pc.Idle? && !s.devMode && plugin.needsLpa && m != 0 && m !in s.loaded
    && var i := Find(s.anchors, plugin.name);
       i < |s.anchors| && s.anchors[i].lpa && s.anchors[i].pluginVersion != plugin.pluginVersion
  }

  function Upgraded(s: State, plugin: Plugin, m: Module): State
    requires Outdated(s, plugin, m)
  {
    var i := Find(s.anchors, plugin.name);
    s.(anchors := s.anchors[i := s.anchors[i].(mod := m, lpa := true)],
       loaded := s.loaded[m := plugin.pluginVersion],
       pc := Relocating(i, plugin, Versioning))
  }

  /** Every upgrade of a resident module passes through the version window. */
  lemma {:induction false} UpgradePassesWindow(s: State, plugin: Plugin, m: Module)
    requires Outdated(s, plugin, m)
    ensures Exec(s, Upgrade(plugin, m)) == Some(Upgraded(s, plugin, m)) && InWindow(Upgraded(s, plugin, m))
  {
    var i := Find(s.anchors, plugin.name);
    var dropped := Dropped(s, plugin, m);
    var rest := [Add(Some(m))] + [SetFlag];
    DropSteps(s, plugin, m, rest);
    AddSteps(dropped, m);
    assert Upgraded(s, plugin, m).anchors == dropped.anchors[i := dropped.anchors[i].(mod := m, lpa := true)];
  }

  /** The old module is given up. */
  function Dropped(s: State, plugin: Plugin, m: Module): State
    requires Outdated(s, plugin, m)
  {
    var i := Find(s.anchors, plugin.name);
    s.(pc := Relocating(i, plugin, Adding), anchors := s.anchors[i := s.anchors[i].(mod := 0, lpa := false)])
  }

  lemma {:induction false} DropSteps(s: State, plugin: Plugin, m: Module, rest: seq<Action>)
    requires Outdated(s, plugin, m)
    ensures Exec(s, [Install(plugin)] + ([ZeroInfo] + ([ClearFlag] + rest))) == Exec(Dropped(s, plugin, m), rest)
  {
    var i := Find(s.anchors, plugin.name);
    var s1 := s.(pc := Relocating(i, plugin, Checking));
    var s2 := s.(pc := Relocating(i, plugin, Zeroed), anchors := s.anchors[i := s.anchors[i].(mod := 0)]);
    ExecFirst(s, Install(plugin), [ZeroInfo] + ([ClearFlag] + rest));
    ExecFirst(s1, ZeroInfo, [ClearFlag] + rest);
    assert Apply(s1, ZeroInfo) == s2;
    ExecFirst(s2, ClearFlag, rest);
    assert Apply(s2, ClearFlag) == Dropped(s, plugin, m);
  }

  lemma {:induction false} AddSteps(s: State, m: Module)
    requires Enabled(s, Add(Some(m)))
    ensures Exec(s, [Add(Some(m))] + [SetFlag]) ==
      Some(s.(anchors := s.anchors[s.pc.i := Anchor(s).(mod := m, lpa := true)],
              loaded := s.loaded[m := s.pc.plugin.pluginVersion],
              pc := s.pc.(stage := Versioning)))
  {
    var s1 := Apply(s, Add(Some(m)));
    ExecFirst(s, Add(Some(m)), [SetFlag]);
    ExecOne(s1, SetFlag);
    assert Apply(s1, SetFlag).anchors == s.anchors[s.pc.i := Anchor(s).(mod := m, lpa := true)];
  }

  /** Installing the version the anchor names: the module it refers to is kept and gets called. */
  lemma {:induction false} ReinstallKeepsModule(s: State, plugin: Plugin)
    requires s.pc.Idle? && !s.devMode && Find(s.anchors, plugin.name) < |s.anchors|
    requires
      var a := s.anchors[Find(s.anchors, plugin.name)];
      a.lpa && a.pluginVersion == plugin.pluginVersion
    ensures Exec(s, [Install(plugin)] + ([Keep] + [NothingToAdd])) ==
      Some(s.(pc := Relocating(Find(s.anchors, plugin.name), plugin, Versioning)))
  {
    var i := Find(s.anchors, plugin.name);
    var s1 := s.(pc := Relocating(i, plugin, Checking));
    ExecFirst(s, Install(plugin), [Keep] + [NothingToAdd]);
    assert Apply(s, Install(plugin)) == s1;
    ExecFirst(s1, Keep, [NothingToAdd]);
    ExecOne(Apply(s1, Keep), NothingToAdd);
  }

  lemma {:induction false} FindByNames(a: seq<PluginAnchor>, b: seq<PluginAnchor>, name: Name)
    requires |a| == |b| && forall i :: 0 <= i < |a| ==> a[i].name == b[i].name
    ensures Find(a, name) == Find(b, name)
    decreases |a|
  {
    if a != [] && a[0].name != name {
      FindByNames(a[1..], b[1..], name);
    }
  }

  /** A whole run into trouble: a server starts, upgrades a plug-in and crashes between the setting of the flag and
      the writing of the version; it is restarted to go back to the version the anchor still names; and the
      installation gets to its last step with the module of the other version, about to call it. */
  lemma {:induction false} RollBackRunsWrongModule(s: State, plugin: Plugin, m: Module)
    requires Fresh(s) && Outdated(s.(devMode := false), plugin, m)
    ensures
      var i := Find(s.anchors, plugin.name);
      var wanted := plugin.(pluginVersion := s.anchors[i].pluginVersion);
      var back := [Install(wanted)] + ([Keep] + [NothingToAdd]);
      var run := Exec(s, (Restart(s) + Upgrade(plugin, m) + [Crash]) + (Restart(s) + back));
      && run.Some?
      && var e := run.value;
         && e.pc == Relocating(i, wanted, Versioning) && i < |e.anchors| && e.anchors[i].mod in e.loaded
         && e.loaded[e.anchors[i].mod] == plugin.pluginVersion != wanted.pluginVersion
  {
    var i := Find(s.anchors, plugin.name);
    var wanted := plugin.(pluginVersion := s.anchors[i].pluginVersion);
    var s1 := s.(devMode := false);
    var s2 := Upgraded(s1, plugin, m);
    var s3 := s2.(pc := Idle);
    var back := [Install(wanted)] + ([Keep] + [NothingToAdd]);
    UpgradeAndCrash(s, plugin, m);
    assert s3.devMode == false && Restart(s3) == Restart(s);
    RestartChangesNothing(s3);
    FindByNames(s.anchors, s3.anchors, plugin.name);
    ReinstallKeepsModule(s3, wanted);
    ExecAppend(s3, Restart(s), back);
    ExecAppend(s, Restart(s) + Upgrade(plugin, m) + [Crash], Restart(s) + back);
  }

  lemma {:induction false} UpgradeAndCrash(s: State, plugin: Plugin, m: Module)
    requires s.pc.Idle? && Outdated(s.(devMode := false), plugin, m)
    ensures Exec(s, Restart(s) + Upgrade(plugin, m) + [Crash]) ==
      Some(Upgraded(s.(devMode := false), plugin, m).(pc := Idle))
  {
    var s1 := s.(devMode := false);
    RestartChangesNothing(s);
    UpgradePassesWindow(s1, plugin, m);
    ExecAppend(s, Restart(s), Upgrade(plugin, m));
    ExecAppend(s, Restart(s) + Upgrade(plugin, m), [Crash]);
    ExecOne(Upgraded(s1, plugin, m), Crash);
  }

  // ----- deletions

  lemma StepKeepsModules(s: State, act: Action)
    requires Enabled(s, act) && !s.devMode && (act.Start? ==> !act.devMode)
    ensures !Apply(s, act).devMode
    ensures forall m :: m in s.loaded ==> m in Apply(s, act).loaded && Apply(s, act).loaded[m] == s.loaded[m]
  {
  }

  /** Outside development mode modules are only ever added. */
  lemma {:induction false} NothingDeletedOutsideDevMode(s: State, acts: seq<Action>)
    requires Exec(s, acts).Some? && !s.devMode
    requires forall n :: 0 <= n < |acts| && acts[n].Start? ==> !acts[n].devMode
    ensures !Exec(s, acts).value.devMode
    ensures forall m :: m in s.loaded ==>
      m in Exec(s, acts).value.loaded && Exec(s, acts).value.loaded[m] == s.loaded[m]
    decreases |acts|
  {
    if acts != [] {
      var n := |acts| - 1;
      assert forall k :: 0 <= k < n ==> acts[..n][k] == acts[k];
      NothingDeletedOutsideDevMode(s, acts[..n]);
      StepKeepsModules(Exec(s, acts[..n]).value, acts[n]);
    }
  }

  // ----- the code's own form

  /** Plug-in anchors and the LPA, changed in place.  Each assignment is followed by the action it performs. */
  class Relocator {
    var anchors: seq<PluginAnchor>
    var loaded: map<Module, nat>
    var devMode: bool
    ghost var pc: Control

    ghost function Abs(): State
      reads this
    {
      State(anchors, loaded, devMode, pc)
    }

    ghost predicate Valid()
      reads this
    {
      Inv(Abs())
    }

    ghost method Did(before: State, act: Action)
      requires Inv(before) && Enabled(before, act) && !act.Crash?
      requires
        var after := Apply(before, act);
        anchors == after.anchors && loaded == after.loaded && devMode == after.devMode
      modifies this`pc
      ensures Valid() && Abs() == Apply(before, act)
    {
      StepKeeps(before, act);
      pc := Apply(before, act).pc;
    }

    constructor (s: State)
      requires Fresh(s)
      ensures Valid() && Abs() == s
    {
      anchors, loaded, devMode, pc := s.anchors, s.loaded, s.devMode, s.pc;
      new;
      assert AllSound(s);
    }

    /** The cleaning pass of a start: in development mode every module whose deletion succeeds goes, otherwise
        nothing changes. */
    method StartAndClean(dev: bool, deleteOk: seq<bool>)
      requires Valid() && pc == Idle && |deleteOk| == |anchors|
      modifies this
      ensures Valid() && pc == Idle && devMode == dev && |anchors| == |old(anchors)|
      ensures forall i :: 0 <= i < |anchors| ==>
        var a := old(anchors)[i];
        anchors[i] == if a.lpa && dev && deleteOk[i] then a.(lpa := false, mod := 0) else a
      ensures !dev ==> loaded == old(loaded)
    {
      ghost var before := Abs();
      devMode := dev;
      Did(before, Start(dev));
      var i := 0;
      while i < |anchors|
        invariant i <= |anchors| == |old(anchors)| && Valid() && devMode == dev
        invariant pc == if i < |anchors| then Cleaning(i, Checking) else Idle
        invariant forall j :: i <= j < |anchors| ==> anchors[j] == old(anchors)[j]
        invariant forall j :: 0 <= j < i ==>
          var a := old(anchors)[j];
          anchors[j] == if a.lpa && dev && deleteOk[j] then a.(lpa := false, mod := 0) else a
        invariant !dev ==> loaded == old(loaded)
      {
        RemoveIfNeeded(i, deleteOk[i]);
        i := i + 1;
      }
    }

    /** installPlugin as far as the LPA is concerned: the plug-in's anchor, relocation, and the anchor's version,
        which is written whether the plug-in is in the LPA or not. */
    method InstallPlugin(plugin: Plugin, deleteOk: bool, added: Option<Module>) returns (ok: bool)
      requires Valid() && pc == Idle
      requires added.Some? ==> added.value != 0 && added.value !in loaded
      modifies this
      ensures Valid() && pc == Idle && devMode == old(devMode)
      ensures
        var i := Find(anchors, plugin.name);
        && i < |anchors| && (ok ==> anchors[i].pluginVersion == plugin.pluginVersion)
        && (ok && plugin.needsLpa ==>
             anchors[i].lpa && anchors[i].mod in loaded && loaded[anchors[i].mod] == plugin.pluginVersion)
    {
      ghost var before := Abs();
      var i := Find(anchors, plugin.name);
      if i == |anchors| {
        anchors := [PluginAnchor(plugin.name, false, 0, plugin.pluginVersion)] + anchors;
        i := 0;
      }
      Did(before, Install(plugin));
      ghost var names := anchors;
      ok := RelocateIfNeeded(i, plugin, deleteOk, added);
      if ok {
        before := Abs();
        anchors := anchors[i := anchors[i].(pluginVersion := plugin.pluginVersion)];
        Did(before, WriteVersion);
      }
      FindByNames(names, anchors, plugin.name);
    }

    /** Unloads the module the anchor refers to (development mode) and clears the reference. */
    method Discard(i: nat, unload: bool)
      requires Valid() && Busy(Abs()) && pc.i == i && pc.stage == Checking && anchors[i].lpa
      requires if devMode then unload else !unload && VersionDiffers(Abs())
      modifies this
      ensures Valid() && devMode == old(devMode)
      ensures anchors == old(anchors)[i := old(anchors)[i].(lpa := false, mod := 0)]
      ensures loaded == if unload then old(loaded) - {old(anchors)[i].mod} else old(loaded)
      ensures old(pc.Relocating?) ==> pc == old(pc).(stage := Adding)
      ensures old(pc.Cleaning?) ==> pc == if i + 1 < |anchors| then Cleaning(i + 1, Checking) else Idle
    {
      ghost var before := Abs();
      if unload {
        loaded := loaded - {anchors[i].mod};
        Did(before, Delete(true));
        before := Abs();
      }
      anchors := anchors[i := anchors[i].(mod := 0)];
      Did(before, ZeroInfo);
      before := Abs();
      anchors := anchors[i := anchors[i].(lpa := false)];
      Did(before, ClearFlag);
    }

    /** removePluginFromLPAIfNeeded. */
    method RemoveIfNeeded(i: nat, deleteOk: bool)
      requires Valid() && pc == Cleaning(i, Checking)
      modifies this
      ensures Valid() && devMode == old(devMode) && i < |anchors| == |old(anchors)|
      ensures pc == if i + 1 < |anchors| then Cleaning(i + 1, Checking) else Idle
      ensures
        var a := old(anchors)[i];
        if a.lpa && devMode && deleteOk
        then anchors == old(anchors)[i := a.(lpa := false, mod := 0)] && loaded == old(loaded) - {a.mod}
        else anchors == old(anchors) && loaded == old(loaded)
    {
      if anchors[i].lpa && devMode {
        if deleteOk {
          Discard(i, true);
        } else {
          Did(Abs(), Delete(false));
        }
      } else {
        Did(Abs(), CleanNext);
      }
    }

    /** relocatePluginToLPAIfNeeded: on success a plug-in that needs the LPA is resident there in the
        version being installed; on failure no flag is left dishonest. */
    method RelocateIfNeeded(i: nat, plugin: Plugin, deleteOk: bool, added: Option<Module>) returns (ok: bool)
      requires Valid() && pc == Relocating(i, plugin, Checking)
      requires added.Some? ==> added.value != 0 && added.value !in loaded
      modifies this
      ensures Valid() && devMode == old(devMode) && i < |anchors| == |old(anchors)|
      ensures ok ==> pc == Relocating(i, plugin, Versioning)
      ensures ok && plugin.needsLpa ==>
        anchors[i].lpa && anchors[i].mod in loaded && loaded[anchors[i].mod] == plugin.pluginVersion
      ensures !ok ==> pc == Idle && AllSound(Abs()) && (anchors[i].lpa ==> devMode && !deleteOk)
      ensures !devMode ==> forall m :: m in old(loaded) ==> m in loaded && loaded[m] == old(loaded)[m]
      ensures
        var a := old(anchors)[i];
        var keep := a.lpa && !devMode && a.pluginVersion == plugin.pluginVersion;
        && (ok <==> !(a.lpa && devMode && !deleteOk) && (plugin.needsLpa && !keep ==> added.Some?))
        && (keep || (a.lpa && devMode && !deleteOk) ==> anchors == old(anchors) && loaded == old(loaded))
        && (a.lpa && devMode && deleteOk ==> a.mod !in loaded && anchors[i].mod != a.mod)
        && (ok && plugin.needsLpa && !keep ==> anchors == old(anchors)[i := a.(lpa := true, mod := added.value)])
        && (ok && !plugin.needsLpa && !keep ==> !anchors[i].lpa)
        && forall j :: 0 <= j < |anchors| ==> anchors[j] == if j == i then anchors[i] else old(anchors)[j]
      ensures anchors[i].name == old(anchors)[i].name
    {
      if anchors[i].lpa {
        if devMode {
          if !deleteOk {
            Did(Abs(), Delete(false));
            return false;
          }
          Discard(i, true);
        } else if anchors[i].pluginVersion != plugin.pluginVersion {
          Discard(i, false);
        } else {
          Did(Abs(), Keep);
        }
      } else {
        Did(Abs(), Keep);
      }
      ok := AddIfNeeded(i, plugin, added);
    }

    /** The second half of relocatePluginToLPAIfNeeded. */
    method AddIfNeeded(i: nat, plugin: Plugin, added: Option<Module>) returns (ok: bool)
      requires Valid() && pc == Relocating(i, plugin, Adding)
      requires added.Some? ==> added.value != 0 && added.value !in loaded
      modifies this
      ensures Valid() && devMode == old(devMode) && i < |anchors| == |old(anchors)|
      ensures ok ==> pc == Relocating(i, plugin, Versioning)
      ensures ok && plugin.needsLpa ==>
        anchors[i].lpa && anchors[i].mod in loaded && loaded[anchors[i].mod] == plugin.pluginVersion
      ensures ok <==> !(plugin.needsLpa && !old(anchors)[i].lpa && added.None?)
      ensures !ok ==> pc == Idle && AllSound(Abs())
      ensures !ok ==> anchors == old(anchors) && loaded == old(loaded) && !anchors[i].lpa
      ensures forall m :: m in old(loaded) ==> m in loaded && loaded[m] == old(loaded)[m]
      ensures
        var a := old(anchors)[i];
        if plugin.needsLpa && !a.lpa && added.Some?
        then anchors == old(anchors)[i := a.(lpa := true, mod := added.value)]
             && loaded == old(loaded)[added.value := plugin.pluginVersion]
        else anchors == old(anchors) && loaded == old(loaded)
    {
      ghost var before := Abs();
      if plugin.needsLpa && !anchors[i].lpa {
        if added.None? {
          Did(before, Add(None));
          return false;
        }
        loaded := loaded[added.value := plugin.pluginVersion];
        anchors := anchors[i := anchors[i].(mod := added.value)];
        Did(before, Add(added));
        before := Abs();
        anchors := anchors[i := anchors[i].(lpa := true)];
        Did(before, SetFlag);
      } else {
        Did(before, NothingToAdd);
      }
      ok := true;
    }
  }
}
