/** Every step keeps the invariant, and what that means for router calls over whole runs. */
module ZisLifecycleProofs {
  import opened Common
  import opened ZisStorage
  import opened ZisLifecycle

  // ----- lookups are stable under the writes the server makes

  /** Searching two lists that agree on what matches finds the same place. */
  lemma SameService(m: map<AnchorId, ServiceAnchor>, m': map<AnchorId, ServiceAnchor>, ids: seq<AnchorId>, name: Name)
    requires forall id :: id in ids ==> id in m && id in m'
    requires forall id :: id in ids ==> ServiceMatches(m[id], name) == ServiceMatches(m'[id], name)
    ensures FindService(m, ids, name) == FindService(m', ids, name)
  {
    var r, r' := FindService(m, ids, name), FindService(m', ids, name);
    assert r < |ids| ==> ids[r] in ids;
    assert r' < |ids| ==> ids[r'] in ids;
  }

  /** A write that leaves the anchor's identity alone disturbs no lookup. */
  lemma WriteKeepsLookups(st: Storage, id: AnchorId, a: ServiceAnchor)
    requires Linked(st) && TableSound(st) && id in st.anchors
    requires a.path == st.anchors[id].path && a.version == st.anchors[id].version
    ensures Linked(WriteAnchor(st, id, a)) && TableSound(WriteAnchor(st, id, a))
    ensures forall q :: a.discarded == st.anchors[id].discarded || q != a.path ==>
      Lookup(WriteAnchor(st, id, a), q) == Lookup(st, q)
  {
    var st' := WriteAnchor(st, id, a);
    assert st'.plugins == st.plugins && st'.table == st.table;
    forall q: Path | a.discarded == st.anchors[id].discarded || q != a.path
      ensures Lookup(st', q) == Lookup(st, q)
    {
      var p := FindPlugin(st.plugins, q.plugin);
      if p < |st.plugins| {
        var ids := st.plugins[p].services;
        forall j | j in ids
          ensures j in st.anchors && j in st'.anchors
          ensures ServiceMatches(st.anchors[j], q.service) == ServiceMatches(st'.anchors[j], q.service)
        {
          var k :| 0 <= k < |ids| && ids[k] == j;
        }
        SameService(st.anchors, st'.anchors, ids, q.service);
      }
    }
    forall path | path in st'.table ensures Listed(st', st'.table[path]) {
      var id := st.table[path];
      assert Listed(st, id);
      var p, k :| 0 <= p < |st.plugins| && 0 <= k < |st.plugins[p].services| && st.plugins[p].services[k] == id;
      assert st'.plugins[p].services[k] == st'.table[path];
    }
  }

  /** Pushing a plug-in anchor in front disturbs only lookups under its own name. */
  lemma PluginPushKeepsLookups(st: Storage, name: Name)
    requires Linked(st) && TableSound(st)
    ensures
      var st' := WithPluginAnchor(st, name);
      && Linked(st') && TableSound(st') && st'.anchors == st.anchors && st'.table == st.table
      && FindPlugin(st'.plugins, name) < |st'.plugins|
      && (forall q :: Lookup(st, q).Some? ==> Lookup(st', q) == Lookup(st, q))
  {
    var st' := WithPluginAnchor(st, name);
    if FindPlugin(st.plugins, name) == |st.plugins| {
      assert st'.plugins[1..] == st.plugins;
      forall path | path in st'.table ensures Listed(st', st'.table[path]) {
        var id := st.table[path];
        assert Listed(st, id);
        var p, k :| 0 <= p < |st.plugins| && 0 <= k < |st.plugins[p].services| && st.plugins[p].services[k] == id;
        assert st'.plugins[p + 1].services[k] == st'.table[path];
      }
      forall q: Path | Lookup(st, q).Some? ensures Lookup(st', q) == Lookup(st, q) {
        assert q.plugin != name;
        assert FindPlugin(st'.plugins, q.plugin) == 1 + FindPlugin(st.plugins, q.plugin);
      }
    }
  }

  /** A new anchor becomes the one its path finds, and no other path notices. */
  lemma CreateKeepsLookups(s: State, id: AnchorId)
    requires Linked(s.st) && TableSound(s.st) && InstallingAt(s) && id !in s.st.anchors
    requires s.pc.pa == FindPlugin(s.st.plugins, s.pc.plugin.name)
    ensures
      var st' := CreateStep(s, id).st;
      && Linked(st') && TableSound(st')
      && FindPlugin(st'.plugins, s.pc.plugin.name) == s.pc.pa
      && Lookup(st', CurrentPath(s)) == Some(id)
      && (forall q :: q != CurrentPath(s) ==> Lookup(st', q) == Lookup(s.st, q))
  {
    var st' := CreateStep(s, id).st;
    CreateKeepsLinks(s, id);
    SamePluginPositions(s.st.plugins, st'.plugins);
    CreateKeepsTable(s, id);
    forall q: Path | q != CurrentPath(s) ensures Lookup(st', q) == Lookup(s.st, q) {
      CreateKeepsLookup(s, id, q);
    }
  }

  lemma CreateKeepsLinks(s: State, id: AnchorId)
    requires Linked(s.st) && InstallingAt(s) && id !in s.st.anchors
    requires s.pc.pa == FindPlugin(s.st.plugins, s.pc.plugin.name)
    ensures Linked(CreateStep(s, id).st)
  {
    var st, st', pa := s.st, CreateStep(s, id).st, s.pc.pa;
    forall p, k | 0 <= p < |st'.plugins| && 0 <= k < |st'.plugins[p].services|
      ensures st'.plugins[p].services[k] in st'.anchors
      ensures st'.anchors[st'.plugins[p].services[k]].path.plugin == st'.plugins[p].name
    {
      if p == pa && k > 0 {
        assert st'.plugins[p].services[k] == st.plugins[p].services[k - 1];
      }
    }
  }

  lemma CreateKeepsTable(s: State, id: AnchorId)
    requires Linked(s.st) && TableSound(s.st) && InstallingAt(s) && id !in s.st.anchors
    ensures TableSound(CreateStep(s, id).st)
  {
    var st, st', pa := s.st, CreateStep(s, id).st, s.pc.pa;
    forall path | path in st'.table ensures Listed(st', st'.table[path]) {
      var id := st.table[path];
      assert Listed(st, id);
      var p, k :| 0 <= p < |st.plugins| && 0 <= k < |st.plugins[p].services| && st.plugins[p].services[k] == id;
      assert st'.plugins[p].services[if p == pa then k + 1 else k] == st'.table[path];
    }
  }

  /** Searching a list with a new anchor pushed in front. */
  lemma PushedService(m: map<AnchorId, ServiceAnchor>, id: AnchorId, a: ServiceAnchor, ids: seq<AnchorId>, name: Name)
    requires id !in m && forall j :: j in ids ==> j in m
    ensures FindService(m[id := a], ids, name) == FindService(m, ids, name)
    ensures FindService(m[id := a], [id] + ids, name) ==
      if ServiceMatches(a, name) then 0 else 1 + FindService(m, ids, name)
  {
    SameService(m, m[id := a], ids, name);
    assert ([id] + ids)[1..] == ids;
  }

  lemma CreateKeepsLookup(s: State, id: AnchorId, q: Path)
    requires Linked(s.st) && InstallingAt(s) && id !in s.st.anchors && q != CurrentPath(s)
    requires s.pc.pa == FindPlugin(s.st.plugins, s.pc.plugin.name)
    requires Linked(CreateStep(s, id).st)
    ensures Lookup(CreateStep(s, id).st, q) == Lookup(s.st, q)
  {
    var st, st' := s.st, CreateStep(s, id).st;
    SamePluginPositions(st.plugins, st'.plugins);
    var p := FindPlugin(st.plugins, q.plugin);
    if p < |st.plugins| {
      var ids := st.plugins[p].services;
      assert forall j :: j in ids ==> j in st.anchors;
      PushedService(st.anchors, id, st'.anchors[id], ids, q.service);
    }
  }

  /** Plug-in searches look at names and versions only. */
  lemma SamePluginPositions(ps: seq<PluginAnchor>, ps': seq<PluginAnchor>)
    requires |ps| == |ps'|
    requires forall i :: 0 <= i < |ps| ==> ps[i].name == ps'[i].name && ps[i].version == ps'[i].version
    ensures forall name :: FindPlugin(ps, name) == FindPlugin(ps', name)
  {
    forall name: Name ensures FindPlugin(ps, name) == FindPlugin(ps', name) {
      var r, r' := FindPlugin(ps, name), FindPlugin(ps', name);
      assert r < |ps| ==> PluginMatches(ps'[r], name);
      assert r' < |ps| ==> PluginMatches(ps[r'], name);
    }
  }

  // ----- each kind of step keeps the invariant

  /** Writing a field of an anchor that is not active, and stays inactive, hurts no active anchor. */
  lemma InactiveWrite(s: State, s': State, id: AnchorId, a: ServiceAnchor)
    requires Inv(s) && id in s.st.anchors && !s.st.anchors[id].active && !a.active
    requires a.path == s.st.anchors[id].path && a.version == s.st.anchors[id].version
    requires s'.st == WriteAnchor(s.st, id, a) && s'.installed == s.installed && s'.started == s.started
    requires a.discarded == s.st.anchors[id].discarded || a.path !in s.started
    ensures Linked(s'.st) && TableSound(s'.st) && AllActiveSound(s')
    ensures forall j :: IsActive(s', j) == IsActive(s, j)
  {
    WriteKeepsLookups(s.st, id, a);
    forall j | IsActive(s', j) ensures ActiveSound(s', j) {
      assert IsActive(s, j) && ActiveSound(s, j);
    }
  }

  /** A step that writes no storage and forgets no history hurts no active anchor. */
  lemma SameStorage(s: State, s': State)
    requires Inv(s) && s'.st == s.st && s'.installed == s.installed && s'.started == s.started
    ensures AllActiveSound(s')
    ensures forall j :: IsActive(s', j) == IsActive(s, j)
  {
    forall j | IsActive(s', j) ensures ActiveSound(s', j) {
      assert IsActive(s, j) && ActiveSound(s, j);
    }
  }

  lemma ClearStateKeeps(s: State)
    requires Inv(s) && Enabled(s, ClearState)
    ensures Inv(Apply(s, ClearState))
  {
    var id := s.st.plugins[s.pc.p].services[s.pc.k];
    var s' := Apply(s, ClearState);
    WriteKeepsLookups(s.st, id, s.st.anchors[id].(active := false));
    forall j | IsActive(s', j) ensures ActiveSound(s', j) {
      assert IsActive(s, j) && ActiveSound(s, j);
    }
  }

  lemma ClearServeKeeps(s: State)
    requires Inv(s) && Enabled(s, ClearServe)
    ensures Inv(Apply(s, ClearServe))
  {
    var id := s.st.plugins[s.pc.p].services[s.pc.k];
    var s' := Apply(s, ClearServe);
    InactiveWrite(s, s', id, s.st.anchors[id].(serve := NULL_ROUTINE));
    ClearServeCleans(s);
  }

  lemma ClearServeCleans(s: State)
    requires Linked(s.st) && CleaningSound(s) && Enabled(s, ClearServe)
    ensures CleaningSound(Apply(s, ClearServe))
  {
    var s' := Apply(s, ClearServe);
    forall p: nat, k: nat | p < |s'.st.plugins| && k < |s'.st.plugins[p].services| && Earlier(p, k, s'.pc.p, s'.pc.k)
      ensures !IsActive(s', s'.st.plugins[p].services[k])
    {
      assert s'.st.plugins == s.st.plugins;
      assert Earlier(p, k, s.pc.p, s.pc.k) || (p == s.pc.p && k == s.pc.k);
    }
  }

  lemma ActiveIsListed(s: State, id: AnchorId)
    requires Inv(s) && IsActive(s, id)
    ensures Listed(s.st, id)
  {
    assert ActiveSound(s, id);
    SelectedIsListed(s.st, s.st.anchors[id].path, id);
  }

  /** When cleaning ends nothing is active, so nothing installed before it can be invoked. */
  lemma CleanDoneKeeps(s: State)
    requires Inv(s) && Enabled(s, CleanDone)
    ensures Inv(Apply(s, CleanDone))
    ensures forall id :: !IsActive(s, id)
  {
    NothingListedIsActive(s);
    forall id: AnchorId ensures !IsActive(s, id) {
      if IsActive(s, id) {
        ActiveIsListed(s, id);
      }
    }
    var s' := Apply(s, CleanDone);
    assert forall id :: IsActive(s', id) == IsActive(s, id);
  }

  lemma NothingListedIsActive(s: State)
    requires Linked(s.st) && CleaningSound(s) && Enabled(s, CleanDone)
    ensures forall id :: Listed(s.st, id) ==> !IsActive(s, id)
  {
    forall id: AnchorId | Listed(s.st, id) ensures !IsActive(s, id) {
      var p, k :| 0 <= p < |s.st.plugins| && 0 <= k < |s.st.plugins[p].services| && s.st.plugins[p].services[k] == id;
      assert Earlier(p, k, s.pc.p, s.pc.k);
    }
  }

  lemma BeginInstallKeeps(s: State, plugin: Plugin)
    requires Inv(s) && Enabled(s, BeginInstall(plugin))
    ensures Inv(Apply(s, BeginInstall(plugin)))
  {
    var s' := Apply(s, BeginInstall(plugin));
    PluginPushKeepsLookups(s.st, plugin.name);
    forall j | IsActive(s', j) ensures ActiveSound(s', j) {
      assert IsActive(s, j) && ActiveSound(s, j);
    }
    forall path | path in s'.started ensures path in s'.st.table && IsActive(s', s'.st.table[path]) {
      assert IsActive(s, s.st.table[path]);
    }
  }

  lemma RelocatedKeeps(s: State, copy: Plugin)
    requires Inv(s) && Enabled(s, Relocated(copy))
    ensures Inv(Apply(s, Relocated(copy)))
  {
    var s' := Apply(s, Relocated(copy));
    forall path | path in s.installed ensures path in s'.installed && s'.installed[path] == s.installed[path] {
      assert path.plugin in s.names;
    }
    forall j | IsActive(s', j) ensures ActiveSound(s', j) {
      assert IsActive(s, j) && ActiveSound(s, j);
    }
    forall path | path in s'.started ensures path in s'.st.table && IsActive(s', s'.st.table[path]) {
      assert IsActive(s, s.st.table[path]);
    }
    forall i | 0 <= i < |copy.services| ensures ServicePath(copy, i) !in s'.started {
      assert ServicePath(copy, i).plugin !in s.names;
    }
  }

  lemma FindAnchorKeeps(s: State)
    requires Inv(s) && Enabled(s, FindAnchor)
    ensures Inv(Apply(s, FindAnchor))
  {
    var path := CurrentPath(s);
    assert path !in s.started;
    match Lookup(s.st, path)
    case None =>
      SameStorage(s, Apply(s, FindAnchor));
      RunningUnchanged(s, Apply(s, FindAnchor));
    case Some(id) =>
      assert IsActive(s, id) ==> ActiveSound(s, id);
      if Compatible(Current(s), s.st.anchors[id]) {
        SameStorage(s, Apply(s, FindAnchor));
        RunningUnchanged(s, Apply(s, FindAnchor));
      } else {
        var s' := Apply(s, FindAnchor);
        InactiveWrite(s, s', id, s.st.anchors[id].(discarded := true));
        RunningUnchanged(s, s');
      }
  }

  /** Steps of a running server that leave table, activity and history alone. */
  lemma RunningUnchanged(s: State, s': State)
    requires RunningSound(s) && (Running(s'.pc) ==> Running(s.pc))
    requires s'.st.table == s.st.table && s'.started == s.started && s'.installed == s.installed
    requires s.names <= s'.names
    requires forall j :: IsActive(s, j) ==> IsActive(s', j)
    ensures RunningSound(s')
  {
  }

  lemma CreateAnchorKeeps(s: State, id: AnchorId)
    requires Inv(s) && Enabled(s, CreateAnchor(id))
    ensures Inv(Apply(s, CreateAnchor(id)))
  {
    var s' := Apply(s, CreateAnchor(id));
    assert CurrentPath(s) !in s.started;
    CreateKeepsLookups(s, id);
    CreatedMatches(s.pc.plugin.name, Current(s));
    forall j | IsActive(s', j) ensures ActiveSound(s', j) {
      assert IsActive(s, j) && ActiveSound(s, j);
    }
    RunningUnchanged(s, s');
  }

  lemma WriteFieldKeeps(s: State)
    requires Inv(s) && Enabled(s, WriteField)
    ensures Inv(Apply(s, WriteField))
  {
    var s' := Apply(s, WriteField);
    var id := s.pc.phase.id;
    var a := UpdateWrite(s.st.anchors[id], Current(s), s.pc.phase.writes);
    InactiveWrite(s, s', id, a);
    WriteKeepsLookups(s.st, id, a);
    RunningUnchanged(s, s');
  }

  /** Publishing points one path at the anchor that the lists find for it. */
  lemma PublishSound(s: State)
    requires Inv(s) && AtPublication(s)
    ensures
      var s' := PublishStep(s);
      && Linked(s'.st) && TableSound(s'.st) && (forall q :: Lookup(s'.st, q) == Lookup(s.st, q))
      && s'.st.table == s.st.table[CurrentPath(s) := s.pc.phase.id]
  {
    var id := s.pc.phase.id;
    assert Lookup(s.st, CurrentPath(s)) == Some(id);
    SelectedIsListed(s.st, CurrentPath(s), id);
    TableWrite(s.st, PublishStep(s).st);
  }

  lemma PublishActive(s: State)
    requires Inv(s) && AtPublication(s) && Linked(PublishStep(s).st)
    requires forall q :: Lookup(PublishStep(s).st, q) == Lookup(s.st, q)
    requires PublishStep(s).st.table == s.st.table[CurrentPath(s) := s.pc.phase.id]
    ensures AllActiveSound(PublishStep(s)) && RunningSound(PublishStep(s))
  {
    var s' := PublishStep(s);
    forall j | IsActive(s', j) ensures ActiveSound(s', j) {
      assert IsActive(s, j) && ActiveSound(s, j);
    }
    forall path | path in s'.started ensures path in s'.st.table && IsActive(s', s'.st.table[path]) {
      assert path != CurrentPath(s) && IsActive(s, s.st.table[path]);
    }
  }

  lemma PublishKeeps(s: State)
    requires Inv(s) && AtPublication(s)
    ensures Inv(PublishStep(s))
  {
    PublishSound(s);
    PublishActive(s);
    PublishInstalling(s);
  }

  lemma PublishInstalling(s: State)
    requires Inv(s) && AtPublication(s) && Linked(PublishStep(s).st)
    requires forall q :: Lookup(PublishStep(s).st, q) == Lookup(s.st, q)
    requires PublishStep(s).st.table == s.st.table[CurrentPath(s) := s.pc.phase.id]
    ensures InstallingSound(PublishStep(s))
  {
  }

  lemma TablePutKeeps(s: State, ok: bool)
    requires Inv(s) && Enabled(s, TablePut(ok))
    ensures Inv(Apply(s, TablePut(ok)))
  {
    if ok {
      PublishKeeps(s);
    } else {
      var s' := Apply(s, TablePut(ok));
      SameStorage(s, s');
      RunningUnchanged(s, s');
    }
  }

  lemma SelectedIsListed(st: Storage, path: Path, id: AnchorId)
    requires Linked(st) && Lookup(st, path) == Some(id)
    ensures Listed(st, id)
  {
    var p := FindPlugin(st.plugins, path.plugin);
    assert id in st.plugins[p].services;
  }

  /** Lookups through the lists do not read the table. */
  lemma TableWrite(st: Storage, st': Storage)
    requires Linked(st) && st'.anchors == st.anchors && st'.plugins == st.plugins
    ensures Linked(st') && forall q :: Lookup(st', q) == Lookup(st, q)
    ensures forall id :: Listed(st, id) ==> Listed(st', id)
  {
    assert Linked(st');
  }

  /** Activation adds one sound active anchor and takes none away. */
  lemma ActivateSound(s: State)
    requires Inv(s) && AtActivation(s)
    ensures
      var s' := ActivateStep(s);
      && Linked(s'.st) && TableSound(s'.st) && AllActiveSound(s')
      && forall j :: IsActive(s, j) || j == s.pc.phase.id <==> IsActive(s', j)
  {
    var s' := ActivateStep(s);
    var id := s.pc.phase.id;
    WriteKeepsLookups(s.st, id, s.st.anchors[id].(active := true));
    forall j | IsActive(s', j) ensures ActiveSound(s', j) {
      if j == id {
        ActivatedIsSound(s);
      } else {
        assert IsActive(s, j) && ActiveSound(s, j);
      }
    }
  }

  lemma ActivatedIsSound(s: State)
    requires Inv(s) && AtActivation(s)
    ensures
      var s' := ActivateStep(s);
      Linked(s'.st) && ActiveSound(s', s.pc.phase.id)
  {
    var id := s.pc.phase.id;
    WriteKeepsLookups(s.st, id, s.st.anchors[id].(active := true));
    assert PhaseSound(s);
  }

  lemma ActivateRunning(s: State)
    requires Inv(s) && AtActivation(s)
    requires forall j :: IsActive(s, j) || j == s.pc.phase.id <==> IsActive(ActivateStep(s), j)
    ensures RunningSound(ActivateStep(s))
  {
    var s' := ActivateStep(s);
    forall path | path in s'.started ensures path in s'.st.table && IsActive(s', s'.st.table[path]) {
      assert path in s.started ==> IsActive(s, s.st.table[path]);
    }
  }

  lemma ActivateInstalling(s: State)
    requires Inv(s) && AtActivation(s) && Linked(ActivateStep(s).st)
    ensures InstallingSound(ActivateStep(s))
  {
    var s' := ActivateStep(s);
    var plugin, i := s.pc.plugin, s.pc.i;
    assert CurrentPath(s) == s.st.anchors[s.pc.phase.id].path;
    forall j | i + 1 <= j < |plugin.services| ensures ServicePath(plugin, j) !in s'.started {
      assert ServicePath(plugin, j) != ServicePath(plugin, i);
    }
  }

  lemma ActivateInstalled(s: State)
    requires Inv(s) && AtActivation(s)
    ensures forall path :: path in ActivateStep(s).started ==> path in ActivateStep(s).installed
  {
    assert s.st.anchors[s.pc.phase.id].path == CurrentPath(s) == ServicePath(s.pc.plugin, s.pc.i);
  }

  lemma ActivateKeeps(s: State)
    requires Inv(s) && AtActivation(s)
    ensures Inv(ActivateStep(s))
  {
    ActivateSound(s);
    ActivateRunning(s);
    ActivateInstalling(s);
    ActivateInstalled(s);
  }

  /** Every step keeps the invariant. */
  lemma StepKeeps(s: State, act: Action)
    requires Inv(s) && Enabled(s, act)
    ensures Inv(Apply(s, act))
  {
    match act
    case ClearState => ClearStateKeeps(s);
    case ClearServe => ClearServeKeeps(s);
    case CleanDone => CleanDoneKeeps(s);
    case BeginInstall(plugin) => BeginInstallKeeps(s, plugin);
    case Relocated(copy) => RelocatedKeeps(s, copy);
    case FindAnchor => InstallStepKeeps(s, act);
    case CreateAnchor(_) => InstallStepKeeps(s, act);
    case WriteField => InstallStepKeeps(s, act);
    case TablePut(_) => InstallStepKeeps(s, act);
    case Activate => InstallStepKeeps(s, act);
    case _ => ControlStepKeeps(s, act);
  }

  /** Steps that install a service. */
  lemma InstallStepKeeps(s: State, act: Action)
    requires Inv(s) && Enabled(s, act)
    requires act.FindAnchor? || act.CreateAnchor? || act.WriteField? || act.TablePut? || act.Activate?
    ensures Inv(Apply(s, act))
  {
    match act
    case FindAnchor => FindAnchorKeeps(s);
    case CreateAnchor(id) => CreateAnchorKeeps(s, id);
    case WriteField => WriteFieldKeeps(s);
    case TablePut(ok) => TablePutKeeps(s, ok);
    case Activate => ActivateKeeps(s);
  }

  /** Steps that move only the server's control state. */
  lemma ControlStepKeeps(s: State, act: Action)
    requires Inv(s) && Enabled(s, act)
    requires act.Start? || act.NextPlugin? || act.Stop? || act.Crash? || act.RelocateFailed? || act.PluginInited?
          || act.AllocFailed? || act.ServiceInited? || act.InstallDone?
    ensures Inv(Apply(s, act))
  {
    var s' := Apply(s, act);
    assert s'.st == s.st && s'.installed == s.installed && s'.started == s.started;
    SameStorage(s, s');
    if Running(s'.pc) {
      assert Running(s.pc) && s'.names == s.names;
      RunningUnchanged(s, s');
      if act.ServiceInited? {
        ServiceMovesOn(s, s', act);
      } else if act.PluginInited? {
        PluginMovesOn(s, s', act);
      }
    }
  }

  lemma ServiceMovesOn(s: State, s': State, act: Action)
    requires Inv(s) && Enabled(s, act) && act.ServiceInited? && s' == Apply(s, act)
    ensures InstallingSound(s')
  {
  }

  lemma PluginMovesOn(s: State, s': State, act: Action)
    requires Inv(s) && Enabled(s, act) && act.PluginInited? && s' == Apply(s, act)
    ensures InstallingSound(s')
  {
  }

  /** What the lists find for other paths, and the structure version of it, are the same in both storages. */
  ghost predicate SameElsewhere(st: Storage, st': Storage, path: Path)
    requires Linked(st) && Linked(st')
  {
    forall q :: q != path ==>
      && Lookup(st', q) == Lookup(st, q)
      && (Lookup(st, q).Some? ==> st'.anchors[Lookup(st, q).value].version == st.anchors[Lookup(st, q).value].version)
  }

  lemma WriteElsewhere(st: Storage, id: AnchorId, a: ServiceAnchor)
    requires Linked(st) && TableSound(st) && id in st.anchors
    requires a.path == st.anchors[id].path && a.version == st.anchors[id].version
    ensures Linked(WriteAnchor(st, id, a)) && SameElsewhere(st, WriteAnchor(st, id, a), a.path)
  {
    WriteKeepsLookups(st, id, a);
  }

  lemma FindElsewhere(s: State)
    requires Linked(s.st) && TableSound(s.st) && InstallingAt(s)
    ensures Linked(FindStep(s).st) && SameElsewhere(s.st, FindStep(s).st, CurrentPath(s))
  {
    match Lookup(s.st, CurrentPath(s))
    case None =>
    case Some(id) => WriteElsewhere(s.st, id, s.st.anchors[id].(discarded := true));
  }

  /** Installing one service does not disturb the others. */
  lemma InstallStepElsewhere(s: State, act: Action)
    requires Inv(s) && Enabled(s, act)
    requires act.FindAnchor? || act.CreateAnchor? || act.WriteField? || act.TablePut? || act.Activate?
    ensures InstallingAt(s) && Linked(Apply(s, act).st) && SameElsewhere(s.st, Apply(s, act).st, CurrentPath(s))
  {
    match act
    case FindAnchor => FindElsewhere(s);
    case CreateAnchor(id) => CreateKeepsLookups(s, id);
    case WriteField => WriteFieldElsewhere(s);
    case TablePut(ok) => TableWrite(s.st, Apply(s, act).st);
    case Activate => ActivateElsewhere(s);
  }

  lemma WriteFieldElsewhere(s: State)
    requires Inv(s) && Enabled(s, WriteField)
    ensures Linked(Apply(s, WriteField).st) && SameElsewhere(s.st, Apply(s, WriteField).st, CurrentPath(s))
  {
    var id := s.pc.phase.id;
    assert s.st.anchors[id].path == CurrentPath(s);
    WriteElsewhere(s.st, id, UpdateWrite(s.st.anchors[id], Current(s), s.pc.phase.writes));
  }

  lemma ActivateElsewhere(s: State)
    requires Inv(s) && AtActivation(s)
    ensures Linked(ActivateStep(s).st) && SameElsewhere(s.st, ActivateStep(s).st, CurrentPath(s))
  {
    var id := s.pc.phase.id;
    assert s.st.anchors[id].path == CurrentPath(s);
    WriteElsewhere(s.st, id, s.st.anchors[id].(active := true));
  }

  // ----- storage that a server inherits

  /** Storage a server may find on its first start: any listed anchors, of any version, active or not. */
  ghost predicate Inherited(s: State) {
    && s.pc.Down? && s.names == {} && s.installed == map[] && s.started == {}
    && Linked(s.st) && TableSound(s.st) && ActiveListed(s)
  }

  ghost predicate ActiveListed(s: State) {
    forall id :: IsActive(s, id) ==> Listed(s.st, id)
  }

  /** What holds until the first clean-up is completed. */
  ghost predicate Unsettled(s: State) {
    && (s.pc.Down? || (s.pc.Cleaning? && s.pc.starting)) && s.names == {} && s.installed == map[] && s.started == {}
    && Linked(s.st) && TableSound(s.st) && ActiveListed(s) && CleaningSound(s)
  }

  lemma UnsettledWrite(s: State, s': State, id: AnchorId, a: ServiceAnchor)
    requires Linked(s.st) && TableSound(s.st) && ActiveListed(s) && id in s.st.anchors
    requires a.path == s.st.anchors[id].path && a.version == s.st.anchors[id].version
    requires a.active ==> s.st.anchors[id].active
    requires s'.st == WriteAnchor(s.st, id, a)
    ensures Linked(s'.st) && TableSound(s'.st) && ActiveListed(s')
  {
    WriteKeepsLookups(s.st, id, a);
    forall j | IsActive(s', j) ensures Listed(s'.st, j) {
      assert IsActive(s, j) && Listed(s.st, j);
    }
  }

  lemma UnsettledClearState(s: State)
    requires Unsettled(s) && Enabled(s, ClearState)
    ensures Unsettled(Apply(s, ClearState))
  {
    var id := s.st.plugins[s.pc.p].services[s.pc.k];
    UnsettledWrite(s, Apply(s, ClearState), id, s.st.anchors[id].(active := false));
  }

  lemma UnsettledClearServe(s: State)
    requires Unsettled(s) && Enabled(s, ClearServe)
    ensures Unsettled(Apply(s, ClearServe))
  {
    var id := s.st.plugins[s.pc.p].services[s.pc.k];
    UnsettledWrite(s, Apply(s, ClearServe), id, s.st.anchors[id].(serve := NULL_ROUTINE));
    ClearServeCleans(s);
  }

  lemma UnsettledStep(s: State, act: Action)
    requires Unsettled(s) && Enabled(s, act) && !act.CleanDone?
    ensures Unsettled(Apply(s, act))
  {
    if act.ClearState? {
      UnsettledClearState(s);
    } else if act.ClearServe? {
      UnsettledClearServe(s);
    }
  }

  /** The first completed clean-up leaves nothing active, whatever was inherited. */
  lemma FirstCleanUp(s: State)
    requires Unsettled(s) && Enabled(s, CleanDone)
    ensures Inv(Apply(s, CleanDone))
  {
    NothingListedIsActive(s);
    var s' := Apply(s, CleanDone);
    forall id: AnchorId ensures !IsActive(s', id) {
      assert IsActive(s, id) ==> Listed(s.st, id);
    }
  }

  lemma NothingActive(s: State)
    requires Inherited(s) && forall id :: !IsActive(s, id)
    ensures Inv(s)
  {
  }

  // ----- whole runs

  /** The state after performing `acts` one after the other on inherited storage, if each was possible
      when its turn came. */
  ghost function Exec(s: State, acts: seq<Action>): Option<State>
    decreases |acts|, 1
  {
    if acts == [] then FirstState(s) else LastStep(s, acts)
  }

  ghost function FirstState(s: State): Option<State> {
    if Inherited(s) then Some(s) else None
  }

  ghost function LastStep(s: State, acts: seq<Action>): Option<State>
    requires acts != []
    decreases |acts|, 0
  {
    match Exec(s, acts[..|acts| - 1])
    case None => None
    case Some(m) =>
      var act := acts[|acts| - 1];
      if Linked(m.st) && Enabled(m, act) then Some(Apply(m, act)) else None
  }

  ghost predicate IsRun(s: State, acts: seq<Action>) {
    Exec(s, acts).Some?
  }

  ghost function After(s: State, acts: seq<Action>): State
    requires IsRun(s, acts)
  {
    Exec(s, acts).value
  }

  /** A clean-up has been completed, or there was nothing to clean up. */
  ghost predicate Settled(s: State, acts: seq<Action>) {
    CleanDone in acts || forall id :: !IsActive(s, id)
  }

  lemma {:induction false} UnsettledRun(s: State, acts: seq<Action>)
    requires IsRun(s, acts) && CleanDone !in acts
    ensures Unsettled(After(s, acts))
    decreases |acts|
  {
    if acts != [] {
      var before := acts[..|acts| - 1];
      assert Exec(s, acts) == LastStep(s, acts);
      UnsettledRun(s, before);
      UnsettledStep(After(s, before), acts[|acts| - 1]);
    }
  }

  /** The invariant holds after every run: from the first completed clean-up on, and from the start if nothing
      inherited was active. */
  lemma {:induction false} RunKeeps(s: State, acts: seq<Action>)
    requires IsRun(s, acts) && Settled(s, acts)
    ensures Inv(After(s, acts))
    decreases |acts|
  {
    if acts == [] {
      NothingActive(s);
    } else {
      var before, act := acts[..|acts| - 1], acts[|acts| - 1];
      assert Exec(s, acts) == LastStep(s, acts);
      assert acts == before + [act];
      if Settled(s, before) {
        RunKeeps(s, before);
        StepKeeps(After(s, before), act);
      } else {
        UnsettledRun(s, before);
        FirstCleanUp(After(s, before));
      }
    }
  }

  /** At every point of every run the lists are sound, and installation happens in settled storage only. */
  lemma RunLinked(s: State, acts: seq<Action>)
    requires IsRun(s, acts)
    ensures Linked(After(s, acts).st) && TableSound(After(s, acts).st)
    ensures Running(After(s, acts).pc) ==> Settled(s, acts)
  {
    if Settled(s, acts) {
      RunKeeps(s, acts);
    } else {
      UnsettledRun(s, acts);
    }
  }

  lemma OneMoreStep(s: State, acts: seq<Action>, act: Action)
    requires IsRun(s, acts) && Linked(After(s, acts).st) && Enabled(After(s, acts), act)
    ensures Exec(s, acts + [act]) == Some(Apply(After(s, acts), act))
    ensures Linked(Apply(After(s, acts), act).st)
  {
    assert (acts + [act])[..|acts|] == acts;
    assert Exec(s, acts + [act]) == LastStep(s, acts + [act]);
    RunLinked(s, acts + [act]);
  }

  /** The services that plug-ins brought since the last completed clean-up, read off the run alone. */
  ghost function InstalledSince(acts: seq<Action>): map<Path, Service>
    decreases |acts|
  {
    if acts == [] then map[] else InstalledStep(InstalledSince(acts[..|acts| - 1]), acts[|acts| - 1])
  }

  ghost function InstalledStep(before: map<Path, Service>, act: Action): map<Path, Service> {
    match act
    case CleanDone => map[]
    case Relocated(copy) => if DescriptorOk(copy) then before + Descriptors(copy) else before
    case _ => before
  }

  lemma StepInstalls(s: State, act: Action)
    requires Linked(s.st) && Enabled(s, act)
    ensures Apply(s, act).installed == InstalledStep(s.installed, act)
  {
  }

  lemma {:induction false} InstalledIsHistory(s: State, acts: seq<Action>)
    requires IsRun(s, acts)
    ensures After(s, acts).installed == InstalledSince(acts)
    decreases |acts|
  {
    if acts != [] {
      var before := acts[..|acts| - 1];
      assert Exec(s, acts) == LastStep(s, acts);
      InstalledIsHistory(s, before);
      StepInstalls(After(s, before), acts[|acts| - 1]);
    }
  }

  /** Router safety.  At any point of any run, once what was inherited active has been cleaned up: a call reaches
      a routine only if a plug-in brought that routine under that path since the last completed clean-up,
      the version asked for is not above that descriptor's, and the check that descriptor demands, with
      its own class and entity, has succeeded. */
  lemma RouterSafe(s0: State, acts: seq<Action>, parm: RouterParm, auth: AuthCheck)
    requires IsRun(s0, acts) && Settled(s0, acts)
    ensures TableSound(After(s0, acts).st)
    ensures
      var r := Route(After(s0, acts).st, parm, auth);
      r.Invoked? ==>
        && parm.path in InstalledSince(acts)
        && var d := InstalledSince(acts)[parm.path];
           && r.serve == d.serve != NULL_ROUTINE
           && HeaderOk(parm) && VersionOk(parm, d.serviceVersion) && Authorised(d, auth)
  {
    RunKeeps(s0, acts);
    InstalledIsHistory(s0, acts);
    var s := After(s0, acts);
    if Route(s.st, parm, auth).Invoked? {
      assert IsActive(s, s.st.table[parm.path]);
    }
  }

  /** An active anchor is never half-filled: after any run, at any point of it, everything a router or client
      reads from it is what the installed descriptor of its path says. */
  lemma ActiveAnchorsAreComplete(s0: State, acts: seq<Action>, id: AnchorId)
    requires IsRun(s0, acts) && Settled(s0, acts)
    requires id in After(s0, acts).st.anchors && After(s0, acts).st.anchors[id].active
    ensures
      var a := After(s0, acts).st.anchors[id];
      a.path in InstalledSince(acts) && Matches(a, InstalledSince(acts)[a.path]) && a.serve != NULL_ROUTINE
  {
    RunKeeps(s0, acts);
    InstalledIsHistory(s0, acts);
    assert IsActive(After(s0, acts), id) && ActiveSound(After(s0, acts), id);
  }

  /** While the server runs, the router serves exactly the completed installations: the lists, the
      table and the flags together behave as one map from path to descriptor. */
  lemma RouterComplete(s0: State, acts: seq<Action>, parm: RouterParm, auth: AuthCheck)
    requires IsRun(s0, acts) && Running(After(s0, acts).pc)
    ensures TableSound(After(s0, acts).st)
    ensures
      var s := After(s0, acts);
      Route(s.st, parm, auth).Invoked? <==>
        && HeaderOk(parm) && parm.path in s.started && parm.path in InstalledSince(acts)
        && VersionOk(parm, InstalledSince(acts)[parm.path].serviceVersion)
        && Authorised(InstalledSince(acts)[parm.path], auth)
  {
    RunLinked(s0, acts);
    RunKeeps(s0, acts);
    InstalledIsHistory(s0, acts);
    var s := After(s0, acts);
    assert parm.path in s.started ==> IsActive(s, s.st.table[parm.path]);
    assert parm.path in s.st.table && IsActive(s, s.st.table[parm.path]) ==> ActiveSound(s, s.st.table[parm.path]);
  }

  /** Which refusal a call gets from a running server.  For a good header: 14 exactly if the path was never
      published; 15 exactly if the anchor published for it is older than asked for; 16 exactly if it is new
      enough but no completed installation stands behind it; and 17 exactly if one does, and the check its own
      descriptor demands fails. */
  lemma RouterRefusals(s0: State, acts: seq<Action>, parm: RouterParm, auth: AuthCheck)
    requires IsRun(s0, acts) && Running(After(s0, acts).pc)
    ensures TableSound(After(s0, acts).st)
    ensures
      var s := After(s0, acts);
      var r := Route(s.st, parm, auth);
      && (r == Refused(12) <==> !parm.eyecatcherOk)
      && (r == Refused(13) <==> parm.eyecatcherOk && parm.version > 1)
      && (parm.eyecatcherOk && parm.version <= 1 ==>
           && (r == Refused(14) <==> parm.path !in s.st.table)
           && (r == Refused(15) <==>
                && parm.path in s.st.table && parm.serviceVersion != 0xFFFF_FFFF
                && parm.serviceVersion > s.st.anchors[s.st.table[parm.path]].serviceVersion)
           && (r == Refused(16) <==>
                && parm.path in s.st.table && VersionOk(parm, s.st.anchors[s.st.table[parm.path]].serviceVersion)
                && parm.path !in s.started)
           && (r == Refused(17) <==>
                && parm.path in s.started && parm.path in InstalledSince(acts)
                && var d := InstalledSince(acts)[parm.path];
                   && VersionOk(parm, d.serviceVersion)
                   && d.flags.specificAuth && !auth(d.safClass, d.safEntity)))
  {
    RunLinked(s0, acts);
    RunKeeps(s0, acts);
    InstalledIsHistory(s0, acts);
    var s := After(s0, acts);
    assert parm.path in s.started ==> IsActive(s, s.st.table[parm.path]);
    assert parm.path in s.st.table && IsActive(s, s.st.table[parm.path]) ==> ActiveSound(s, s.st.table[parm.path]);
  }

  /** The table is a faithful index of the lists, after any number of restarts. */
  lemma TableAgreesWithLists(s0: State, acts: seq<Action>)
    requires IsRun(s0, acts) && Settled(s0, acts)
    ensures
      var s := After(s0, acts);
      && Linked(s.st)
      && (Running(s.pc) ==> forall path :: path in s.started ==>
           path in s.st.table && Lookup(s.st, path) == Some(s.st.table[path]) && s.st.anchors[s.st.table[path]].active)
      && (forall path :: path in s.st.table ==>
           && s.st.table[path] in s.st.anchors && s.st.anchors[s.st.table[path]].path == path
           && Listed(s.st, s.st.table[path]))
      && (forall id :: id in s.st.anchors && s.st.anchors[id].discarded ==> !s.st.anchors[id].active)
  {
    RunKeeps(s0, acts);
    var s := After(s0, acts);
    forall path | Running(s.pc) && path in s.started
      ensures path in s.st.table && Lookup(s.st, path) == Some(s.st.table[path])
      ensures s.st.anchors[s.st.table[path]].active
    {
      assert IsActive(s, s.st.table[path]) && ActiveSound(s, s.st.table[path]);
    }
    forall id | id in s.st.anchors && s.st.anchors[id].discarded ensures !s.st.anchors[id].active {
      assert IsActive(s, id) ==> ActiveSound(s, id);
    }
  }
}
