/** The server's own loops, written as the code writes them.  Every assignment to common storage is
    followed by the action of the transition system it performs, so `Valid()` says that what these
    methods do to storage, write by write, is a run, and the run theorems apply to every point of it. */
module ZisServer {
  import opened Common
  import opened ZisStorage
  import opened ZisLifecycle
  import opened ZisLifecycleProofs

  /** findPluginAnchor. */
  method FindPluginAnchor(plugins: seq<PluginAnchor>, name: Name) returns (r: nat)
    ensures r == FindPlugin(plugins, name)
  {
    r := 0;
    while r < |plugins|
      invariant r <= |plugins|
      invariant forall j :: 0 <= j < r ==> !PluginMatches(plugins[j], name)
    {
      if PluginMatches(plugins[r], name) {
        return;
      }
      r := r + 1;
    }
  }

  /** findServiceAnchor. */
  method FindServiceAnchor(anchors: map<AnchorId, ServiceAnchor>, ids: seq<AnchorId>, name: Name) returns (r: nat)
    requires forall id :: id in ids ==> id in anchors
    ensures r == FindService(anchors, ids, name)
  {
    r := 0;
    while r < |ids|
      invariant r <= |ids|
      invariant forall j :: 0 <= j < r ==> !ServiceMatches(anchors[ids[j]], name)
    {
      if ServiceMatches(anchors[ids[r]], name) {
        return;
      }
      r := r + 1;
    }
  }

  // ----- cleaning as a function

  function Cleaned(a: ServiceAnchor): ServiceAnchor {
    a.(active := false, serve := NULL_ROUTINE)
  }

  function CleanedIds(m: map<AnchorId, ServiceAnchor>, ids: seq<AnchorId>): map<AnchorId, ServiceAnchor>
    decreases |ids|
  {
    if ids == [] then m
    else
      var m', id := CleanedIds(m, ids[..|ids| - 1]), ids[|ids| - 1];
      if id in m' then m'[id := Cleaned(m'[id])] else m'
  }

  lemma CleanedIdsMore(m: map<AnchorId, ServiceAnchor>, ids: seq<AnchorId>, k: nat)
    requires k < |ids|
    ensures
      var m' := CleanedIds(m, ids[..k]);
      CleanedIds(m, ids[..k + 1]) == if ids[k] in m' then m'[ids[k] := Cleaned(m'[ids[k]])] else m'
  {
    assert ids[..k + 1][..k] == ids[..k];
  }

  function CleanedLists(m: map<AnchorId, ServiceAnchor>, plugins: seq<PluginAnchor>): map<AnchorId, ServiceAnchor>
    decreases |plugins|
  {
    if plugins == [] then m
    else CleanedIds(CleanedLists(m, plugins[..|plugins| - 1]), plugins[|plugins| - 1].services)
  }

  /** The addresses in any of the lists. */
  function ListedIn(plugins: seq<PluginAnchor>): set<AnchorId> {
    set p, k | 0 <= p < |plugins| && 0 <= k < |plugins[p].services| :: plugins[p].services[k]
  }

  lemma {:induction false} CleanedIdsMeaning(m: map<AnchorId, ServiceAnchor>, ids: seq<AnchorId>)
    ensures CleanedIds(m, ids).Keys == m.Keys
    ensures forall id :: id in m ==> CleanedIds(m, ids)[id] == if id in ids then Cleaned(m[id]) else m[id]
    decreases |ids|
  {
    if ids != [] {
      CleanedIdsMeaning(m, ids[..|ids| - 1]);
    }
  }

  lemma {:induction false} CleanedListsMeaning(m: map<AnchorId, ServiceAnchor>, plugins: seq<PluginAnchor>)
    ensures CleanedLists(m, plugins).Keys == m.Keys
    ensures forall id :: id in m ==>
      CleanedLists(m, plugins)[id] == if id in ListedIn(plugins) then Cleaned(m[id]) else m[id]
    decreases |plugins|
  {
    if plugins != [] {
      var before, ids := plugins[..|plugins| - 1], plugins[|plugins| - 1].services;
      CleanedListsMeaning(m, before);
      CleanedIdsMeaning(CleanedLists(m, before), ids);
      forall id: AnchorId ensures id in ListedIn(plugins) <==> id in ListedIn(before) || id in ids {
        ListedInMore(plugins, id);
      }
    }
  }

  lemma ListedInMore(plugins: seq<PluginAnchor>, id: AnchorId)
    requires plugins != []
    ensures id in ListedIn(plugins) <==>
      id in ListedIn(plugins[..|plugins| - 1]) || id in plugins[|plugins| - 1].services
  {
    var n := |plugins| - 1;
    if id in ListedIn(plugins[..n]) {
      var p, k :| 0 <= p < n && 0 <= k < |plugins[..n][p].services| && plugins[..n][p].services[k] == id;
      assert plugins[p].services[k] == id;
    }
    if id in plugins[n].services {
      var k :| 0 <= k < |plugins[n].services| && plugins[n].services[k] == id;
    }
    if id in ListedIn(plugins) {
      var p, k :| 0 <= p < |plugins| && 0 <= k < |plugins[p].services| && plugins[p].services[k] == id;
      if p < n {
        assert plugins[..n][p].services[k] == id;
      }
    }
  }

  /** What is found for the service can be used again. */
  predicate Usable(st: Storage, plugin: Plugin, i: nat)
    requires Linked(st) && i < |plugin.services|
  {
    match Lookup(st, ServicePath(plugin, i))
    case None => false
    case Some(id) => Compatible(plugin.services[i], st.anchors[id])
  }

  /** What the installation of a service meets: storage for an anchor, should one be needed, the service's init
      and the table put. */
  datatype Outcome = Outcome(block: Option<AnchorId>, initOk: bool, putOk: bool)

  /** Allocation returns storage that is not in use. */
  predicate Allocatable(outcomes: seq<Outcome>, used: set<AnchorId>) {
    && (forall i :: 0 <= i < |outcomes| && outcomes[i].block.Some? ==> outcomes[i].block.value !in used)
    && (forall i, j :: 0 <= i < j < |outcomes| && outcomes[i].block.Some? ==> outcomes[i].block != outcomes[j].block)
  }

  /** The installation of a service from this storage goes through. */
  predicate GoesThrough(st: Storage, plugin: Plugin, outcomes: seq<Outcome>, i: nat)
    requires Linked(st) && i < |plugin.services| == |outcomes|
  {
    (outcomes[i].block.Some? || Usable(st, plugin, i)) && (outcomes[i].initOk ==> outcomes[i].putOk)
  }

  /** `done` services from the first on go through; the next one, if any, does not. */
  predicate InstalledUpTo(st: Storage, plugin: Plugin, outcomes: seq<Outcome>, done: nat)
    requires Linked(st) && |outcomes| == |plugin.services|
  {
    && done <= |outcomes|
    && (forall i :: 0 <= i < done ==> GoesThrough(st, plugin, outcomes, i))
    && (done < |outcomes| ==> !GoesThrough(st, plugin, outcomes, done))
  }

  /** A new plug-in anchor brings no usable service anchor. */
  lemma PushedUsable(st: Storage, plugin: Plugin, i: nat)
    requires Linked(st) && i < |plugin.services|
    ensures Linked(WithPluginAnchor(st, plugin.name))
    ensures Usable(WithPluginAnchor(st, plugin.name), plugin, i) == Usable(st, plugin, i)
  {
    var st' := WithPluginAnchor(st, plugin.name);
    if FindPlugin(st.plugins, plugin.name) == |st.plugins| {
      assert PluginMatches(st'.plugins[0], plugin.name) && FindPlugin(st'.plugins, plugin.name) == 0;
    }
  }

  lemma SameInstalledUpTo(st: Storage, plugin: Plugin, outcomes: seq<Outcome>, done: nat)
    requires Linked(st) && |outcomes| == |plugin.services| && Linked(WithPluginAnchor(st, plugin.name))
    requires InstalledUpTo(WithPluginAnchor(st, plugin.name), plugin, outcomes, done)
    ensures InstalledUpTo(st, plugin, outcomes, done)
  {
    var st' := WithPluginAnchor(st, plugin.name);
    forall i | 0 <= i < |outcomes|
      ensures GoesThrough(st', plugin, outcomes, i) == GoesThrough(st, plugin, outcomes, i)
    {
      PushedUsable(st, plugin, i);
    }
  }

  lemma OthersUsable(st: Storage, st': Storage, plugin: Plugin, i: nat)
    requires Linked(st) && Linked(st') && i < |plugin.services| && DescriptorOk(plugin)
    requires SameElsewhere(st, st', ServicePath(plugin, i))
    ensures forall j :: 0 <= j < |plugin.services| && j != i ==> Usable(st', plugin, j) == Usable(st, plugin, j)
  {
    forall j | 0 <= j < |plugin.services| && j != i ensures Usable(st', plugin, j) == Usable(st, plugin, j) {
      assert ServicePath(plugin, j) != ServicePath(plugin, i);
    }
  }

  class Server {
    var anchors: map<AnchorId, ServiceAnchor>
    var plugins: seq<PluginAnchor>
    var table: map<Path, AnchorId>

    ghost var pc: Control
    ghost var names: set<Name>
    ghost var installed: map<Path, Service>
    ghost var started: set<Path>
    ghost const origin: State
    ghost var acts: seq<Action>

    ghost function Abs(): State
      reads this
    {
      State(Storage(anchors, plugins, table), pc, names, installed, started)
    }

    ghost predicate Valid()
      reads this
    {
      Exec(origin, acts) == Some(Abs()) && Linked(Abs().st)
    }

    /** What the invariant says about the service being installed. */
    lemma Installation()
      requires Valid() && pc.Installing? && pc.i < |pc.plugin.services|
      ensures InstallingAt(Abs()) && pc.pa == FindPlugin(plugins, pc.plugin.name)
      ensures pc.phase.Updating? ==> pc.phase.id in anchors && pc.phase.writes < UPDATE_WRITES
      ensures pc.phase.Putting? ==> pc.phase.id in anchors
      ensures pc.phase.Activating? ==> pc.phase.id in anchors
      ensures pc.phase.Putting? || pc.phase.Activating? ==>
        anchors[pc.phase.id].path == ServicePath(pc.plugin, pc.i)
    {
      RunLinked(origin, acts);
      RunKeeps(origin, acts);
    }

    lemma DescriptorIsOk()
      requires Valid() && pc.Installing?
      ensures DescriptorOk(pc.plugin)
    {
      RunLinked(origin, acts);
      RunKeeps(origin, acts);
    }

    constructor (st: Storage)
      requires Linked(st) && TableSound(st)
      requires forall id :: id in st.anchors && st.anchors[id].active ==> Listed(st, id)
      ensures Valid() && Abs() == State(st, Down, {}, map[], {}) && acts == []
    {
      anchors, plugins, table := st.anchors, st.plugins, st.table;
      pc, names, installed, started := Down, {}, map[], {};
      origin := State(st, Down, {}, map[], {});
      acts := [];
    }

    /** The same for a step that installs a service; it does not disturb the others. */
    ghost method DidInstall(before: State, act: Action)
      requires Exec(origin, acts) == Some(before) && Linked(before.st) && Enabled(before, act)
      requires act.FindAnchor? || act.CreateAnchor? || act.WriteField? || act.TablePut? || act.Activate?
      requires Storage(anchors, plugins, table) == Apply(before, act).st
      modifies this`pc, this`names, this`installed, this`started, this`acts
      ensures Valid() && acts == old(acts) + [act] && Abs() == Apply(before, act)
      ensures InstallingAt(before) && SameElsewhere(before.st, Abs().st, CurrentPath(before))
    {
      RunLinked(origin, acts);
      RunKeeps(origin, acts);
      InstallStepElsewhere(before, act);
      Did(before, act);
    }

    /** initServer up to the deployment of plug-ins. */
    method InitServer()
      requires Valid() && pc == Down
      modifies this
      ensures Valid() && old(acts) <= acts && pc == Ready && names == {} && installed == map[] && started == {}
      ensures plugins == old(plugins) && table == old(table) && anchors.Keys == old(anchors).Keys
      ensures forall id :: id in anchors ==>
        anchors[id] ==
          if id in ListedIn(plugins) then old(anchors)[id].(active := false, serve := NULL_ROUTINE)
          else old(anchors)[id]
    {
      Did(Abs(), Start);
      CleanPlugins();
    }

    /** cleanupServer after the termination calls. */
    method CleanupServer()
      requires Valid() && pc == Ready
      modifies this
      ensures Valid() && old(acts) <= acts && pc == Down && installed == map[] && started == {}
      ensures plugins == old(plugins) && table == old(table) && anchors.Keys == old(anchors).Keys
      ensures forall id :: id in anchors ==>
        anchors[id] ==
          if id in ListedIn(plugins) then old(anchors)[id].(active := false, serve := NULL_ROUTINE)
          else old(anchors)[id]
    {
      Did(Abs(), Stop);
      CleanPlugins();
    }

    /** Records the action whose storage effect has just been written. */
    ghost method Did(before: State, act: Action)
      requires Exec(origin, acts) == Some(before) && Linked(before.st) && Enabled(before, act)
      requires Storage(anchors, plugins, table) == Apply(before, act).st
      modifies this`pc, this`names, this`installed, this`started, this`acts
      ensures Valid() && acts == old(acts) + [act] && Abs() == Apply(before, act)
    {
      var after := Apply(before, act);
      OneMoreStep(origin, acts, act);
      acts := acts + [act];
      pc, names, installed, started := after.pc, after.names, after.installed, after.started;
    }

    /** The body of cleanPluginAnchor's loop: the state bit first, the routine second. */
    method CleanServiceAnchor(p: nat, k: nat)
      requires Valid() && pc.Cleaning? && pc == Cleaning(p, k, false, pc.starting)
      requires p < |plugins| && k < |plugins[p].services|
      modifies this
      ensures Valid() && old(acts) <= acts && pc == Cleaning(p, k + 1, false, old(pc.starting))
      ensures plugins == old(plugins) && table == old(table) && names == old(names)
      ensures
        var id := plugins[p].services[k];
        id in old(anchors) && anchors == old(anchors)[id := Cleaned(old(anchors)[id])]
    {
      var id := plugins[p].services[k];
      ghost var before := Abs();
      anchors := anchors[id := anchors[id].(active := false)];
      Did(before, ClearState);
      before := Abs();
      anchors := anchors[id := anchors[id].(serve := NULL_ROUTINE)];
      Did(before, ClearServe);
    }

    /** cleanPluginAnchor. */
    method CleanPluginAnchor(p: nat)
      requires Valid() && pc.Cleaning? && pc == Cleaning(p, 0, false, pc.starting) && p < |plugins|
      modifies this
      ensures Valid() && old(acts) <= acts && pc == Cleaning(p + 1, 0, false, old(pc.starting))
      ensures plugins == old(plugins) && table == old(table) && names == old(names)
      ensures anchors == CleanedIds(old(anchors), plugins[p].services)
    {
      var k, ids := 0, plugins[p].services;
      while k < |ids|
        invariant k <= |ids| && plugins == old(plugins) && table == old(table) && names == old(names)
        invariant Valid() && old(acts) <= acts && pc == Cleaning(p, k, false, old(pc.starting))
        invariant anchors == CleanedIds(old(anchors), ids[..k])
      {
        CleanedIdsMore(old(anchors), ids, k);
        CleanServiceAnchor(p, k);
        k := k + 1;
      }
      assert ids[..k] == ids;
      Did(Abs(), NextPlugin);
    }

    /** cleanPlugins: every listed anchor ends inactive and without a routine, and nothing else changes. */
    method CleanPlugins()
      requires Valid() && pc.Cleaning? && pc == Cleaning(0, 0, false, pc.starting)
      modifies this
      ensures Valid() && old(acts) <= acts
      ensures pc == (if old(pc.starting) then Ready else Down)
      ensures installed == map[] && started == {} && names == old(names)
      ensures plugins == old(plugins) && table == old(table) && anchors.Keys == old(anchors).Keys
      ensures forall id :: id in anchors ==>
        anchors[id] ==
          if id in ListedIn(plugins) then old(anchors)[id].(active := false, serve := NULL_ROUTINE)
          else old(anchors)[id]
    {
      var p := 0;
      while p < |plugins|
        invariant 0 <= p <= |plugins| && plugins == old(plugins) && table == old(table)
        invariant Valid() && old(acts) <= acts && pc == Cleaning(p, 0, false, old(pc.starting)) && names == old(names)
        invariant anchors == CleanedLists(old(anchors), plugins[..p])
      {
        CleanPluginAnchor(p);
        p := p + 1;
        assert plugins[..p][..p - 1] == plugins[..p - 1];
      }
      assert plugins[..p] == plugins;
      CleanedListsMeaning(old(anchors), plugins);
      Did(Abs(), CleanDone);
    }

    /** Looks for the service's anchor; an incompatible one is discarded and then counts as missing. */
    method FindUsableAnchor(plugin: Plugin, pa: nat, i: nat) returns (found: bool, id: AnchorId)
      requires Valid() && i < |plugin.services| && pc == Installing(plugin, pa, i, Finding)
      modifies this
      ensures Valid() && old(acts) <= acts
      ensures pc == Installing(plugin, pa, i, if found then Updating(id, 0) else Creating)
      ensures
        var at := Lookup(old(Abs()).st, ServicePath(plugin, i));
        && (found <==> Usable(old(Abs()).st, plugin, i))
        && (found ==> at == Some(id) && anchors == old(anchors))
        && (!found && at.None? ==> anchors == old(anchors))
        && (!found && at.Some? ==>
             anchors == old(anchors)[at.value := old(anchors)[at.value].(discarded := true)])
      ensures plugins == old(plugins) && table == old(table)
      ensures started == old(started) && installed == old(installed) && names == old(names)
      ensures SameElsewhere(old(Abs()).st, Abs().st, ServicePath(plugin, i))
    {
      var service := plugin.services[i];
      Installation();
      var ids := plugins[pa].services;
      assert forall j :: j in ids ==> j in anchors;
      var at := FindServiceAnchor(anchors, ids, service.name);
      ghost var before := Abs();
      found, id := false, 0;
      if at < |ids| {
        id := ids[at];
        found := Compatible(service, anchors[id]);
        if !found {
          anchors := anchors[id := anchors[id].(discarded := true)];
        }
      }
      DidInstall(before, FindAnchor);
    }

    /** zisCreateServiceAnchor and the push onto the plug-in's list. */
    method Create(plugin: Plugin, pa: nat, i: nat, block: AnchorId)
      requires Valid() && i < |plugin.services| && pc == Installing(plugin, pa, i, Creating) && block !in anchors
      modifies this
      ensures Valid() && old(acts) <= acts && pc == Installing(plugin, pa, i, Initialising(block))
      ensures anchors == old(anchors)[block := CreatedAnchor(plugin.name, plugin.services[i])]
      ensures pa < |old(plugins)| &&
        plugins == old(plugins)[pa := old(plugins)[pa].(services := [block] + old(plugins)[pa].services)]
      ensures table == old(table) && started == old(started) && installed == old(installed) && names == old(names)
      ensures SameElsewhere(old(Abs()).st, Abs().st, ServicePath(plugin, i))
    {
      Installation();
      ghost var before := Abs();
      anchors := anchors[block := CreatedAnchor(plugin.name, plugin.services[i])];
      plugins := plugins[pa := plugins[pa].(services := [block] + plugins[pa].services)];
      DidInstall(before, CreateAnchor(block));
    }

    /** Makes the anchor of service i carry its descriptor: reuse, or discard and create, or create.  Fails if a
        new anchor is needed and there is no storage for it. */
    method PrepareAnchor(plugin: Plugin, pa: nat, i: nat, block: Option<AnchorId>) returns (id: Option<AnchorId>)
      requires Valid() && i < |plugin.services| && pc == Installing(plugin, pa, i, Finding)
      requires block.Some? ==> block.value !in anchors
      modifies this
      ensures Valid() && old(acts) <= acts
      ensures id.None? <==> block.None? && !Usable(old(Abs()).st, plugin, i)
      ensures id.None? ==> pc == Ready
      ensures id.Some? ==> pc == Installing(plugin, pa, i, Initialising(id.value))
      ensures id == block || id == Lookup(old(Abs()).st, ServicePath(plugin, i))
      ensures anchors.Keys <= old(anchors).Keys + (if block.Some? then {block.value} else {})
      ensures started == old(started) && installed == old(installed) && names == old(names) && table == old(table)
      ensures SameElsewhere(old(Abs()).st, Abs().st, ServicePath(plugin, i))
    {
      var found, at := FindUsableAnchor(plugin, pa, i);
      if found {
        id := Some(at);
        Update(plugin, pa, i, at);
      } else if block.Some? {
        id := block;
        Create(plugin, pa, i, block.value);
      } else {
        id := None;
        Installation();
        Did(Abs(), AllocFailed);
      }
    }

    /** One field write of zisUpdateServiceAnchor. */
    method WriteAnchorField(plugin: Plugin, pa: nat, i: nat, id: AnchorId, w: nat, a: ServiceAnchor)
      requires Valid() && i < |plugin.services| && w < UPDATE_WRITES && pc == Installing(plugin, pa, i, Updating(id, w))
      requires id in anchors ==> a == UpdateWrite(anchors[id], plugin.services[i], w)
      modifies this
      ensures Valid() && old(acts) <= acts
      ensures pc == Installing(plugin, pa, i, if w + 1 == UPDATE_WRITES then Initialising(id) else Updating(id, w + 1))
      ensures id in old(anchors) && anchors == old(anchors)[id := a]
      ensures plugins == old(plugins) && table == old(table)
      ensures started == old(started) && installed == old(installed) && names == old(names)
      ensures SameElsewhere(old(Abs()).st, Abs().st, ServicePath(plugin, i))
    {
      Installation();
      ghost var before := Abs();
      anchors := anchors[id := a];
      DidInstall(before, WriteField);
    }

    /** zisUpdateServiceAnchor. */
    method Update(plugin: Plugin, pa: nat, i: nat, id: AnchorId)
      requires Valid() && i < |plugin.services| && pc == Installing(plugin, pa, i, Updating(id, 0))
      modifies this
      ensures Valid() && old(acts) <= acts && pc == Installing(plugin, pa, i, Initialising(id))
      ensures id in old(anchors) && anchors == old(anchors)[id := UpdatedAnchor(old(anchors)[id], plugin.services[i])]
      ensures plugins == old(plugins) && table == old(table)
      ensures started == old(started) && installed == old(installed) && names == old(names)
      ensures SameElsewhere(old(Abs()).st, Abs().st, ServicePath(plugin, i))
    {
      var service := plugin.services[i];
      Installation();
      var a := anchors[id].(flags := service.flags);
      WriteAnchorField(plugin, pa, i, id, 0, a);
      a := a.(serve := service.serve);
      WriteAnchorField(plugin, pa, i, id, 1, a);
      a := a.(serviceVersion := service.serviceVersion);
      WriteAnchorField(plugin, pa, i, id, 2, a);
      UpdateSaf(plugin, pa, i, id);
    }

    /** The SAF names, copied only if the service wants the check and the anchor has room for them. */
    method UpdateSaf(plugin: Plugin, pa: nat, i: nat, id: AnchorId)
      requires Valid() && i < |plugin.services| && pc == Installing(plugin, pa, i, Updating(id, 3))
      modifies this
      ensures Valid() && old(acts) <= acts && pc == Installing(plugin, pa, i, Initialising(id))
      ensures id in old(anchors)
      ensures anchors ==
        old(anchors)[id := UpdateWrite(UpdateWrite(old(anchors)[id], plugin.services[i], 3), plugin.services[i], 4)]
      ensures plugins == old(plugins) && table == old(table)
      ensures started == old(started) && installed == old(installed) && names == old(names)
      ensures SameElsewhere(old(Abs()).st, Abs().st, ServicePath(plugin, i))
    {
      var service := plugin.services[i];
      Installation();
      var a := anchors[id];
      var saf := service.flags.specificAuth && a.version >= SERVICE_ANCHOR_VERSION_SAF_SUPPORT;
      a := if saf then a.(safClass := service.safClass) else a;
      WriteAnchorField(plugin, pa, i, id, 3, a);
      a := if saf then a.(safEntity := service.safEntity) else a;
      WriteAnchorField(plugin, pa, i, id, 4, a);
    }

    /** Puts the anchor into the table and then activates it. */
    method Publish(plugin: Plugin, pa: nat, i: nat, id: AnchorId, putOk: bool)
      requires Valid() && i < |plugin.services| && pc == Installing(plugin, pa, i, Putting(id))
      modifies this
      ensures Valid() && old(acts) <= acts && plugins == old(plugins)
      ensures installed == old(installed) && names == old(names)
      ensures !putOk ==>
        pc == Ready && started == old(started) && anchors == old(anchors) && table == old(table)
      ensures putOk ==>
        && pc == Installing(plugin, pa, i + 1, Finding) && started == old(started) + {ServicePath(plugin, i)}
        && table == old(table)[ServicePath(plugin, i) := id]
        && id in old(anchors) && anchors == old(anchors)[id := old(anchors)[id].(active := true)]
      ensures SameElsewhere(old(Abs()).st, Abs().st, ServicePath(plugin, i))
    {
      Installation();
      if putOk {
        PutIntoTable(plugin, pa, i, id);
        ghost var before := Abs();
        Installation();
        anchors := anchors[id := anchors[id].(active := true)];
        DidInstall(before, Activate);
      } else {
        Did(Abs(), TablePut(false));
      }
    }

    /** crossMemoryMapPut, or the replacement of the entry it finds. */
    method PutIntoTable(plugin: Plugin, pa: nat, i: nat, id: AnchorId)
      requires Valid() && i < |plugin.services| && pc == Installing(plugin, pa, i, Putting(id))
      modifies this
      ensures Valid() && old(acts) <= acts && pc == Installing(plugin, pa, i, Activating(id))
      ensures plugins == old(plugins) && anchors == old(anchors) && table == old(table)[ServicePath(plugin, i) := id]
      ensures installed == old(installed) && names == old(names) && started == old(started)
      ensures SameElsewhere(old(Abs()).st, Abs().st, ServicePath(plugin, i))
    {
      Installation();
      ghost var before := Abs();
      table := table[anchors[id].path := id];
      DidInstall(before, TablePut(true));
    }

    /** callServiceInit, seen from the server: it only reports whether the service may be published. */
    method InitService(plugin: Plugin, pa: nat, i: nat, id: AnchorId, ok: bool)
      requires Valid() && i < |plugin.services| && pc == Installing(plugin, pa, i, Initialising(id))
      modifies this
      ensures Valid() && old(acts) <= acts && anchors == old(anchors) && plugins == old(plugins) && table == old(table)
      ensures installed == old(installed) && names == old(names) && started == old(started)
      ensures pc == if ok then Installing(plugin, pa, i, Putting(id)) else Installing(plugin, pa, i + 1, Finding)
      ensures SameElsewhere(old(Abs()).st, Abs().st, ServicePath(plugin, i))
    {
      Installation();
      Did(Abs(), ServiceInited(ok));
    }

    /** One round of installServices; `go` says that the loop goes on. */
    method InstallService(plugin: Plugin, pa: nat, i: nat, o: Outcome) returns (go: bool)
      requires Valid() && i < |plugin.services| && pc == Installing(plugin, pa, i, Finding)
      requires o.block.Some? ==> o.block.value !in anchors
      modifies this
      ensures Valid() && old(acts) <= acts && installed == old(installed) && names == old(names)
      ensures go <==> (o.block.Some? || Usable(old(Abs()).st, plugin, i)) && (o.initOk ==> o.putOk)
      ensures pc == if go then Installing(plugin, pa, i + 1, Finding) else Ready
      ensures started == if go && o.initOk then old(started) + {ServicePath(plugin, i)} else old(started)
      ensures anchors.Keys <= old(anchors).Keys + (if o.block.Some? then {o.block.value} else {})
      ensures SameElsewhere(old(Abs()).st, Abs().st, ServicePath(plugin, i))
    {
      var id := PrepareAnchor(plugin, pa, i, o.block);
      if id.None? {
        return false;
      }
      InitService(plugin, pa, i, id.value, o.initOk);
      if !o.initOk {
        return true;
      }
      Publish(plugin, pa, i, id.value, o.putOk);
      go := o.putOk;
    }

    /** installServices: the services up to the first one that needs storage for its anchor and gets none, or whose
        table entry cannot be made; of these exactly the ones whose init succeeded get started. */
    method InstallServices(plugin: Plugin, pa: nat, outcomes: seq<Outcome>) returns (done: nat)
      requires Valid() && pc == Installing(plugin, pa, 0, Finding) && |outcomes| == |plugin.services|
      requires Allocatable(outcomes, anchors.Keys)
      modifies this
      ensures Valid() && old(acts) <= acts && pc == Ready && installed == old(installed) && names == old(names)
      ensures InstalledUpTo(old(Abs()).st, plugin, outcomes, done)
      ensures started == old(started) + StartedOf(plugin, outcomes, done)
    {
      DescriptorIsOk();
      ghost var first := Abs().st;
      done := 0;
      while done < |plugin.services|
        invariant 0 <= done <= |plugin.services|
        invariant Valid() && old(acts) <= acts && pc == Installing(plugin, pa, done, Finding)
        invariant installed == old(installed) && names == old(names)
        invariant forall j :: done <= j < |outcomes| && outcomes[j].block.Some? ==> outcomes[j].block.value !in anchors
        invariant forall j :: 0 <= j < done ==> GoesThrough(first, plugin, outcomes, j)
        invariant forall j :: done <= j < |outcomes| ==> Usable(Abs().st, plugin, j) == Usable(first, plugin, j)
        invariant started == old(started) + StartedOf(plugin, outcomes, done)
      {
        ghost var before := Abs().st;
        var go := InstallService(plugin, pa, done, outcomes[done]);
        if !go {
          return;
        }
        OthersUsable(before, Abs().st, plugin, done);
        done := done + 1;
      }
      Did(Abs(), InstallDone);
    }

    /** The beginning of installPlugin: the plug-in's anchor is found, or made and pushed. */
    method FindOrAddPluginAnchor(plugin: Plugin, anchorOk: bool) returns (pa: Option<nat>)
      requires Valid() && pc == Ready && plugin.name !in names
      modifies this
      ensures Valid() && old(acts) <= acts && anchors == old(anchors) && table == old(table)
      ensures names == old(names) && installed == old(installed) && started == old(started)
      ensures pa.Some? <==> anchorOk || FindPlugin(old(plugins), plugin.name) < |old(plugins)|
      ensures pa.None? ==> pc == Ready && plugins == old(plugins)
      ensures pa.Some? ==>
        && pc == Relocating(plugin, pa.value) && pa.value == FindPlugin(plugins, plugin.name)
        && plugins == (if FindPlugin(old(plugins), plugin.name) < |old(plugins)| then old(plugins)
                       else [PluginAnchor(PLUGIN_ANCHOR_VERSION, plugin.name, [])] + old(plugins))
    {
      ghost var before := Abs();
      var at := FindPluginAnchor(plugins, plugin.name);
      if at == |plugins| {
        if !anchorOk {
          return None;
        }
        plugins := [PluginAnchor(PLUGIN_ANCHOR_VERSION, plugin.name, [])] + plugins;
        at := 0;
      }
      Did(before, BeginInstall(plugin));
      pa := Some(at);
    }

    /** installPlugin: the plug-in's anchor, the LPA copy, the plug-in's init, and its services.  `copy` is the
        descriptor to go on with, if relocation succeeds. */
    method InstallPlugin(plugin: Plugin, anchorOk: bool, copy: Option<Plugin>, initOk: bool, outcomes: seq<Outcome>)
      returns (ok: bool, done: nat)
      requires Valid() && pc == Ready && plugin.name !in names
      requires copy.Some? ==> copy.value.name == plugin.name && DescriptorOk(copy.value)
      requires copy.Some? ==> |outcomes| == |copy.value.services| && Allocatable(outcomes, anchors.Keys)
      modifies this
      ensures Valid() && old(acts) <= acts && pc == Ready
      ensures
        var added := copy.Some? && (anchorOk || FindPlugin(old(plugins), plugin.name) < |old(plugins)|);
        && names == (if added then old(names) + {plugin.name} else old(names))
        && installed == (if added then old(installed) + Descriptors(copy.value) else old(installed))
        && (ok <==> added && initOk)
      ensures !ok ==> started == old(started)
      ensures ok ==>
        && InstalledUpTo(old(Abs()).st, copy.value, outcomes, done)
        && started == old(started) + StartedOf(copy.value, outcomes, done)
    {
      ok, done := false, 0;
      var pa := FindOrAddPluginAnchor(plugin, anchorOk);
      if pa.None? {
        return;
      }
      ok := TakeUpPlugin(plugin, pa.value, copy, initOk);
      if ok {
        done := InstallServices(copy.value, pa.value, outcomes);
        SameInstalledUpTo(old(Abs()).st, copy.value, outcomes, done);
      }
    }

    /** The middle of installPlugin: relocation, the server's own list, and the plug-in's init. */
    method TakeUpPlugin(plugin: Plugin, pa: nat, copy: Option<Plugin>, initOk: bool) returns (ok: bool)
      requires Valid() && pc == Relocating(plugin, pa)
      requires copy.Some? ==> copy.value.name == plugin.name && DescriptorOk(copy.value)
      modifies this
      ensures Valid() && old(acts) <= acts && anchors == old(anchors) && plugins == old(plugins) && table == old(table)
      ensures started == old(started)
      ensures names == if copy.Some? then old(names) + {plugin.name} else old(names)
      ensures installed == if copy.Some? then old(installed) + Descriptors(copy.value) else old(installed)
      ensures ok <==> copy.Some? && initOk
      ensures pc == if ok then Installing(copy.value, pa, 0, Finding) else Ready
    {
      ok := false;
      if copy.None? {
        Did(Abs(), RelocateFailed);
        return;
      }
      Did(Abs(), Relocated(copy.value));
      Did(Abs(), PluginInited(initOk));
      ok := initOk;
    }

    static ghost function StartedOf(plugin: Plugin, outcomes: seq<Outcome>, n: nat): set<Path>
      requires n <= |plugin.services| == |outcomes|
    {
      set i | 0 <= i < n && outcomes[i].initOk :: ServicePath(plugin, i)
    }
  }
}
