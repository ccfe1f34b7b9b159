/** From configuration to installed plug-ins: loading the parameters and the two deployment passes. */
module ZisDeploy {
  import opened Common
  import opened OrderedMap
  import opened ZisParm

  const RC_ZIS_ERROR: nat := 8

  const TEST_PARM: Parm := Entry("TEST_ZIS_PARM", "THIS VALUE MUST BE AVAILABLE IN ANY SERVICE")

  // ----- configuration

  /** Puts made from the JCL parameters alone. */
  function MainPuts(mainText: string): seq<Parm> {
    [TEST_PARM] + PieceEntries(Pieces(mainText))
  }

  /** The PARMLIB member named by the module and the MEM parameter, if its suffix has two characters. */
  function MemberName(mod: string, mainText: string): Option<string>
    requires |mod| >= 4
  {
    var suffix := match LastPut(MainPuts(mainText), "MEM") case None => "00" case Some(v) => v;
    if |suffix| == 2 then Some(mod[..4] + "IP" + suffix) else None
  }

  /** Which member is read: the module's first four characters, IP, and the last MEM parameter, or 00 without one;
      none if that suffix is not two characters long. */
  lemma MemberIsChosen(mod: string, mainText: string, name: string)
    requires |mod| >= 4
    ensures MemberName(mod, mainText) == Some(name) <==>
      && |name| == 8 && name[..4] == mod[..4] && name[4..6] == "IP"
      && match Value(PutAll([], MainPuts(mainText)), "MEM")
         case Some(v) => name[6..] == v
         case None => name[6..] == "00"
  {
    PutAllIsMap(MainPuts(mainText));
    var suffix := match LastPut(MainPuts(mainText), "MEM") case None => "00" case Some(v) => v;
    var whole := mod[..4] + "IP" + suffix;
    assert whole[..4] == mod[..4] && whole[4..6] == "IP" && whole[6..] == suffix;
    if |name| == 8 {
      assert name == name[..4] + name[4..6] + name[6..];
    }
  }

  /** Later layers win. */
  function Layered(layers: seq<seq<Parm>>, key: string): Option<string>
    decreases |layers|
  {
    if layers == [] then None
    else
      match LastPut(layers[|layers| - 1], key)
      case Some(v) => Some(v)
      case None => Layered(layers[..|layers| - 1], key)
  }

  lemma {:induction false} LastPutOfBoth(a: seq<Parm>, b: seq<Parm>, key: string)
    ensures LastPut(a + b, key) == match LastPut(b, key) case Some(v) => Some(v) case None => LastPut(a, key)
    decreases |b|
  {
    if b == [] {
      assert a + b == a;
    } else {
      LastPutOfBoth(a, b[..|b| - 1], key);
      assert (a + b)[..|a + b| - 1] == a + b[..|b| - 1];
    }
  }

  /** Every put made from the JCL parameters and then the records of the PARMLIB member. */
  function AllPuts(mainText: string, records: seq<string>): seq<Parm> {
    MainPuts(mainText) + ReadRecords([], records).puts
  }

  /** The configuration those puts make: every parameter has the value of the last writer among the built-in
      test parameter, the main parameters and the PARMLIB member, in that order. */
  lemma ConfigIsLayered(mainText: string, records: seq<string>, key: string)
    ensures Value(PutAll([], AllPuts(mainText, records)), key) ==
      Layered([[TEST_PARM], PieceEntries(Pieces(mainText)), ReadRecords([], records).puts], key)
  {
    PutAllIsMap(AllPuts(mainText, records));
    LastWriterWins([TEST_PARM], PieceEntries(Pieces(mainText)), ReadRecords([], records).puts, key);
  }

  /** zisReadParmlib, after the member has been read into memory. */
  method ReadParmlib(parms: ParmSet, records: seq<string>) returns (rc: nat)
    requires parms.Valid()
    modifies parms
    ensures parms.Valid() && parms.puts == old(parms.puts) + ReadRecords([], records).puts
    ensures rc == RC_OK <==> ReadRecords([], records).ok
  {
    var reader := new ParmReader(parms);
    assert reader.buffer[..reader.length] == [];
    rc := reader.ReadMember(records);
  }

  /** loadConfig: fails exactly when the member's suffix is not two characters long, the member is missing,
      or a continued parameter does not fit; otherwise holds all puts. */
  method LoadConfig(mainText: string, mod: string, library: map<string, seq<string>>) returns (rc: nat, parms: ParmSet)
    requires |mod| >= 4
    ensures fresh(parms) && parms.Valid()
    ensures
      var member := MemberName(mod, mainText);
      rc == RC_OK <==> member.Some? && member.value in library && ReadRecords([], library[member.value]).ok
    ensures rc == RC_OK ==> parms.puts == AllPuts(mainText, library[MemberName(mod, mainText).value])
  {
    parms := new ParmSet();
    parms.PutValue(TEST_PARM.key, TEST_PARM.value);
    ReadMainParms(parms, mainText);
    assert parms.puts == MainPuts(mainText);
    var mem := parms.GetValue("MEM");
    var suffix := if mem.Some? then mem.value else "00";
    if |suffix| != 2 {
      return RC_ZIS_ERROR, parms;
    }
    var member := mod[..4] + "IP" + suffix;
    if member !in library {
      return RC_ZIS_ERROR, parms;
    }
    var readRC := ReadParmlib(parms, library[member]);
    rc := if readRC == RC_OK then RC_OK else RC_ZIS_ERROR;
  }

  lemma LastWriterWins(a: seq<Parm>, b: seq<Parm>, c: seq<Parm>, key: string)
    ensures LastPut(a + b + c, key) == Layered([a, b, c], key)
  {
    LastPutOfBoth(a + b, c, key);
    LastPutOfBoth(a, b, key);
    assert [a, b, c][..2] == [a, b] && [a, b][..1] == [a] && [a][..0] == [];
    assert Layered([a], key) == LastPut(a, key);
    assert Layered([a, b], key) == match LastPut(b, key) case Some(v) => Some(v) case None => LastPut(a, key);
  }

  // ----- plug-in parameters

  const PLUGIN_PREFIX: string := "ZWES.PLUGIN."

  predicate IsPluginParm(e: Parm) {
    PLUGIN_PREFIX <= e.key
  }

  /** The parameter names the dynamic-linkage module, which goes first. */
  predicate IsDynlink(e: Parm, dynlink: string) {
    e.value == dynlink
  }

  /** What one pass over the parameters attempts. */
  function Pass(entries: seq<Parm>, dynlink: string, looking: bool): seq<Parm>
    decreases |entries|
  {
    if entries == [] then []
    else
      var e := entries[|entries| - 1];
      Pass(entries[..|entries| - 1], dynlink, looking) +
      (if IsPluginParm(e) && IsDynlink(e, dynlink) == looking then [e] else [])
  }

  function Attempts(entries: seq<Parm>, dynlink: string): seq<Parm> {
    Pass(entries, dynlink, true) + Pass(entries, dynlink, false)
  }

  /** Where the i-th parameter, a plug-in parameter, is attempted. */
  function Turn(entries: seq<Parm>, dynlink: string, i: nat): nat
    requires i < |entries|
  {
    if IsDynlink(entries[i], dynlink) then |Pass(entries[..i], dynlink, true)|
    else |Pass(entries, dynlink, true)| + |Pass(entries[..i], dynlink, false)|
  }

  lemma {:induction false} TurnInPass(entries: seq<Parm>, dynlink: string, i: nat)
    requires i < |entries| && IsPluginParm(entries[i])
    ensures
      var looking := IsDynlink(entries[i], dynlink);
      var at := |Pass(entries[..i], dynlink, looking)|;
      at < |Pass(entries, dynlink, looking)| && Pass(entries, dynlink, looking)[at] == entries[i]
    decreases |entries|
  {
    if i < |entries| - 1 {
      TurnInPass(entries[..|entries| - 1], dynlink, i);
      assert entries[..|entries| - 1][..i] == entries[..i];
    }
  }

  lemma {:induction false} PassGrows(entries: seq<Parm>, dynlink: string, looking: bool, i: nat, j: nat)
    requires i <= j <= |entries|
    ensures |Pass(entries[..i], dynlink, looking)| <= |Pass(entries[..j], dynlink, looking)|
    ensures i < j && IsPluginParm(entries[i]) && IsDynlink(entries[i], dynlink) == looking ==>
      |Pass(entries[..i], dynlink, looking)| < |Pass(entries[..j], dynlink, looking)|
    decreases j
  {
    if i < j {
      PassGrows(entries, dynlink, looking, i, j - 1);
      assert entries[..j][..j - 1] == entries[..j - 1];
    }
  }

  /** Every plug-in parameter has its turn. */
  lemma AttemptedAtTurn(entries: seq<Parm>, dynlink: string, i: nat)
    requires i < |entries| && IsPluginParm(entries[i])
    ensures Turn(entries, dynlink, i) < |Attempts(entries, dynlink)|
    ensures Attempts(entries, dynlink)[Turn(entries, dynlink, i)] == entries[i]
  {
    TurnInPass(entries, dynlink, i);
  }

  /** Turns are a stable partition: the dynamic-linkage module first, parameter order within each part. */
  lemma TurnsAreStable(entries: seq<Parm>, dynlink: string, i: nat, j: nat)
    requires i < |entries| && j < |entries| && i != j && IsPluginParm(entries[i]) && IsPluginParm(entries[j])
    ensures Turn(entries, dynlink, i) < Turn(entries, dynlink, j) <==>
      if entries[i].value == dynlink then i < j || entries[j].value != dynlink
      else i < j && entries[j].value != dynlink
  {
    TurnInPass(entries, dynlink, i);
    TurnInPass(entries, dynlink, j);
    var lo, hi := if i < j then i else j, if i < j then j else i;
    PassGrows(entries, dynlink, IsDynlink(entries[lo], dynlink), lo, hi);
  }

  /** Nothing else is attempted, and nothing twice. */
  lemma {:induction false} AttemptsArePluginParms(entries: seq<Parm>, dynlink: string)
    ensures multiset(Attempts(entries, dynlink)) == multiset(PluginParms(entries))
    decreases |entries|
  {
    if entries != [] {
      var before := entries[..|entries| - 1];
      AttemptsArePluginParms(before, dynlink);
      assert multiset(Attempts(before, dynlink)) ==
        multiset(Pass(before, dynlink, true)) + multiset(Pass(before, dynlink, false));
    }
  }

  /** Every plug-in parameter is attempted as often as it occurs, and nothing else is. */
  lemma {:induction false} AttemptCounts(entries: seq<Parm>, dynlink: string, e: Parm)
    ensures multiset(Attempts(entries, dynlink))[e] == if "ZWES.PLUGIN." <= e.key then multiset(entries)[e] else 0
  {
    AttemptsArePluginParms(entries, dynlink);
    PluginParmCounts(entries, e);
  }

  lemma {:induction false} PluginParmCounts(entries: seq<Parm>, e: Parm)
    ensures multiset(PluginParms(entries))[e] == if IsPluginParm(e) then multiset(entries)[e] else 0
    decreases |entries|
  {
    if entries != [] {
      PluginParmCounts(entries[..|entries| - 1], e);
      assert entries == entries[..|entries| - 1] + [entries[|entries| - 1]];
    }
  }

  function PluginParms(entries: seq<Parm>): seq<Parm>
    decreases |entries|
  {
    if entries == [] then []
    else
      var e := entries[|entries| - 1];
      PluginParms(entries[..|entries| - 1]) + (if IsPluginParm(e) then [e] else [])
  }

  // ----- descriptors

  const PLUGIN_VERSION: int := 1
  const SERVICE_VERSION: int := 2
  const MODULE_NAME_SIZE: nat := 8

  datatype ServiceHeader = ServiceHeader(eyecatcherOk: bool, version: int)

  datatype Descriptor = Descriptor(
    eyecatcherOk: bool,
    version: int,
    maxServiceCount: nat,
    services: seq<ServiceHeader>,
    name: string,
    nickname: string)

  /** isPluginValid.  The test of each service ends its own loop only, so no service makes a plug-in invalid. */
  method IsPluginValid(d: Descriptor) returns (valid: bool)
    ensures valid <==> d.eyecatcherOk && d.version <= PLUGIN_VERSION && |d.services| <= d.maxServiceCount
  {
    valid := false;
    if !d.eyecatcherOk {
      return;
    }
    if d.version > PLUGIN_VERSION {
      return;
    }
    if |d.services| > d.maxServiceCount {
      return;
    }
    var i := 0;
    while i < |d.services| {
      if !d.services[i].eyecatcherOk || d.services[i].version > SERVICE_VERSION {
        break;
      }
      i := i + 1;
    }
    valid := true;
  }

  /** A plug-in whose only service has a bad eyecatcher and a version from the future is accepted. */
  lemma BadServiceIsAccepted()
    ensures
      var d := Descriptor(true, PLUGIN_VERSION, 1, [ServiceHeader(false, SERVICE_VERSION + 1)], "PLUGIN", "PLUG");
      Valid(d) && forall i :: 0 <= i < |d.services| ==>
        !d.services[i].eyecatcherOk && d.services[i].version > SERVICE_VERSION
  {
  }

  predicate Unique(plugins: seq<Descriptor>) {
    forall i, j :: 0 <= i < j < |plugins| ==>
      plugins[i].name != plugins[j].name && plugins[i].nickname != plugins[j].nickname
  }

  /** What loading a module gives: its descriptor, and the descriptor its LPA copy would return instead,
      if relocation (or the absence of a need for it) succeeds. */
  datatype Loaded = Loaded(descriptor: Descriptor, relocated: Option<Descriptor>)

  /** A relocated copy is the same plug-in. */
  ghost predicate FaithfulCopies(modules: map<string, Loaded>) {
    forall m :: m in modules && modules[m].relocated.Some? ==>
      && modules[m].relocated.value.name == modules[m].descriptor.name
      && modules[m].relocated.value.nickname == modules[m].descriptor.nickname
  }

  predicate Duplicate(plugins: seq<Descriptor>, d: Descriptor) {
    exists i :: 0 <= i < |plugins| && (plugins[i].name == d.name || plugins[i].nickname == d.nickname)
  }

  predicate Valid(d: Descriptor) {
    d.eyecatcherOk && d.version <= PLUGIN_VERSION && |d.services| <= d.maxServiceCount
  }

  /** The plug-in list, newest first, after one attempted parameter. */
  function InstallOne(plugins: seq<Descriptor>, e: Parm, modules: map<string, Loaded>): seq<Descriptor> {
    if |e.value| <= MODULE_NAME_SIZE && e.value in modules
       && var m := modules[e.value];
          Valid(m.descriptor) && !Duplicate(plugins, m.descriptor) && m.relocated.Some?
    then [modules[e.value].relocated.value] + plugins
    else plugins
  }

  function InstallAll(plugins: seq<Descriptor>, attempts: seq<Parm>, modules: map<string, Loaded>): seq<Descriptor>
    decreases |attempts|
  {
    if attempts == [] then plugins
    else InstallOne(InstallAll(plugins, attempts[..|attempts| - 1], modules), attempts[|attempts| - 1], modules)
  }

  lemma {:induction false} InstallMore(
    plugins: seq<Descriptor>, a: seq<Parm>, b: seq<Parm>, modules: map<string, Loaded>)
    ensures InstallAll(plugins, a + b, modules) == InstallAll(InstallAll(plugins, a, modules), b, modules)
    decreases |b|
  {
    if b == [] {
      assert a + b == a;
    } else {
      InstallMore(plugins, a, b[..|b| - 1], modules);
      assert (a + b)[..|a + b| - 1] == a + b[..|b| - 1];
    }
  }

  /** Whatever is attempted, installed plug-ins have pairwise distinct names and nicknames. */
  lemma {:induction false} InstalledAreUnique(attempts: seq<Parm>, modules: map<string, Loaded>)
    requires FaithfulCopies(modules)
    ensures Unique(InstallAll([], attempts, modules))
    decreases |attempts|
  {
    if attempts != [] {
      InstalledAreUnique(attempts[..|attempts| - 1], modules);
    }
  }

  /** The parameter names a module that can be loaded, has a valid header and can be relocated if it must be. */
  predicate Installable(e: Parm, modules: map<string, Loaded>) {
    && |e.value| <= 8 && e.value in modules && modules[e.value].relocated.Some?
    && var d := modules[e.value].descriptor;
       d.eyecatcherOk && d.version <= 1 && |d.services| <= d.maxServiceCount
  }

  predicate SharesName(e: Parm, d: Descriptor, modules: map<string, Loaded>)
    requires Installable(e, modules)
  {
    modules[e.value].descriptor.name == d.name || modules[e.value].descriptor.nickname == d.nickname
  }

  /** One attempt: an installable plug-in is put in front unless it shares its name or nickname with one that is
      already there; nothing else is installed, and nothing is taken away. */
  lemma OneAttempt(plugins: seq<Descriptor>, e: Parm, modules: map<string, Loaded>)
    ensures InstallOne(plugins, e, modules) ==
      if Installable(e, modules) && forall d :: d in plugins ==> !SharesName(e, d, modules)
      then [modules[e.value].relocated.value] + plugins
      else plugins
  {
    if Installable(e, modules) {
      var d := modules[e.value].descriptor;
      if Duplicate(plugins, d) {
        var i :| 0 <= i < |plugins| && (plugins[i].name == d.name || plugins[i].nickname == d.nickname);
        assert plugins[i] in plugins;
      }
    }
  }

  /** Everything installed is the relocated copy of an installable plug-in that was attempted. */
  lemma {:induction false} InstalledWereAttempted(attempts: seq<Parm>, modules: map<string, Loaded>, d: Descriptor)
    requires d in InstallAll([], attempts, modules)
    ensures exists n :: (0 <= n < |attempts| && Installable(attempts[n], modules)
                         && modules[attempts[n].value].relocated.value == d)
    decreases |attempts|
  {
    var last := |attempts| - 1;
    OneAttempt(InstallAll([], attempts[..last], modules), attempts[last], modules);
    if d in InstallAll([], attempts[..last], modules) {
      InstalledWereAttempted(attempts[..last], modules, d);
      var n :| 0 <= n < last && Installable(attempts[..last][n], modules)
        && modules[attempts[..last][n].value].relocated.value == d;
      assert attempts[n] == attempts[..last][n];
    }
  }

  /** An installable plug-in ends up installed unless an installable one attempted before shares its name or
      nickname. */
  lemma {:induction false} FirstComeFirstServed(attempts: seq<Parm>, modules: map<string, Loaded>, n: nat)
    requires FaithfulCopies(modules) && n < |attempts| && Installable(attempts[n], modules)
    requires forall k :: 0 <= k < n && Installable(attempts[k], modules) ==>
      !SharesName(attempts[k], modules[attempts[n].value].descriptor, modules)
    ensures modules[attempts[n].value].relocated.value in InstallAll([], attempts, modules)
    decreases |attempts|
  {
    var last := |attempts| - 1;
    var before, copy := InstallAll([], attempts[..last], modules), modules[attempts[n].value].relocated.value;
    OneAttempt(before, attempts[last], modules);
    if n < last {
      assert forall k :: 0 <= k < last ==> attempts[..last][k] == attempts[k];
      FirstComeFirstServed(attempts[..last], modules, n);
    } else {
      forall d | d in before ensures !SharesName(attempts[n], d, modules) {
        InstalledWereAttempted(attempts[..last], modules, d);
        var k :| 0 <= k < last && Installable(attempts[..last][k], modules)
          && modules[attempts[..last][k].value].relocated.value == d;
        assert attempts[k] == attempts[..last][k];
        assert !SharesName(attempts[k], modules[attempts[n].value].descriptor, modules);
      }
    }
  }

  /** The server context: its plug-ins, newest first.  `attempted` records every parameter acted upon. */
  class Context {
    var plugins: seq<Descriptor>
    const dynlink: string
    ghost var attempted: seq<Parm>

    constructor (dynlink: string)
      ensures plugins == [] && attempted == [] && this.dynlink == dynlink
    {
      plugins, attempted := [], [];
      this.dynlink := dynlink;
    }

    /** getPluginByName and getPluginByNickname, as isDuplicatePlugin uses them. */
    method IsDuplicate(d: Descriptor) returns (duplicate: bool)
      ensures duplicate <==> Duplicate(plugins, d)
    {
      duplicate := false;
      var i := 0;
      while i < |plugins|
        invariant i <= |plugins|
        invariant !duplicate
        invariant forall j :: 0 <= j < i ==> plugins[j].name != d.name && plugins[j].nickname != d.nickname
      {
        if plugins[i].name == d.name || plugins[i].nickname == d.nickname {
          return true;
        }
        i := i + 1;
      }
    }

    /** visitPluginParm. */
    method VisitPluginParm(e: Parm, looking: bool, modules: map<string, Loaded>)
      modifies this
      ensures
        var now := if IsPluginParm(e) && IsDynlink(e, dynlink) == looking then [e] else [];
        attempted == old(attempted) + now && plugins == InstallAll(old(plugins), now, modules)
    {
      if !IsPluginParm(e) {
        return;
      }
      if looking != (e.value == dynlink) {
        return;
      }
      attempted := attempted + [e];
      assert [e][..0] == [];
      assert InstallAll(plugins, [e], modules) == InstallOne(plugins, e, modules);
      if |e.value| > MODULE_NAME_SIZE {
        return;
      }
      if e.value !in modules {
        return;
      }
      var d := modules[e.value].descriptor;
      var valid := IsPluginValid(d);
      if !valid {
        return;
      }
      var duplicate := IsDuplicate(d);
      if duplicate {
        return;
      }
      if modules[e.value].relocated.Some? {
        plugins := [modules[e.value].relocated.value] + plugins;
      }
    }

    /** zisIterateParms with visitPluginParm. */
    method IterateParms(entries: seq<Parm>, looking: bool, modules: map<string, Loaded>)
      modifies this
      ensures attempted == old(attempted) + Pass(entries, dynlink, looking)
      ensures plugins == InstallAll(old(plugins), Pass(entries, dynlink, looking), modules)
    {
      var i := 0;
      while i < |entries|
        invariant i <= |entries|
        invariant attempted == old(attempted) + Pass(entries[..i], dynlink, looking)
        invariant plugins == InstallAll(old(plugins), Pass(entries[..i], dynlink, looking), modules)
      {
        var e := entries[i];
        InstallMore(old(plugins), Pass(entries[..i], dynlink, looking),
                    if IsPluginParm(e) && IsDynlink(e, dynlink) == looking then [e] else [], modules);
        VisitPluginParm(e, looking, modules);
        i := i + 1;
        assert entries[..i][..i - 1] == entries[..i - 1];
      }
      assert entries[..i] == entries;
    }

    /** deployPlugins: both passes together attempt the stable partition of the plug-in parameters. */
    method DeployPlugins(parms: ParmSet, modules: map<string, Loaded>)
      requires plugins == [] && attempted == []
      modifies this
      ensures attempted == Attempts(parms.entries, dynlink)
      ensures plugins == InstallAll([], Attempts(parms.entries, dynlink), modules)
      ensures FaithfulCopies(modules) ==> Unique(plugins)
    {
      IterateParms(parms.entries, true, modules);
      IterateParms(parms.entries, false, modules);
      InstallMore([], Pass(parms.entries, dynlink, true), Pass(parms.entries, dynlink, false), modules);
      assert attempted == Attempts(parms.entries, dynlink);
      if FaithfulCopies(modules) {
        InstalledAreUnique(attempted, modules);
      }
    }
  }
}
