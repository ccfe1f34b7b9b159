/** Common storage of the cross-memory server: service and plug-in anchors, the
    lists that hold them, and the path-to-anchor table the router reads.

    Anchors are C structs reached by address.  Here an address is an `AnchorId`
    and the struct is the value stored under it, so a field write is a map update
    and two names for one address stay two names for one anchor. */
module ZisStorage {
  import opened Common

  type Name = string
  type AnchorId = nat

  /** Address of a serve routine; 0 is the null pointer. */
  type Routine = nat

  const NULL_ROUTINE: Routine := 0

  /** A flag word: bit 0 (space switch), bit 1 (specific authorisation) and whatever the other bits
      hold.  Descriptors and anchors give the two bits the same positions (h/zis/service.h). */
  datatype Flags = Flags(spaceSwitch: bool, specificAuth: bool, others: nat)

  const SERVICE_ANCHOR_VERSION: int := 2
  const SERVICE_ANCHOR_VERSION_SAF_SUPPORT: int := 2
  const PLUGIN_ANCHOR_VERSION: int := 1

  datatype Path = Path(plugin: Name, service: Name)

  /** A service descriptor, as a plug-in module supplies it. */
  datatype Service = Service(
    name: Name,
    flags: Flags,
    serve: Routine,
    serviceVersion: nat,
    safClass: string,
    safEntity: string)

  /** A plug-in descriptor. */
  datatype Plugin = Plugin(name: Name, services: seq<Service>)

  datatype ServiceAnchor = ServiceAnchor(
    version: int,
    flags: Flags,
    active: bool,
    discarded: bool,
    path: Path,
    serviceVersion: nat,
    serve: Routine,
    safClass: string,
    safEntity: string)

  /** `services` is the anchor's linked list, front first. */
  datatype PluginAnchor = PluginAnchor(version: int, name: Name, services: seq<AnchorId>)

  datatype Storage = Storage(
    anchors: map<AnchorId, ServiceAnchor>,
    plugins: seq<PluginAnchor>,
    table: map<Path, AnchorId>)

  // ----- lookups through the lists

  predicate PluginMatches(anchor: PluginAnchor, name: Name) {
    anchor.name == name && anchor.version <= PLUGIN_ANCHOR_VERSION
  }

  predicate ServiceMatches(anchor: ServiceAnchor, name: Name) {
    && anchor.path.service == name
    && anchor.version <= SERVICE_ANCHOR_VERSION
    && !anchor.discarded
  }

  /** Every address in a plug-in's list is allocated and belongs to that plug-in. */
  predicate Linked(st: Storage) {
    forall p, k :: 0 <= p < |st.plugins| && 0 <= k < |st.plugins[p].services| ==>
      && st.plugins[p].services[k] in st.anchors
      && st.anchors[st.plugins[p].services[k]].path.plugin == st.plugins[p].name
  }

  /** Position of the first plug-in anchor with this name, or the list's length. */
  function FindPlugin(plugins: seq<PluginAnchor>, name: Name): (r: nat)
    ensures r <= |plugins|
    ensures r < |plugins| ==> PluginMatches(plugins[r], name)
    ensures forall j :: 0 <= j < r ==> !PluginMatches(plugins[j], name)
  {
    if plugins == [] || PluginMatches(plugins[0], name) then 0
    else 1 + FindPlugin(plugins[1..], name)
  }

  /** Position of the first usable service anchor with this name, or the list's length. */
  function FindService(anchors: map<AnchorId, ServiceAnchor>, ids: seq<AnchorId>, name: Name): (r: nat)
    requires forall id :: id in ids ==> id in anchors
    ensures r <= |ids|
    ensures r < |ids| ==> ServiceMatches(anchors[ids[r]], name)
    ensures forall j :: 0 <= j < r ==> !ServiceMatches(anchors[ids[j]], name)
  {
    if ids == [] || ServiceMatches(anchors[ids[0]], name) then 0
    else 1 + FindService(anchors, ids[1..], name)
  }

  /** What searching the plug-in list and then the service list finds for a path. */
  function Lookup(st: Storage, path: Path): (r: Option<AnchorId>)
    requires Linked(st)
    ensures r.Some? ==> r.value in st.anchors && st.anchors[r.value].path == path
  {
    var p := FindPlugin(st.plugins, path.plugin);
    if p == |st.plugins| then None
    else
      var ids := st.plugins[p].services;
      assert forall id :: id in ids ==> id in st.anchors;
      var k := FindService(st.anchors, ids, path.service);
      if k == |ids| then None else Some(ids[k])
  }

  /** What the searches find is usable: neither structure is newer than the server knows, and the service anchor has
      not been discarded. */
  lemma FoundIsUsable(st: Storage, path: Path)
    requires Linked(st) && Lookup(st, path).Some?
    ensures
      var a := st.anchors[Lookup(st, path).value];
      a.path == path && a.version <= 2 && !a.discarded
    ensures exists p :: (0 <= p < |st.plugins| && st.plugins[p].name == path.plugin && st.plugins[p].version <= 1
                         && Lookup(st, path).value in st.plugins[p].services)
  {
    var p := FindPlugin(st.plugins, path.plugin);
    assert Lookup(st, path).value in st.plugins[p].services;
  }

  predicate Listed(st: Storage, id: AnchorId) {
    exists p, k :: 0 <= p < |st.plugins| && 0 <= k < |st.plugins[p].services| && st.plugins[p].services[k] == id
  }

  /** The table points only at listed anchors, each under its own path. */
  predicate TableSound(st: Storage) {
    forall path :: path in st.table ==>
      && st.table[path] in st.anchors
      && st.anchors[st.table[path]].path == path
      && Listed(st, st.table[path])
  }

  // ----- anchors built from descriptors

  predicate Compatible(d: Service, a: ServiceAnchor) {
    d.flags.specificAuth ==> a.version >= SERVICE_ANCHOR_VERSION_SAF_SUPPORT
  }

  /** The fresh anchor's flags: the two known bits, translated one by one. */
  function TranslatedFlags(flags: Flags): Flags {
    Flags(flags.spaceSwitch, flags.specificAuth, 0)
  }

  function CreatedAnchor(plugin: Name, d: Service): ServiceAnchor {
    ServiceAnchor(SERVICE_ANCHOR_VERSION, TranslatedFlags(d.flags), false, false, Path(plugin, d.name),
                  d.serviceVersion, d.serve, d.safClass, d.safEntity)
  }

  /** The number of field writes an update makes. */
  const UPDATE_WRITES: nat := 5

  /** The w-th field write of an update; the SAF names are copied only when asked for and supported. */
  function UpdateWrite(a: ServiceAnchor, d: Service, w: nat): ServiceAnchor
    requires w < UPDATE_WRITES
  {
    var saf := d.flags.specificAuth && a.version >= SERVICE_ANCHOR_VERSION_SAF_SUPPORT;
    match w
    case 0 => a.(flags := d.flags)
    case 1 => a.(serve := d.serve)
    case 2 => a.(serviceVersion := d.serviceVersion)
    case 3 => if saf then a.(safClass := d.safClass) else a
    case 4 => if saf then a.(safEntity := d.safEntity) else a
  }

  /** zisUpdateServiceAnchor run to its end. */
  function UpdatedAnchor(a: ServiceAnchor, d: Service): ServiceAnchor {
    var a1 := UpdateWrite(a, d, 0);
    var a2 := UpdateWrite(a1, d, 1);
    var a3 := UpdateWrite(a2, d, 2);
    var a4 := UpdateWrite(a3, d, 3);
    UpdateWrite(a4, d, 4)
  }

  /** The first w field writes of an update have been made. */
  predicate WrittenUpTo(a: ServiceAnchor, d: Service, w: nat) {
    && (w > 0 ==> a.flags == d.flags)
    && (w > 1 ==> a.serve == d.serve)
    && (w > 2 ==> a.serviceVersion == d.serviceVersion)
    && (w > 3 && d.flags.specificAuth ==> a.safClass == d.safClass)
    && (w > 4 && d.flags.specificAuth ==> a.safEntity == d.safEntity)
  }

  /** The part of an anchor that a router or a client ever looks at agrees with the descriptor. */
  predicate Matches(a: ServiceAnchor, d: Service) {
    && a.flags.spaceSwitch == d.flags.spaceSwitch
    && a.flags.specificAuth == d.flags.specificAuth
    && a.serve == d.serve
    && a.serviceVersion == d.serviceVersion
    && (d.flags.specificAuth ==> a.safClass == d.safClass && a.safEntity == d.safEntity)
  }

  /** A fresh anchor shows its descriptor, is found under its own path and can be used again by the same service;
      it is not active yet. */
  lemma CreatedMatches(plugin: Name, d: Service)
    ensures Matches(CreatedAnchor(plugin, d), d)
    ensures
      var a := CreatedAnchor(plugin, d);
      a.path == Path(plugin, d.name) && ServiceMatches(a, d.name) && Compatible(d, a) && !a.active
  {
  }

  /** Flag bits without a meaning: a new anchor drops them, an update copies them. */
  lemma UnknownFlagBits(plugin: Name, a: ServiceAnchor, d: Service)
    ensures CreatedAnchor(plugin, d).flags.others == 0 && UpdatedAnchor(a, d).flags == d.flags
    ensures
      var u := UpdatedAnchor(a, d);
      u.path == a.path && u.version == a.version && u.active == a.active && u.discarded == a.discarded
  {
  }

  // ----- the router

  const RC_BAD_EYECATCHER: nat := 12
  const RC_BAD_ROUTER_VERSION: nat := 13
  const RC_SERVICE_NOT_FOUND: nat := 14
  const RC_BAD_SERVICE_VERSION: nat := 15
  const RC_SERVICE_INACTIVE: nat := 16
  const RC_SPECIFIC_AUTH_FAILED: nat := 17

  const ROUTER_VERSION: nat := 1
  const ANY_VERSION: nat := 0xFFFF_FFFF

  datatype RouterParm = RouterParm(eyecatcherOk: bool, version: nat, path: Path, serviceVersion: nat)

  datatype Routed = Refused(rc: nat) | Invoked(serve: Routine)

  type AuthCheck = (string, string) -> bool

  predicate HeaderOk(parm: RouterParm) {
    parm.eyecatcherOk && parm.version <= ROUTER_VERSION
  }

  predicate VersionOk(parm: RouterParm, serviceVersion: nat) {
    parm.serviceVersion <= serviceVersion || parm.serviceVersion == ANY_VERSION
  }

  predicate Authorised(d: Service, auth: AuthCheck) {
    d.flags.specificAuth ==> auth(d.safClass, d.safEntity)
  }

  /** The router's decision once the table has produced an anchor. */
  function RouteTo(a: ServiceAnchor, parm: RouterParm, auth: AuthCheck): Routed {
    if parm.serviceVersion > a.serviceVersion && parm.serviceVersion != ANY_VERSION then
      Refused(RC_BAD_SERVICE_VERSION)
    else if !a.active then
      Refused(RC_SERVICE_INACTIVE)
    else if a.flags.specificAuth && !auth(a.safClass, a.safEntity) then
      Refused(RC_SPECIFIC_AUTH_FAILED)
    else
      Invoked(a.serve)
  }

  function Route(st: Storage, parm: RouterParm, auth: AuthCheck): Routed
    requires TableSound(st)
  {
    if !parm.eyecatcherOk then Refused(RC_BAD_EYECATCHER)
    else if parm.version > ROUTER_VERSION then Refused(RC_BAD_ROUTER_VERSION)
    else if parm.path !in st.table then Refused(RC_SERVICE_NOT_FOUND)
    else RouteTo(st.anchors[st.table[parm.path]], parm, auth)
  }

  // ----- reusing an old anchor against making a new one

  /** No router call and no client can tell the two anchors apart. */
  ghost predicate Indistinguishable(a: ServiceAnchor, b: ServiceAnchor) {
    && a.flags.spaceSwitch == b.flags.spaceSwitch
    && forall parm: RouterParm, auth: AuthCheck :: RouteTo(a, parm, auth) == RouteTo(b, parm, auth)
  }

  /** Updating an old anchor gives the same service as creating a new one exactly when the
      installer's compatibility test passes, or the stale SAF names happen to be the wanted ones. */
  lemma ReuseIsFreshInstall(a: ServiceAnchor, d: Service)
    ensures
      Indistinguishable(UpdatedAnchor(a, d).(active := true),
                        CreatedAnchor(a.path.plugin, d).(active := true))
      <==> Compatible(d, a) || (a.safClass == d.safClass && a.safEntity == d.safEntity)
  {
    var u := UpdatedAnchor(a, d).(active := true);
    var c := CreatedAnchor(a.path.plugin, d).(active := true);
    CreatedMatches(a.path.plugin, d);
    if !Compatible(d, a) && !(a.safClass == d.safClass && a.safEntity == d.safEntity) {
      var parm := RouterParm(true, ROUTER_VERSION, a.path, ANY_VERSION);
      var auth: AuthCheck := (cls, entity) => cls == d.safClass && entity == d.safEntity;
      assert auth(c.safClass, c.safEntity) && !auth(u.safClass, u.safEntity);
      assert RouteTo(u, parm, auth) != RouteTo(c, parm, auth);
    }
  }
}
