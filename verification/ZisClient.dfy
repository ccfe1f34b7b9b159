/** The client side of a service call: from the caller's status block, through the cross-memory call,
    to the router and back. */
module ZisClient {
  import opened Common
  import opened ZisStorage
  import opened ZisLifecycle
  import opened ZisLifecycleProofs

  const RC_OK: int := 0
  const RC_STATUS_NULL: int := 2
  const RC_SERVICE_FAILED: int := 4
  const RC_CMS_FAILED: int := 8
  const RC_GLOBAL_AREA_NULL: int := 9
  const RC_SERVER_ANCHOR_NULL: int := 10
  const RC_SERVICE_TABLE_NULL: int := 11

  const ROUTER_SPACE_SWITCH: nat := 64
  const ROUTER_CURRENT_PRIMARY: nat := 65

  /** What the client finds when it looks for the server. */
  datatype View =
    | NoGlobalArea
    | NotReady(notReadyRC: int)
    | NoServerAnchor
    | NoServiceTable
    | Serving(st: Storage)

  /** What the cross-memory layer does with the call: fail, or run the router on the storage of that moment. */
  datatype Delivery = CmsFailed(rc: int) | Delivered(st: Storage)

  class StatusBlock {
    var cmsRC: int
    var serviceRC: int

    constructor ()
      ensures cmsRC == 0 && serviceRC == 0
    {
      cmsRC, serviceRC := 0, 0;
    }
  }

  /** Result of a call: the code returned, what was written to the status block, the router chosen, and
      the serve routine that ran, if any. */
  datatype Outcome =
    Outcome(rc: int, cmsRC: Option<int>, serviceRC: Option<int>, router: Option<nat>, ran: Option<Routine>)

  function RouterFor(a: ServiceAnchor): nat {
    if a.flags.spaceSwitch then ROUTER_SPACE_SWITCH else ROUTER_CURRENT_PRIMARY
  }

  function RouterParmFor(path: Path, version: nat): RouterParm {
    RouterParm(true, ROUTER_VERSION, path, version)
  }

  /** The routine the router runs on this storage, if it runs one. */
  function Runs(st: Storage, parm: RouterParm, auth: AuthCheck): Option<Routine>
    requires TableSound(st)
  {
    match Route(st, parm, auth)
    case Refused(_) => None
    case Invoked(r) => Some(r)
  }

  /** The router's return code: its refusal, or whatever the routine answers. */
  function RouterRC(st: Storage, parm: RouterParm, auth: AuthCheck, answer: Routine -> int): int
    requires TableSound(st)
  {
    match Route(st, parm, auth)
    case Refused(rc) => rc
    case Invoked(r) => answer(r)
  }

  /** zisCallServiceInternal.  The two lookups, the client's and the router's, may see different storage. */
  function Call(hasStatus: bool, view: View, delivery: Delivery, path: Path, version: nat, auth: AuthCheck,
                answer: Routine -> int): Outcome
    requires view.Serving? ==> TableSound(view.st)
    requires delivery.Delivered? ==> TableSound(delivery.st)
  {
    if !hasStatus then Outcome(RC_STATUS_NULL, None, None, None, None)
    else
      match view
      case NoGlobalArea => Outcome(RC_GLOBAL_AREA_NULL, None, None, None, None)
      case NotReady(rc) => Outcome(RC_CMS_FAILED, Some(rc), None, None, None)
      case NoServerAnchor => Outcome(RC_SERVER_ANCHOR_NULL, None, None, None, None)
      case NoServiceTable => Outcome(RC_SERVICE_TABLE_NULL, None, None, None, None)
      case Serving(st) =>
        if path !in st.table then Outcome(RC_SERVICE_NOT_FOUND, None, None, None, None)
        else
          var router := RouterFor(st.anchors[st.table[path]]);
          match delivery
          case CmsFailed(rc) => Outcome(RC_CMS_FAILED, Some(rc), None, Some(router), None)
          case Delivered(st') =>
            var parm := RouterParmFor(path, version);
            var ran, rc := Runs(st', parm, auth), RouterRC(st', parm, auth, answer);
            if rc == RC_SPECIFIC_AUTH_FAILED then Outcome(RC_SPECIFIC_AUTH_FAILED, None, Some(rc), Some(router), ran)
            else if rc != RC_OK then Outcome(RC_SERVICE_FAILED, None, Some(rc), Some(router), ran)
            else Outcome(RC_OK, None, None, Some(router), ran)
  }

  /** The call as the code makes it: early returns, and return codes written into the caller's block. */
  method CallServiceInternal(status: StatusBlock?, view: View, delivery: Delivery, path: Path, version: nat,
                             auth: AuthCheck, answer: Routine -> int)
    returns (rc: int, router: Option<nat>, ran: Option<Routine>)
    requires view.Serving? ==> TableSound(view.st)
    requires delivery.Delivered? ==> TableSound(delivery.st)
    modifies status
    ensures
      var o := Call(status != null, view, delivery, path, version, auth, answer);
      && rc == o.rc && router == o.router && ran == o.ran
      && (status != null ==>
           && status.cmsRC == (if o.cmsRC.Some? then o.cmsRC.value else old(status.cmsRC))
           && status.serviceRC == (if o.serviceRC.Some? then o.serviceRC.value else old(status.serviceRC)))
  {
    router, ran := None, None;
    if status == null {
      return RC_STATUS_NULL, router, ran;
    }
    if view.NoGlobalArea? {
      return RC_GLOBAL_AREA_NULL, router, ran;
    }
    if view.NotReady? {
      status.cmsRC := view.notReadyRC;
      return RC_CMS_FAILED, router, ran;
    }
    if view.NoServerAnchor? {
      return RC_SERVER_ANCHOR_NULL, router, ran;
    }
    if view.NoServiceTable? {
      return RC_SERVICE_TABLE_NULL, router, ran;
    }
    if path !in view.st.table {
      return RC_SERVICE_NOT_FOUND, router, ran;
    }
    router := Some(RouterFor(view.st.anchors[view.st.table[path]]));
    if delivery.CmsFailed? {
      status.cmsRC := delivery.rc;
      return RC_CMS_FAILED, router, ran;
    }
    var parm := RouterParmFor(path, version);
    ran := Runs(delivery.st, parm, auth);
    var routerRC := RouterRC(delivery.st, parm, auth, answer);
    if routerRC == RC_SPECIFIC_AUTH_FAILED {
      status.serviceRC := routerRC;
      return RC_SPECIFIC_AUTH_FAILED, router, ran;
    } else if routerRC != RC_OK {
      status.serviceRC := routerRC;
      return RC_SERVICE_FAILED, router, ran;
    }
    return RC_OK, router, ran;
  }

  /** The call got as far as the router. */
  predicate Delivers(hasStatus: bool, view: View, delivery: Delivery, path: Path) {
    hasStatus && view.Serving? && path in view.st.table && delivery.Delivered?
  }

  /** What each return code of any call means.  Codes 2, 9, 10, 11 and 14 come from the client alone and leave the
      status untouched; 8 comes with the code of the cross-memory layer; in none of these cases a routine ran; and
      0 is returned exactly if one ran and answered 0. */
  lemma ReturnCodes(hasStatus: bool, view: View, delivery: Delivery, path: Path, version: nat, auth: AuthCheck,
                    answer: Routine -> int)
    requires view.Serving? ==> TableSound(view.st)
    requires delivery.Delivered? ==> TableSound(delivery.st)
    ensures
      var o := Call(hasStatus, view, delivery, path, version, auth, answer);
      && (o.rc == 2 <==> !hasStatus)
      && (o.rc == 9 <==> hasStatus && view.NoGlobalArea?)
      && (o.rc == 10 <==> hasStatus && view.NoServerAnchor?)
      && (o.rc == 11 <==> hasStatus && view.NoServiceTable?)
      && (o.rc == 14 <==> hasStatus && view.Serving? && path !in view.st.table)
      && (o.rc == 8 <==>
           hasStatus && (view.NotReady? || (view.Serving? && path in view.st.table && delivery.CmsFailed?)))
      && (o.rc in {0, 4, 17} <==> Delivers(hasStatus, view, delivery, path))
      && (o.rc == 0 <==> Delivers(hasStatus, view, delivery, path) && o.ran.Some? && answer(o.ran.value) == 0)
      && o.cmsRC == (if o.rc != 8 then None else Some(if view.NotReady? then view.notReadyRC else delivery.rc))
      && (o.serviceRC.Some? <==> o.rc in {4, 17})
      && (o.ran.Some? ==> Delivers(hasStatus, view, delivery, path))
  {
  }

  /** End to end.  The client looks at storage after some run and the router acts after any longer run.
      OK means that a routine ran, brought under that path since the last completed clean-up, new enough,
      authorised, and that it answered 0; if the router refuses, nothing ran, its code is in the status, and the
      call returns 17 for a failed check and 4 for every other refusal; if a routine ran, its answer is treated
      in the same way. */
  lemma EndToEnd(s0: State, acts: seq<Action>, more: seq<Action>, path: Path, version: nat, auth: AuthCheck,
                 answer: Routine -> int)
    requires IsRun(s0, acts) && IsRun(s0, acts + more) && Settled(s0, acts)
    ensures TableSound(After(s0, acts).st) && TableSound(After(s0, acts + more).st)
    ensures
      var st, st' := After(s0, acts).st, After(s0, acts + more).st;
      var o := Call(true, Serving(st), Delivered(st'), path, version, auth, answer);
      && (o.rc == RC_OK ==>
           && path in InstalledSince(acts + more)
           && var d := InstalledSince(acts + more)[path];
              o.ran == Some(d.serve) && answer(d.serve) == 0
              && VersionOk(RouterParmFor(path, version), d.serviceVersion) && Authorised(d, auth))
      && (o.ran.Some? ==> Reports(o, answer(o.ran.value)))
      && (o.router.Some? && o.ran == None ==>
           && Route(st', RouterParmFor(path, version), auth).Refused?
           && IsRefusal(Route(st', RouterParmFor(path, version), auth).rc)
           && Reports(o, Route(st', RouterParmFor(path, version), auth).rc))
  {
    assert Settled(s0, acts + more);
    RunLinked(s0, acts);
    RouterSafe(s0, acts + more, RouterParmFor(path, version), auth);
    CallReports(After(s0, acts).st, After(s0, acts + more).st, path, version, auth, answer);
  }

  /** What the caller gets for what the router did. */
  lemma CallReports(st: Storage, st': Storage, path: Path, version: nat, auth: AuthCheck, answer: Routine -> int)
    requires TableSound(st) && TableSound(st')
    ensures
      var o := Call(true, Serving(st), Delivered(st'), path, version, auth, answer);
      var routed := Route(st', RouterParmFor(path, version), auth);
      && (o.rc == RC_OK ==> o.ran.Some?)
      && (o.ran.Some? ==> routed == Invoked(o.ran.value) && Reports(o, answer(o.ran.value)))
      && (o.router.Some? && o.ran == None ==> routed.Refused? && IsRefusal(routed.rc) && Reports(o, routed.rc))
  {
  }

  /** The refusals as a client of a running server sees them, by what is installed: the client found the path
      published, and no routine ran. */
  lemma ClientRefusals(s0: State, acts: seq<Action>, more: seq<Action>, path: Path, version: nat, auth: AuthCheck,
                       answer: Routine -> int)
    requires IsRun(s0, acts) && IsRun(s0, acts + more) && Running(After(s0, acts + more).pc)
    requires path in After(s0, acts).st.table
    ensures TableSound(After(s0, acts).st) && TableSound(After(s0, acts + more).st)
    ensures
      var s' := After(s0, acts + more);
      var o := Call(true, Serving(After(s0, acts).st), Delivered(s'.st), path, version, auth, answer);
      var parm := RouterParmFor(path, version);
      && (o.ran == None && o.rc == 17 && o.serviceRC == Some(17) <==>
           && path in s'.started && path in InstalledSince(acts + more)
           && VersionOk(parm, InstalledSince(acts + more)[path].serviceVersion)
           && !Authorised(InstalledSince(acts + more)[path], auth))
      && (o.ran == None && o.rc == 4 && o.serviceRC == Some(16) <==>
           && path in s'.st.table && VersionOk(parm, s'.st.anchors[s'.st.table[path]].serviceVersion)
           && path !in s'.started)
      && (o.ran == None && o.rc == 4 && o.serviceRC == Some(15) <==>
           path in s'.st.table && !VersionOk(parm, s'.st.anchors[s'.st.table[path]].serviceVersion))
      && (o.ran == None && o.rc == 4 && o.serviceRC == Some(14) <==> path !in s'.st.table)
  {
    RunLinked(s0, acts);
    RouterRefusals(s0, acts + more, RouterParmFor(path, version), auth);
    CallReports(After(s0, acts).st, After(s0, acts + more).st, path, version, auth, answer);
  }

  /** The codes with which the router can refuse a client's call. */
  predicate IsRefusal(rc: int) {
    RC_SERVICE_NOT_FOUND <= rc <= RC_SPECIFIC_AUTH_FAILED
  }

  /** How a code from behind the cross-memory call comes back to the caller. */
  predicate Reports(o: Outcome, rc: int) {
    && o.rc == (if rc == RC_OK then RC_OK else if rc == RC_SPECIFIC_AUTH_FAILED then rc else RC_SERVICE_FAILED)
    && o.serviceRC == (if rc == RC_OK then None else Some(rc))
  }

  /** The caller can tell from the status whether this call was refused. */
  ghost predicate RefusalShows(st: Storage, path: Path, version: nat, auth: AuthCheck, answer: Routine -> int) {
    TableSound(st) && path in st.table ==>
      var o := Call(true, Serving(st), Delivered(st), path, version, auth, answer);
      o.ran == None <==> o.serviceRC.Some? && IsRefusal(o.serviceRC.value)
  }

  /** The status tells refusals from answers, in every call, if and only if no routine answers with a code from 14
      to 17: a routine that answers 17 is reported as a failed check although it ran. */
  lemma RefusalsAreRecognisable(answer: Routine -> int)
    ensures (forall st, path, version, auth :: RefusalShows(st, path, version, auth, answer)) <==>
      forall r: Routine :: !IsRefusal(answer(r))
  {
    if r: Routine :| IsRefusal(answer(r)) {
      AnswerLooksLikeRefusal(r, answer);
    } else {
      forall st: Storage, path: Path, version: nat, auth: AuthCheck
        ensures RefusalShows(st, path, version, auth, answer)
      {
      }
    }
  }

  lemma AnswerLooksLikeRefusal(r: Routine, answer: Routine -> int)
    requires IsRefusal(answer(r))
    ensures exists st, path, version, auth :: !RefusalShows(st, path, version, auth, answer)
  {
    var path := Path("PLUGIN", "SERVICE");
    var a := ServiceAnchor(SERVICE_ANCHOR_VERSION, Flags(false, false, 0), true, false, path, 0, r, "", "");
    var st := Storage(map[0 := a], [PluginAnchor(PLUGIN_ANCHOR_VERSION, "PLUGIN", [0])], map[path := 0]);
    var auth: AuthCheck := (cls, entity) => true;
    assert st.plugins[0].services[0] == 0;
    assert TableSound(st);
    assert !RefusalShows(st, path, 0, auth, answer);
  }

  /** While the server runs, the client picks the router the installed descriptor asks for. */
  lemma RouterChoice(s0: State, acts: seq<Action>, delivery: Delivery, path: Path, version: nat, auth: AuthCheck,
                     answer: Routine -> int)
    requires IsRun(s0, acts) && Running(After(s0, acts).pc) && path in After(s0, acts).started
    requires delivery.Delivered? ==> TableSound(delivery.st)
    ensures TableSound(After(s0, acts).st) && path in InstalledSince(acts)
    ensures
      Call(true, Serving(After(s0, acts).st), delivery, path, version, auth, answer).router ==
        Some(if InstalledSince(acts)[path].flags.spaceSwitch then ROUTER_SPACE_SWITCH else ROUTER_CURRENT_PRIMARY)
  {
    RunLinked(s0, acts);
    RunKeeps(s0, acts);
    InstalledIsHistory(s0, acts);
    var s := After(s0, acts);
    assert IsActive(s, s.st.table[path]) && ActiveSound(s, s.st.table[path]);
  }
}
