/** Chunked upload of files: the table of sessions by file, the table of files by session identifier, the
    session counter, time-outs, and the files themselves, under PUT requests handled one at a time. */
module UploadSessions {
  import opened Common
  import opened UploadLog

  datatype Session = Session(lastRequest: int, sessionId: int, transfer: Transfer, user: string)

  /** Outcome of decoding, converting and writing a chunk; a failed write may have written something. */
  datatype Write = Written(bytes: Bytes) | Failed(partial: Bytes)

  /** A PUT without session identifier asks for a session on a file; with one it carries a chunk.
      Answers of the file system and of the parameter parsing are part of the request. */
  datatype Put =
    | Open(user: string, fid: FileId, force: bool, transfer: Option<Transfer>, createOk: bool, openOk: bool,
           tagOk: bool)
    | Chunk(user: string, id: int, lastChunk: Option<bool>, write: Write)

  /** `time` is the true time of the request in seconds. */
  datatype Request = Request(time: int, put: Put)

  datatype State = State(
    sessions: map<FileId, Session>,
    ids: map<int, FileId>,
    counter: int,
    files: map<FileId, Bytes>,
    log: seq<Event>)

  // ----- one request

  function TimedOutFiles(s: State, now: int): set<FileId> {
    set f | f in s.sessions && TimedOut(Stamp(now), s.sessions[f].lastRequest)
  }

  /** removeSessionTimeOuts: the table of identifiers is left alone. */
  function Prune(s: State, now: int): State {
    s.(sessions := s.sessions - TimedOutFiles(s, now), log := s.log + [Expired(now, TimedOutFiles(s, now))])
  }

  /** A truncating open that becomes a session. */
  function OpenSession(s: State, now: int, fid: FileId, user: string, transfer: Transfer): State {
    s.(files := s.files[fid := []],
       sessions := s.sessions[fid := Session(Stamp(now), s.counter, transfer, user)],
       ids := s.ids[s.counter := fid],
       counter := (s.counter + 1) % WORD,
       log := s.log + [Opened(fid, user, transfer, Some(s.counter), now)])
  }

  /** A truncating open whose session is taken back because the file cannot be tagged. */
  function OpenInVain(s: State, now: int, fid: FileId, user: string, transfer: Transfer): State {
    s.(files := s.files[fid := []], log := s.log + [Opened(fid, user, transfer, None, now)] + [Closed(fid, None)])
  }

  /** assignSessionIDToCaller. */
  function Assign(s: State, now: int, put: Put): State
    requires put.Open?
  {
    var fid := put.fid;
    if put.transfer.None? then s
    else if fid in s.files && !put.force then s
    else if fid !in s.files && !put.createOk then s
    else
      var s1 := if fid in s.files then s else s.(files := s.files[fid := []]);
      if fid in s1.sessions then s1
      else if !put.openOk then s1
      else if !put.tagOk then OpenInVain(s1, now, fid, put.user, put.transfer.value)
      else OpenSession(s1, now, fid, put.user, put.transfer.value)
  }

  /** The session a session identifier leads to. */
  function SessionFile(s: State, id: int): Option<FileId> {
    if id in s.ids && s.ids[id] in s.sessions then Some(s.ids[id]) else None
  }

  /** The time of the request, put down before anything is checked. */
  function Touch(s: State, fid: FileId, now: int): State
    requires fid in s.sessions
  {
    s.(sessions := s.sessions[fid := s.sessions[fid].(lastRequest := Stamp(now))], log := s.log + [Touched(fid, now)])
  }

  /** cleanupSession. */
  function Cleanup(s: State, fid: FileId, id: int, e: Event): State {
    s.(sessions := s.sessions - {fid}, ids := s.ids - {id}, log := s.log + [e])
  }

  function Contents(s: State, fid: FileId): Bytes {
    if fid in s.files then s.files[fid] else []
  }

  /** A chunk appended to the session's file. */
  function Accept(s: State, fid: FileId, user: string, bytes: Bytes): State {
    s.(files := s.files[fid := Contents(s, fid) + bytes], log := s.log + [Accepted(fid, user, bytes)])
  }

  /** What a chunk does to the session it has reached. */
  function Upload(s: State, fid: FileId, put: Put): State
    requires put.Chunk? && fid in s.sessions
  {
    if put.user != s.sessions[fid].user || put.lastChunk.None? then s
    else if s.sessions[fid].transfer.NoTransfer? then Cleanup(s, fid, put.id, Closed(fid, Some(put.id)))
    else
      match put.write
      case Failed(part) =>
        Cleanup(s, fid, put.id, Closed(fid, Some(put.id))).(files := s.files[fid := Contents(s, fid) + part])
      case Written(bytes) =>
        var s' := Accept(s, fid, put.user, bytes);
        if put.lastChunk.value then Cleanup(s', fid, put.id, Completed(fid, Some(put.id), s'.files[fid])) else s'
  }

  /** doChunking. */
  function AddChunk(s: State, now: int, put: Put): State
    requires put.Chunk?
  {
    match SessionFile(s, put.id)
    case None => s
    case Some(fid) => Upload(Touch(s, fid, now), fid, put)
  }

  /** serveUnixFileContents for PUT. */
  function Serve(s: State, now: int, put: Put): State {
    var s1 := Prune(s, now);
    if put.Open? then Assign(s1, now, put) else AddChunk(s1, now, put)
  }

  // ----- the invariant: the tables say what the history says

  ghost predicate SessionSound(session: Session, v: FileView) {
    && session.user == v.owner && session.transfer == v.transfer
    && session.lastRequest == Stamp(v.touched) && v.id == Some(session.sessionId)
  }

  ghost predicate FileSound(s: State, f: FileId) {
    var v := View(s.log, f);
    && (v.live <==> f in s.sessions)
    && (v.live ==> SessionSound(s.sessions[f], v) && f in s.files && s.files[f] == v.payload)
  }

  ghost predicate IdSound(s: State, id: int) {
    ViewId(s.log, id).leads == if id in s.ids then Some(s.ids[id]) else None
  }

  ghost predicate Inv(s: State) {
    && LawfulLog(s.log)
    && (forall f :: FileSound(s, f))
    && (forall id :: IdSound(s, id))
    && s.counter == NextId(s.log)
  }

  /** One event that concerns a single file. */
  lemma EventKeeps(s: State, s': State, e: Event, fid: FileId)
    requires Inv(s) && Lawful(s.log, e) && s'.log == s.log + [e] && !e.Expired? && e.fid == fid
    requires forall f :: f != fid ==> (f in s'.sessions <==> f in s.sessions) && (f in s'.files <==> f in s.files)
    requires forall f :: f != fid && f in s.sessions ==> s'.sessions[f] == s.sessions[f]
    requires forall f :: f != fid && f in s.files ==> s'.files[f] == s.files[f]
    requires FileSound(s', fid)
    requires forall id :: IdSound(s', id)
    requires s'.counter == NextId(s'.log)
    ensures Inv(s')
  {
    LogGrows(s.log, e);
    LawfulGrows(s.log, e);
    forall f ensures FileSound(s', f) {
      assert FileSound(s, f);
    }
  }

  lemma PruneKeeps(s: State, now: int)
    requires Inv(s)
    ensures Inv(Prune(s, now))
  {
    var s' := Prune(s, now);
    var e := s'.log[|s.log|];
    LogGrows(s.log, e);
    forall f ensures f in e.fids <==> View(s.log, f).live && TimedOut(Stamp(now), Stamp(View(s.log, f).touched)) {
      assert FileSound(s, f);
    }
    LawfulGrows(s.log, e);
    forall f ensures FileSound(s', f) {
      assert FileSound(s, f);
    }
    forall id ensures IdSound(s', id) {
      assert IdSound(s, id);
    }
  }

  lemma OpenSessionKeeps(s: State, now: int, fid: FileId, user: string, transfer: Transfer)
    requires Inv(s) && fid !in s.sessions
    ensures Inv(OpenSession(s, now, fid, user, transfer))
  {
    var s' := OpenSession(s, now, fid, user, transfer);
    var e := Opened(fid, user, transfer, Some(s.counter), now);
    assert FileSound(s, fid);
    LogGrows(s.log, e);
    forall id ensures IdSound(s', id) {
      assert IdSound(s, id);
    }
    NextIdWraps(IssueCount(s.log));
    EventKeeps(s, s', e, fid);
  }

  lemma NextIdWraps(n: nat)
    ensures ((n + 1) % WORD + 1) % WORD == (n + 1 + 1) % WORD
  {
  }

  lemma OpenInVainKeeps(s: State, now: int, fid: FileId, user: string, transfer: Transfer)
    requires Inv(s) && fid !in s.sessions
    ensures Inv(OpenInVain(s, now, fid, user, transfer))
  {
    var e, s' := Opened(fid, user, transfer, None, now), OpenInVain(s, now, fid, user, transfer);
    assert FileSound(s, fid);
    LogGrows(s.log, e);
    LawfulGrows(s.log, e);
    LogGrows(s.log + [e], Closed(fid, None));
    LawfulGrows(s.log + [e], Closed(fid, None));
    forall f ensures FileSound(s', f) {
      assert FileSound(s, f);
    }
    forall id ensures IdSound(s', id) {
      assert IdSound(s, id);
    }
  }

  /** A file may come into being before its session. */
  lemma NewFileKeeps(s: State, fid: FileId)
    requires Inv(s) && fid !in s.files
    ensures fid !in s.sessions && Inv(s.(files := s.files[fid := []]))
  {
    var s' := s.(files := s.files[fid := []]);
    assert FileSound(s, fid);
    forall f ensures FileSound(s', f) {
      assert FileSound(s, f);
    }
    forall id ensures IdSound(s', id) {
      assert IdSound(s, id);
    }
  }

  lemma AssignKeeps(s: State, now: int, put: Put)
    requires Inv(s) && put.Open?
    ensures Inv(Assign(s, now, put))
  {
    var fid := put.fid;
    if put.transfer.Some? && (if fid in s.files then put.force else put.createOk) {
      var s1 := if fid in s.files then s else s.(files := s.files[fid := []]);
      if fid !in s.files {
        NewFileKeeps(s, fid);
      }
      if fid !in s1.sessions && put.openOk {
        if put.tagOk {
          OpenSessionKeeps(s1, now, fid, put.user, put.transfer.value);
        } else {
          OpenInVainKeeps(s1, now, fid, put.user, put.transfer.value);
        }
      }
    }
  }

  lemma TouchKeeps(s: State, fid: FileId, now: int)
    requires Inv(s) && fid in s.sessions
    ensures Inv(Touch(s, fid, now))
  {
    var s' := Touch(s, fid, now);
    assert FileSound(s, fid);
    LogGrows(s.log, Touched(fid, now));
    forall id ensures IdSound(s', id) {
      assert IdSound(s, id);
    }
    EventKeeps(s, s', Touched(fid, now), fid);
  }

  lemma AcceptKeeps(s: State, fid: FileId, bytes: Bytes)
    requires Inv(s) && fid in s.sessions
    ensures Inv(Accept(s, fid, s.sessions[fid].user, bytes))
  {
    var user := s.sessions[fid].user;
    var s' := Accept(s, fid, user, bytes);
    assert FileSound(s, fid);
    LogGrows(s.log, Accepted(fid, user, bytes));
    forall id ensures IdSound(s', id) {
      assert IdSound(s, id);
    }
    EventKeeps(s, s', Accepted(fid, user, bytes), fid);
  }

  /** The end of a session, after which its file's contents no longer matter. */
  lemma CleanupKeeps(s: State, s': State, fid: FileId, id: int, e: Event)
    requires Inv(s) && SessionFile(s, id) == Some(fid)
    requires e == Closed(fid, Some(id)) || (fid in s.files && e == Completed(fid, Some(id), s.files[fid]))
    requires s' == Cleanup(s, fid, id, e).(files := s'.files) && s'.files.Keys == s.files.Keys + {fid}
    requires forall f :: f in s.files && f != fid ==> s'.files[f] == s.files[f]
    ensures Inv(s')
  {
    assert FileSound(s, fid) && IdSound(s, id);
    LogGrows(s.log, e);
    forall i ensures IdSound(s', i) {
      assert IdSound(s, i);
    }
    EventKeeps(s, s', e, fid);
  }

  lemma UploadKeeps(s: State, fid: FileId, put: Put)
    requires Inv(s) && put.Chunk? && SessionFile(s, put.id) == Some(fid)
    ensures Inv(Upload(s, fid, put))
  {
    assert FileSound(s, fid);
    if put.user == s.sessions[fid].user && put.lastChunk.Some? {
      if s.sessions[fid].transfer.NoTransfer? || put.write.Failed? {
        CleanupKeeps(s, Upload(s, fid, put), fid, put.id, Closed(fid, Some(put.id)));
      } else {
        var s' := Accept(s, fid, put.user, put.write.bytes);
        AcceptKeeps(s, fid, put.write.bytes);
        if put.lastChunk.value {
          CleanupKeeps(s', Upload(s, fid, put), fid, put.id, Completed(fid, Some(put.id), s'.files[fid]));
        }
      }
    }
  }

  lemma ServeKeeps(s: State, now: int, put: Put)
    requires Inv(s)
    ensures Inv(Serve(s, now, put))
  {
    var s1 := Prune(s, now);
    PruneKeeps(s, now);
    if put.Open? {
      AssignKeeps(s1, now, put);
    } else if SessionFile(s1, put.id).Some? {
      var fid := SessionFile(s1, put.id).value;
      TouchKeeps(s1, fid, now);
      UploadKeeps(Touch(s1, fid, now), fid, put);
    }
  }

  // ----- any sequence of requests

  function ServeAll(s: State, requests: seq<Request>): State
    decreases |requests|
  {
    if requests == [] then s
    else
      var r := requests[|requests| - 1];
      Serve(ServeAll(s, requests[..|requests| - 1]), r.time, r.put)
  }

  function Fresh(files: map<FileId, Bytes>): State {
    State(map[], map[], 1, files, [])
  }

  /** The state after any requests on any file system. */
  function Reached(files: map<FileId, Bytes>, requests: seq<Request>): State {
    ServeAll(Fresh(files), requests)
  }

  lemma {:induction false} AllKeep(files: map<FileId, Bytes>, requests: seq<Request>)
    ensures Inv(Reached(files, requests))
    decreases |requests|
  {
    if requests == [] {
      assert Reached(files, requests) == Fresh(files);
      assert forall f :: FileSound(Fresh(files), f);
      assert forall id :: IdSound(Fresh(files), id);
    } else {
      var before, r := requests[..|requests| - 1], requests[|requests| - 1];
      AllKeep(files, before);
      ServeKeeps(Reached(files, before), r.time, r.put);
    }
  }

  /** Over any sequence of PUTs at any times: a completed file is the join of the payloads accepted since
      its truncating open; no file is opened again while its session is live; every accepted chunk comes
      from the user who opened the session; and the contents of a live session's file are what it has
      accepted so far. */
  lemma UploadsAreSound(files: map<FileId, Bytes>, requests: seq<Request>)
    ensures
      var s := Reached(files, requests);
      && (forall n :: 0 <= n < |s.log| && s.log[n].Completed? ==>
           s.log[n].contents == View(s.log[..n], s.log[n].fid).payload)
      && (forall n :: 0 <= n < |s.log| && s.log[n].Opened? ==> !View(s.log[..n], s.log[n].fid).live)
      && (forall n :: 0 <= n < |s.log| && s.log[n].Accepted? ==>
           View(s.log[..n], s.log[n].fid).live && View(s.log[..n], s.log[n].fid).owner == s.log[n].user)
      && (forall f :: f in s.sessions ==> f in s.files && s.files[f] == View(s.log, f).payload)
  {
    AllKeep(files, requests);
    var s := Reached(files, requests);
    LawfulMeans(s.log);
    forall f | f in s.sessions ensures f in s.files && s.files[f] == View(s.log, f).payload {
      assert FileSound(s, f);
    }
  }

  // ----- time-outs over whole runs

  /** Serving any further PUT first expires the timed-out sessions. */
  lemma ExpiryComesFirst(files: map<FileId, Bytes>, requests: seq<Request>, r: Request)
    ensures
      var s := Reached(files, requests);
      s.log + [Expired(r.time, TimedOutFiles(s, r.time))] <= Reached(files, requests + [r]).log
  {
    ReachedOneMore(files, requests, r);
    ServeGrows(Reached(files, requests), r.time, r.put);
  }

  /** Which sessions that are, at true time `now` after any run: of the live sessions those that no request has
      reached for 600 seconds or more, each if and only if its idle time is one that 32-bit stamps can tell. */
  lemma ExpiryIsExact(files: map<FileId, Bytes>, requests: seq<Request>, now: int, f: FileId)
    ensures
      var s := Reached(files, requests);
      var gone := TimedOutFiles(s, now);
      && (f in gone ==> View(s.log, f).live)
      && (View(s.log, f).live ==>
           var idle := now - View(s.log, f).touched;
           ((f in gone <==> idle >= TIMEOUT_TIME) <==> StampsSuffice(idle)))
  {
    AllKeep(files, requests);
    GoneIsExact(Reached(files, requests), now, f);
  }

  lemma GoneIsExact(s: State, now: int, f: FileId)
    requires Inv(s)
    ensures f in TimedOutFiles(s, now) ==> View(s.log, f).live
    ensures View(s.log, f).live ==>
      var idle := now - View(s.log, f).touched;
      ((f in TimedOutFiles(s, now) <==> idle >= TIMEOUT_TIME) <==> StampsSuffice(idle))
  {
    assert FileSound(s, f);
    TimeOutIsExact(now, View(s.log, f).touched);
  }

  /** The pruning comes first, and what follows it comes behind it. */
  lemma ServeGrows(s: State, now: int, put: Put)
    ensures s.log + [Expired(now, TimedOutFiles(s, now))] <= Serve(s, now, put).log
  {
    var s1 := Prune(s, now);
    if put.Chunk? && SessionFile(s1, put.id).Some? {
      var s2 := Touch(s1, SessionFile(s1, put.id).value, now);
      assert s1.log <= s2.log <= Upload(s2, SessionFile(s1, put.id).value, put).log;
    }
  }

  /** The clock never goes back, and requests are never more than 2^32 - 600 seconds apart. */
  ghost predicate Steady(requests: seq<Request>) {
    forall k :: 0 < k < |requests| ==>
      0 <= requests[k].time - requests[k - 1].time <= WORD - TIMEOUT_TIME
  }

  /** Every live session was reached less than 600 seconds before `now`. */
  ghost predicate AllRecent(log: seq<Event>, now: int) {
    forall f :: View(log, f).live ==> 0 <= now - View(log, f).touched < TIMEOUT_TIME
  }

  /** No event makes a session older. */
  lemma RecentGrows(log: seq<Event>, e: Event, now: int)
    requires AllRecent(log, now) && (e.Opened? || e.Touched? ==> e.time == now)
    ensures AllRecent(log + [e], now)
  {
    LogGrows(log, e);
  }

  /** Pruning leaves recent sessions only, if no idle time has come round. */
  lemma PruneIsRecent(s: State, now: int)
    requires Inv(s) && forall f :: View(s.log, f).live ==> 0 <= now - View(s.log, f).touched < WORD
    ensures AllRecent(Prune(s, now).log, now)
  {
    var gone := TimedOutFiles(s, now);
    LogGrows(s.log, Expired(now, gone));
    forall f | View(s.log + [Expired(now, gone)], f).live
      ensures 0 <= now - View(s.log + [Expired(now, gone)], f).touched < TIMEOUT_TIME
    {
      assert View(s.log, f).live;
      GoneIsExact(s, now, f);
    }
  }

  lemma ServeIsRecent(s: State, now: int, put: Put)
    requires Inv(s) && forall f :: View(s.log, f).live ==> 0 <= now - View(s.log, f).touched < WORD
    ensures AllRecent(Serve(s, now, put).log, now)
  {
    var s1 := Prune(s, now);
    PruneIsRecent(s, now);
    if put.Open? {
      AssignIsRecent(s1, now, put);
    } else if SessionFile(s1, put.id).Some? {
      var fid := SessionFile(s1, put.id).value;
      RecentGrows(s1.log, Touched(fid, now), now);
      UploadIsRecent(Touch(s1, fid, now), fid, now, put);
    }
  }

  lemma AssignIsRecent(s: State, now: int, put: Put)
    requires AllRecent(s.log, now) && put.Open?
    ensures AllRecent(Assign(s, now, put).log, now)
  {
    if put.transfer.Some? {
      var opening := Opened(put.fid, put.user, put.transfer.value, None, now);
      RecentGrows(s.log, opening.(id := Some(s.counter)), now);
      RecentGrows(s.log, opening, now);
      RecentGrows(s.log + [opening], Closed(put.fid, None), now);
    }
  }

  lemma UploadIsRecent(s: State, fid: FileId, now: int, put: Put)
    requires AllRecent(s.log, now) && put.Chunk? && fid in s.sessions
    ensures AllRecent(Upload(s, fid, put).log, now)
  {
    RecentGrows(s.log, Closed(fid, Some(put.id)), now);
    if put.write.Written? {
      var s1 := Accept(s, fid, put.user, put.write.bytes);
      RecentGrows(s.log, Accepted(fid, put.user, put.write.bytes), now);
      RecentGrows(s1.log, Completed(fid, Some(put.id), s1.files[fid]), now);
    }
  }

  lemma {:induction false} SteadyRunsAreRecent(files: map<FileId, Bytes>, requests: seq<Request>)
    requires Steady(requests) && requests != []
    ensures AllRecent(Reached(files, requests).log, requests[|requests| - 1].time)
    decreases |requests|
  {
    var n := |requests| - 1;
    var before, r := requests[..n], requests[n];
    var s := Reached(files, before);
    AllKeep(files, before);
    if n > 0 {
      SteadyRunsAreRecent(files, before);
    } else {
      assert s == Fresh(files);
    }
    ServeIsRecent(s, r.time, r.put);
  }

  /** So on a steady clock pruning is exact in every run: each request expires exactly the live sessions that no
      request has reached for at least 600 seconds, across any number of wraps. */
  lemma SteadyClockIsExact(files: map<FileId, Bytes>, before: seq<Request>, r: Request, f: FileId)
    requires Steady(before + [r])
    ensures
      var s := Reached(files, before);
      f in TimedOutFiles(s, r.time) <==> View(s.log, f).live && r.time - View(s.log, f).touched >= TIMEOUT_TIME
  {
    ExpiryIsExact(files, before, r.time, f);
    if before != [] {
      var all, n := before + [r], |before|;
      assert all[n] == r && all[n - 1] == before[n - 1];
      assert forall k :: 0 <= k < n ==> all[k] == before[k];
      SteadyRunsAreRecent(files, before);
    } else {
      assert Reached(files, before) == Fresh(files);
    }
  }

  // ----- identifiers over whole runs

  /** The identifier of a live session leads to that session if and only if it has not been issued for another
      file since; in particular always as long as the counter has not come round. */
  lemma IdentifiersLeadHome(files: map<FileId, Bytes>, requests: seq<Request>, f: FileId)
    requires f in Reached(files, requests).sessions
    ensures
      var s := Reached(files, requests);
      var id := s.sessions[f].sessionId;
      && (SessionFile(s, id) == Some(f) <==> ViewId(s.log, id).issuedFor == Some(f))
      && (IssueCount(s.log) <= WORD ==> SessionFile(s, id) == Some(f))
  {
    var s := Reached(files, requests);
    var id := s.sessions[f].sessionId;
    AllKeep(files, requests);
    assert FileSound(s, f) && IdSound(s, id);
    LeadsUnlessReissued(s.log, f, id);
    if IssueCount(s.log) <= WORD {
      IssuedForItsFile(s.log, f, id);
    }
  }

  /** An identifier reaches a session it was not given to if and only if it was once issued for the same file, no
      session has been ended through it since, and the file has been opened again. */
  lemma StaleIdentifiers(files: map<FileId, Bytes>, requests: seq<Request>, id: int, f: FileId)
    ensures
      var s := Reached(files, requests);
      (SessionFile(s, id) == Some(f) && s.sessions[f].sessionId != id) <==>
        (f in s.sessions && exists n: nat :: LastIssuedAt(s.log, id, f, n) && OpenedAfter(s.log, f, n))
  {
    var s := Reached(files, requests);
    AllKeep(files, requests);
    assert FileSound(s, f) && IdSound(s, id);
    LeadsSinceIssue(s.log, id, f);
    forall n: nat | LastIssuedAt(s.log, id, f, n)
      ensures View(s.log, f).id == Some(id) <==> !OpenedAfter(s.log, f, n)
    {
      SameSession(s.log, f, id, n);
    }
  }

  /** It happens: a session expires, the same user opens the file again, and the old identifier's chunk goes into
      the new session. */
  lemma StaleIdentifierAccepted(files: map<FileId, Bytes>, f: FileId, user: string, bytes: Bytes)
    ensures
      var open := Open(user, f, true, Some(Binary), true, true, true);
      var s := Reached(files, [Request(0, open), Request(TIMEOUT_TIME, open)]);
      && f in s.sessions && s.sessions[f].sessionId == 2
      && AddChunk(s, TIMEOUT_TIME, Chunk(user, 1, Some(false), Written(bytes))).files[f] == bytes
  {
    var open := Open(user, f, true, Some(Binary), true, true, true);
    var r1, r2 := Request(0, open), Request(TIMEOUT_TIME, open);
    ReachedOneMore(files, [], r1);
    ReachedOneMore(files, [r1], r2);
    assert [] + [r1] == [r1] && [r1] + [r2] == [r1, r2];
    FirstSession(Fresh(files), 0, open);
    FirstSession(Reached(files, [r1]), TIMEOUT_TIME, open);
  }

  lemma ReachedOneMore(files: map<FileId, Bytes>, requests: seq<Request>, r: Request)
    ensures Reached(files, requests + [r]) == Serve(Reached(files, requests), r.time, r.put)
  {
    assert (requests + [r])[..|requests|] == requests;
  }

  /** Opening a file whose session, if any, is the only one and has timed out. */
  lemma FirstSession(s: State, now: int, put: Put)
    requires put.Open? && put.force && put.createOk && put.openOk && put.tagOk && put.transfer.Some?
    requires forall f :: f in s.sessions ==> f == put.fid && TimedOut(Stamp(now), s.sessions[f].lastRequest)
    ensures
      var s' := Serve(s, now, put);
      && s'.sessions == map[put.fid := Session(Stamp(now), s.counter, put.transfer.value, put.user)]
      && s'.ids == s.ids[s.counter := put.fid] && s'.counter == (s.counter + 1) % WORD
      && put.fid in s'.files && s'.files[put.fid] == []
  {
    assert Prune(s, now).sessions == map[];
  }
}
