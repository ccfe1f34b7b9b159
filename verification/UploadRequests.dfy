/** What each kind of PUT does after any run, told from the history and the request alone. */
module UploadRequests {
  import opened Common
  import opened UploadLog
  import opened UploadSessions

  /** The history after the expiry with which every request begins. */
  function Begun(s: State, now: int): seq<Event> {
    s.log + [Expired(now, TimedOutFiles(s, now))]
  }

  // ----- asking for a session

  /** The request may have the file: a transfer type was parsed, and the file exists and may be overwritten, or does
      not exist and can be created. */
  predicate Permitted(s: State, put: Put)
    requires put.Open?
  {
    put.transfer.Some? && if put.fid in s.files then put.force else put.createOk
  }

  /** The file is opened, and so truncated. */
  predicate Opening(log: seq<Event>, s: State, put: Put)
    requires put.Open?
  {
    Permitted(s, put) && !View(log, put.fid).live && put.openOk
  }

  lemma AssignEvents(s: State, now: int, put: Put)
    requires Inv(s) && put.Open?
    ensures Assign(s, now, put).log == s.log +
      (if !Opening(s.log, s, put) then []
       else if put.tagOk then [Opened(put.fid, put.user, put.transfer.value, Some(NextId(s.log)), now)]
       else [Opened(put.fid, put.user, put.transfer.value, None, now)] + [Closed(put.fid, None)])
  {
    assert FileSound(s, put.fid);
  }

  lemma AssignFiles(s: State, now: int, put: Put)
    requires Inv(s) && put.Open?
    ensures Assign(s, now, put).files ==
      if Opening(s.log, s, put) || (put.fid !in s.files && Permitted(s, put)) then s.files[put.fid := []] else s.files
  {
    assert FileSound(s, put.fid);
    assert s.files[put.fid := []][put.fid := []] == s.files[put.fid := []];
  }

  /** The file is opened and truncated if and only if the request may have it, no session on it is live after the
      expiry, and the open succeeds; the session gets the next identifier if and only if the tagging succeeds
      too, and otherwise ends at once. */
  lemma OpeningIsExact(files: map<FileId, Bytes>, requests: seq<Request>, now: int, put: Put)
    requires put.Open?
    ensures
      var s := Reached(files, requests);
      var begun, f := Begun(s, now), put.fid;
      Serve(s, now, put).log == begun +
        (if !Opening(begun, s, put) then []
         else if put.tagOk then [Opened(f, put.user, put.transfer.value, Some(NextId(s.log)), now)]
         else [Opened(f, put.user, put.transfer.value, None, now)] + [Closed(f, None)])
  {
    var s := Reached(files, requests);
    AllKeep(files, requests);
    PruneKeeps(s, now);
    LogGrows(s.log, Expired(now, TimedOutFiles(s, now)));
    AssignEvents(Prune(s, now), now, put);
  }

  /** The files afterwards: the one asked for is empty if it was opened or had to be created, and every other one,
      and this one otherwise, is as before. */
  lemma OpeningAndFiles(files: map<FileId, Bytes>, requests: seq<Request>, now: int, put: Put)
    requires put.Open?
    ensures
      var s := Reached(files, requests);
      Serve(s, now, put).files ==
        if Opening(Begun(s, now), s, put) || (put.fid !in s.files && Permitted(s, put)) then s.files[put.fid := []]
        else s.files
  {
    var s := Reached(files, requests);
    AllKeep(files, requests);
    PruneKeeps(s, now);
    AssignFiles(Prune(s, now), now, put);
  }

  // ----- sending a chunk

  /** The file whose live session the request's identifier leads to. */
  function Target(begun: seq<Event>, id: int): Option<FileId> {
    match ViewId(begun, id).leads
    case None => None
    case Some(f) => if View(begun, f).live then Some(f) else None
  }

  /** The request comes from the session's user and says whether it is the last one. */
  predicate Heard(v: FileView, put: Put)
    requires put.Chunk?
  {
    put.user == v.owner && put.lastChunk.Some?
  }

  predicate GoesIn(v: FileView, put: Put)
    requires put.Chunk?
  {
    Heard(v, put) && !v.transfer.NoTransfer? && put.write.Written?
  }

  lemma TargetIsSession(s: State, id: int)
    requires Inv(s)
    ensures SessionFile(s, id) == Target(s.log, id)
  {
    assert IdSound(s, id);
    if id in s.ids {
      assert FileSound(s, s.ids[id]);
    }
  }

  /** The events a chunk adds for the session it reaches: it always counts as a request; its payload is accepted if
      and only if the user and the parameter are right and the write succeeds; the session is completed if and
      only if an accepted chunk was the last one, and closed if and only if a chunk that was heard was not
      accepted. */
  function ChunkEvents(f: FileId, v: FileView, now: int, put: Put): seq<Event>
    requires put.Chunk?
  {
    [Touched(f, now)] +
    (if GoesIn(v, put) then
       [Accepted(f, put.user, put.write.bytes)] +
       (if put.lastChunk.value then [Completed(f, Some(put.id), v.payload + put.write.bytes)] else [])
     else if Heard(v, put) then [Closed(f, Some(put.id))]
     else [])
  }

  lemma ChunkAfterPruning(s: State, now: int, put: Put)
    requires Inv(s) && put.Chunk?
    ensures
      match Target(s.log, put.id)
      case None => AddChunk(s, now, put) == s
      case Some(f) =>
        && f in s.sessions && SessionSound(s.sessions[f], View(s.log, f))
        && f in s.files && s.files[f] == View(s.log, f).payload
        && AddChunk(s, now, put) == Upload(Touch(s, f, now), f, put)
  {
    TargetIsSession(s, put.id);
    if Target(s.log, put.id).Some? {
      assert FileSound(s, Target(s.log, put.id).value);
    }
  }

  lemma UploadEvents(s: State, f: FileId, now: int, put: Put)
    requires put.Chunk? && f in s.sessions && f in s.files
    requires s.files[f] == View(s.log, f).payload && SessionSound(s.sessions[f], View(s.log, f))
    ensures Upload(Touch(s, f, now), f, put).log == s.log + ChunkEvents(f, View(s.log, f), now, put)
  {
  }

  lemma UploadFiles(s: State, f: FileId, now: int, put: Put)
    requires put.Chunk? && f in s.sessions && f in s.files
    requires s.files[f] == View(s.log, f).payload && SessionSound(s.sessions[f], View(s.log, f))
    ensures
      var v, files' := View(s.log, f), Upload(Touch(s, f, now), f, put).files;
      && (GoesIn(v, put) ==> files' == s.files[f := v.payload + put.write.bytes])
      && (!Heard(v, put) ==> files' == s.files)
      && files'.Keys == s.files.Keys && forall g :: g in s.files && g != f ==> files'[g] == s.files[g]
  {
  }

  /** What happens to a chunk after any run. */
  lemma ChunkIsExact(files: map<FileId, Bytes>, requests: seq<Request>, now: int, put: Put)
    requires put.Chunk?
    ensures
      var s := Reached(files, requests);
      var begun := Begun(s, now);
      Serve(s, now, put).log ==
        match Target(begun, put.id)
        case None => begun
        case Some(f) => begun + ChunkEvents(f, View(begun, f), now, put)
  {
    var s := Reached(files, requests);
    var s1 := Prune(s, now);
    AllKeep(files, requests);
    PruneKeeps(s, now);
    ChunkAfterPruning(s1, now, put);
    if Target(s1.log, put.id).Some? {
      UploadEvents(s1, Target(s1.log, put.id).value, now, put);
    }
  }

  /** An accepted chunk is appended to its file; a chunk that is not heard changes no file; and no chunk changes any
      other file. */
  lemma ChunkAndFiles(files: map<FileId, Bytes>, requests: seq<Request>, now: int, put: Put)
    requires put.Chunk?
    ensures
      var s := Reached(files, requests);
      var begun, files' := Begun(s, now), Serve(s, now, put).files;
      match Target(begun, put.id)
      case None => files' == s.files
      case Some(f) =>
        var v := View(begun, f);
        && (GoesIn(v, put) ==> files' == s.files[f := v.payload + put.write.bytes])
        && (!Heard(v, put) ==> files' == s.files)
        && files'.Keys == s.files.Keys && forall g :: g in s.files && g != f ==> files'[g] == s.files[g]
  {
    var s := Reached(files, requests);
    var s1 := Prune(s, now);
    AllKeep(files, requests);
    PruneKeeps(s, now);
    ChunkAfterPruning(s1, now, put);
    if Target(s1.log, put.id).Some? {
      UploadFiles(s1, Target(s1.log, put.id).value, now, put);
    }
  }
}
