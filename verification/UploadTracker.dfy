/** The upload service as the code has it: two tables and a counter, changed in place request by request. */
module UploadTracker {
  import opened Common
  import opened UploadLog
  import opened UploadSessions

  /** UploadSessionTracker, together with the file system it writes to.  `log` is the history. */
  class Tracker {
    var sessionsByFileId: map<FileId, Session>
    var fileIdsBySessionId: map<int, FileId>
    var sessionCounter: int
    var files: map<FileId, Bytes>
    ghost var log: seq<Event>

    ghost function Abs(): State
      reads this
    {
      State(sessionsByFileId, fileIdsBySessionId, sessionCounter, files, log)
    }

    constructor (files: map<FileId, Bytes>)
      ensures Abs() == Fresh(files)
    {
      sessionsByFileId, fileIdsBySessionId, sessionCounter := map[], map[], 1;
      this.files := files;
      log := [];
    }

    /** removeSessionTimeOuts: visits every session once. */
    method RemoveSessionTimeOuts(currUnixTime: int, ghost now: int)
      requires currUnixTime == Stamp(now)
      modifies this
      ensures Abs() == Prune(old(Abs()), now)
    {
      ghost var was := sessionsByFileId;
      ghost var gone := TimedOutFiles(Abs(), now);
      var todo := sessionsByFileId.Keys;
      while todo != {}
        invariant todo <= was.Keys
        invariant fileIdsBySessionId == old(fileIdsBySessionId) && sessionCounter == old(sessionCounter)
        invariant files == old(files) && log == old(log)
        invariant sessionsByFileId == was - (gone - todo)
        decreases |todo|
      {
        var f :| f in todo;
        if TimedOut(currUnixTime, sessionsByFileId[f].lastRequest) {
          sessionsByFileId := sessionsByFileId - {f};
        }
        todo := todo - {f};
      }
      log := log + [Expired(now, gone)];
    }

    method AssignSessionId(currUnixTime: int, put: Put, ghost now: int)
      requires currUnixTime == Stamp(now) && put.Open?
      modifies this
      ensures Abs() == Assign(old(Abs()), now, put)
    {
      if put.transfer.None? {
        return;
      }
      if put.fid in files && !put.force {
        return;
      }
      if put.fid !in files {
        if !put.createOk {
          return;
        }
        files := files[put.fid := []];
      }
      if put.fid in sessionsByFileId {
        return;
      }
      StartSession(currUnixTime, put, now);
    }

    /** The second half of assignSessionIDToCaller: the session is entered first and taken back if the file
        cannot be opened or tagged. */
    method StartSession(currUnixTime: int, put: Put, ghost now: int)
      requires currUnixTime == Stamp(now) && put.Open? && put.transfer.Some?
      requires put.fid in files && put.fid !in sessionsByFileId
      modifies this
      ensures !put.openOk ==> Abs() == old(Abs())
      ensures put.openOk && !put.tagOk ==> Abs() == OpenInVain(old(Abs()), now, put.fid, put.user, put.transfer.value)
      ensures put.openOk && put.tagOk ==> Abs() == OpenSession(old(Abs()), now, put.fid, put.user, put.transfer.value)
    {
      sessionsByFileId := sessionsByFileId[put.fid := Session(currUnixTime, 0, put.transfer.value, "")];
      if !put.openOk {
        sessionsByFileId := sessionsByFileId - {put.fid};
        assert sessionsByFileId == old(sessionsByFileId);
        return;
      }
      files := files[put.fid := []];
      if !put.tagOk {
        sessionsByFileId := sessionsByFileId - {put.fid};
        assert sessionsByFileId == old(sessionsByFileId);
        log := log + [Opened(put.fid, put.user, put.transfer.value, None, now)] + [Closed(put.fid, None)];
        return;
      }
      log := log + [Opened(put.fid, put.user, put.transfer.value, Some(sessionCounter), now)];
      AddSessionId(put.fid);
      sessionsByFileId := sessionsByFileId[put.fid := sessionsByFileId[put.fid].(user := put.user)];
    }

    /** addSessionIDToTableAndIncrementCounter. */
    method AddSessionId(fid: FileId)
      requires fid in sessionsByFileId
      modifies this
      ensures files == old(files) && log == old(log)
      ensures fileIdsBySessionId == old(fileIdsBySessionId)[old(sessionCounter) := fid]
      ensures sessionsByFileId ==
        old(sessionsByFileId)[fid := old(sessionsByFileId)[fid].(sessionId := old(sessionCounter))]
      ensures sessionCounter == (old(sessionCounter) + 1) % WORD
    {
      fileIdsBySessionId := fileIdsBySessionId[sessionCounter := fid];
      sessionsByFileId := sessionsByFileId[fid := sessionsByFileId[fid].(sessionId := sessionCounter)];
      sessionCounter := (sessionCounter + 1) % WORD;
    }

    method DoChunking(currUnixTime: int, put: Put, ghost now: int)
      requires currUnixTime == Stamp(now) && put.Chunk?
      modifies this
      ensures Abs() == AddChunk(old(Abs()), now, put)
    {
      if put.id !in fileIdsBySessionId {
        return;
      }
      var fid := fileIdsBySessionId[put.id];
      if fid !in sessionsByFileId {
        return;
      }
      sessionsByFileId := sessionsByFileId[fid := sessionsByFileId[fid].(lastRequest := currUnixTime)];
      log := log + [Touched(fid, now)];
      WriteChunk(fid, put);
    }

    /** The rest of doChunking: user, parameter, write and answer. */
    method WriteChunk(fid: FileId, put: Put)
      requires put.Chunk? && fid in sessionsByFileId
      modifies this
      ensures Abs() == Upload(old(Abs()), fid, put)
    {
      var session := sessionsByFileId[fid];
      if put.user != session.user {
        return;
      }
      if put.lastChunk.None? {
        return;
      }
      var ok := false;
      if !session.transfer.NoTransfer? {
        var before := if fid in files then files[fid] else [];
        match put.write {
          case Written(bytes) =>
            files := files[fid := before + bytes];
            log := log + [Accepted(fid, put.user, bytes)];
            ok := true;
          case Failed(part) =>
            files := files[fid := before + part];
        }
      }
      if ok && !put.lastChunk.value {
        return;
      }
      sessionsByFileId := sessionsByFileId - {fid};
      fileIdsBySessionId := fileIdsBySessionId - {put.id};
      log := log + [if ok then Completed(fid, Some(put.id), files[fid]) else Closed(fid, Some(put.id))];
    }

    /** serveUnixFileContents for PUT: one look at the clock, cut down to a word. */
    method ServePut(now: int, put: Put)
      modifies this
      ensures Abs() == Serve(old(Abs()), now, put)
    {
      var currUnixTime := now % WORD;
      RemoveSessionTimeOuts(currUnixTime, now);
      if put.Open? {
        AssignSessionId(currUnixTime, put, now);
      } else {
        DoChunking(currUnixTime, put, now);
      }
    }
  }
}
