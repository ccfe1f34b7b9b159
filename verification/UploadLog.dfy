/** The history of the upload service, and what it says about each file and each session identifier. */
module UploadLog {
  import opened Common

  const WORD: int := 0x1_0000_0000
  const TIMEOUT_TIME: int := 600

  type Bytes = seq<int>

  datatype FileId = FileId(iNode: int, deviceId: int)

  datatype Transfer = NoTransfer | Binary | Text

  /** What happened, in order, at true times in seconds.
      `Opened`: the file was opened and truncated; without identifier if the session was taken back at once.
      `Touched`: a request reached the session, whatever became of it.
      `Completed`, `Closed`: the session ended, through a request that carried the identifier `via`. */
  datatype Event =
    | Opened(fid: FileId, user: string, transfer: Transfer, id: Option<int>, time: int)
    | Touched(fid: FileId, time: int)
    | Accepted(fid: FileId, user: string, bytes: Bytes)
    | Completed(fid: FileId, via: Option<int>, contents: Bytes)
    | Closed(fid: FileId, via: Option<int>)
    | Expired(time: int, fids: set<FileId>)

  /** The 32-bit unsigned time stamp of a true time. */
  function Stamp(time: int): int {
    time % WORD
  }

  /** timeOutMatcher, on stamps. */
  predicate TimedOut(now: int, lastRequest: int) {
    (now - lastRequest) % WORD >= TIMEOUT_TIME
  }

  // ----- a file's history

  /** A session has been opened on the file and has not ended (`live`), by whom and for what kind of transfer, the
      payloads accepted since that opening, the time of the last request that reached it, and the identifier it
      was given. */
  datatype FileView =
    FileView(live: bool, owner: string, transfer: Transfer, payload: Bytes, touched: int, id: Option<int>)

  function Seen(v: FileView, e: Event, f: FileId): FileView {
    match e
    case Opened(g, user, transfer, id, time) =>
      if g == f then FileView(true, user, transfer, [], time, id) else v
    case Touched(g, time) => if g == f then v.(touched := time) else v
    case Accepted(g, _, bytes) => if g == f then v.(payload := v.payload + bytes) else v
    case Completed(g, _, _) => if g == f then v.(live := false) else v
    case Closed(g, _) => if g == f then v.(live := false) else v
    case Expired(_, gs) => if f in gs then v.(live := false) else v
  }

  function View(log: seq<Event>, f: FileId): FileView
    decreases |log|
  {
    if log == [] then FileView(false, "", NoTransfer, [], 0, None)
    else Seen(View(log[..|log| - 1], f), log[|log| - 1], f)
  }

  predicate Opens(e: Event, f: FileId) {
    e.Opened? && e.fid == f
  }

  predicate Ends(e: Event, f: FileId) {
    if e.Expired? then f in e.fids else (e.Completed? || e.Closed?) && e.fid == f
  }

  /** The n-th event is the file's last opening. */
  ghost predicate LastOpenedAt(log: seq<Event>, f: FileId, n: nat) {
    n < |log| && Opens(log[n], f) && forall m :: n < m < |log| ==> !Opens(log[m], f)
  }

  /** The payloads accepted for the file, in order. */
  function Chunks(log: seq<Event>, f: FileId): seq<Bytes>
    decreases |log|
  {
    if log == [] then []
    else
      var e := log[|log| - 1];
      Chunks(log[..|log| - 1], f) + if e.Accepted? && e.fid == f then [e.bytes] else []
  }

  lemma {:induction false} ChunksSince(log: seq<Event>, f: FileId, n: nat)
    requires n < |log| - 1
    ensures
      var last := |log| - 1;
      var before, e := Chunks(log[..last][n + 1..], f), log[last];
      Chunks(log[n + 1..], f) == before + (if e.Accepted? && e.fid == f then [e.bytes] else [])
  {
    var last := |log| - 1;
    assert log[n + 1..][..last - n - 1] == log[..last][n + 1..];
  }

  /** The payload is the join of the chunks accepted since the file's last opening. */
  lemma {:induction false} PayloadSinceOpening(log: seq<Event>, f: FileId, n: nat)
    requires LastOpenedAt(log, f, n)
    ensures View(log, f).payload == Concat(Chunks(log[n + 1..], f))
    decreases |log|
  {
    var last := |log| - 1;
    if n == last {
      assert log[n + 1..] == [];
    } else {
      var e := log[last];
      PayloadSinceOpening(log[..last], f, n);
      ChunksSince(log, f, n);
      if e.Accepted? && e.fid == f {
        ConcatOneMore(Chunks(log[..last][n + 1..], f), e.bytes);
      } else {
        assert Chunks(log[n + 1..], f) == Chunks(log[..last][n + 1..], f);
      }
    }
  }

  /** Owner, kind of transfer and identifier are those of the last opening, and the session is live unless an event
      since has ended it. */
  lemma {:induction false} ViewSinceOpening(log: seq<Event>, f: FileId, n: nat)
    requires LastOpenedAt(log, f, n)
    ensures
      var v := View(log, f);
      && v.owner == log[n].user && v.transfer == log[n].transfer && v.id == log[n].id
      && (v.live <==> forall m :: n < m < |log| ==> !Ends(log[m], f))
    decreases |log|
  {
    var last := |log| - 1;
    if n < last {
      var before := log[..last];
      assert forall m :: 0 <= m < last ==> before[m] == log[m];
      ViewSinceOpening(before, f, n);
      assert !Opens(log[last], f);
      assert View(log, f).live <==> View(before, f).live && !Ends(log[last], f);
    }
  }

  predicate Reaches(e: Event, f: FileId) {
    (e.Opened? || e.Touched?) && e.fid == f
  }

  /** The last request that reached a file's session, and files that none has reached. */
  lemma {:induction false} TouchedLast(log: seq<Event>, f: FileId)
    ensures forall n :: 0 <= n < |log| && Reaches(log[n], f) && (forall m :: n < m < |log| ==> !Reaches(log[m], f)) ==>
      View(log, f).touched == log[n].time
    ensures (forall n :: 0 <= n < |log| ==> !Opens(log[n], f)) ==> !View(log, f).live
    decreases |log|
  {
    if log != [] {
      var before, last := log[..|log| - 1], |log| - 1;
      assert forall m :: 0 <= m < last ==> before[m] == log[m];
      TouchedLast(before, f);
    }
  }

  // ----- an identifier's history

  /** The file the identifier leads to now, the file it was last issued for, and the number of that issue. */
  datatype IdView = IdView(leads: Option<FileId>, issuedFor: Option<FileId>, number: nat)

  predicate Issues(e: Event, id: int) {
    e.Opened? && e.id == Some(id)
  }

  predicate EndsVia(e: Event, id: int) {
    (e.Completed? || e.Closed?) && e.via == Some(id)
  }

  function IdSeen(v: IdView, e: Event, id: int, issues: nat): IdView {
    if Issues(e, id) then IdView(Some(e.fid), Some(e.fid), issues)
    else if EndsVia(e, id) then v.(leads := None)
    else v
  }

  function ViewId(log: seq<Event>, id: int): IdView
    decreases |log|
  {
    if log == [] then IdView(None, None, 0)
    else IdSeen(ViewId(log[..|log| - 1], id), log[|log| - 1], id, IssueCount(log[..|log| - 1]))
  }

  /** The number of identifiers issued. */
  function IssueCount(log: seq<Event>): nat
    decreases |log|
  {
    if log == [] then 0
    else IssueCount(log[..|log| - 1]) + if log[|log| - 1].Opened? && log[|log| - 1].id.Some? then 1 else 0
  }

  /** The counter starts at 1 and wraps. */
  function NextId(log: seq<Event>): int {
    (IssueCount(log) + 1) % WORD
  }

  lemma LogGrows(log: seq<Event>, e: Event)
    ensures forall f :: View(log + [e], f) == Seen(View(log, f), e, f)
    ensures forall id :: ViewId(log + [e], id) == IdSeen(ViewId(log, id), e, id, IssueCount(log))
    ensures IssueCount(log + [e]) == IssueCount(log) + if e.Opened? && e.id.Some? then 1 else 0
  {
    assert (log + [e])[..|log|] == log;
  }

  // ----- what may happen

  /** The event was allowed after the given history. */
  ghost predicate Lawful(before: seq<Event>, e: Event) {
    match e
    case Opened(f, _, _, id, _) => !View(before, f).live && (id.Some? ==> id.value == NextId(before))
    case Touched(f, _) => View(before, f).live
    case Accepted(f, user, _) => View(before, f).live && View(before, f).owner == user
    case Completed(f, via, contents) =>
      View(before, f).live && contents == View(before, f).payload && EndedBy(before, f, via)
    case Closed(f, via) => View(before, f).live && EndedBy(before, f, via)
    case Expired(now, fs) =>
      forall f :: f in fs <==> View(before, f).live && TimedOut(Stamp(now), Stamp(View(before, f).touched))
  }

  ghost predicate EndedBy(before: seq<Event>, f: FileId, via: Option<int>) {
    via.Some? ==> ViewId(before, via.value).leads == Some(f)
  }

  ghost predicate LawfulLog(log: seq<Event>) {
    forall n :: 0 <= n < |log| ==> Lawful(log[..n], log[n])
  }

  lemma LawfulGrows(log: seq<Event>, e: Event)
    requires LawfulLog(log) && Lawful(log, e)
    ensures LawfulLog(log + [e])
  {
    var log' := log + [e];
    forall n | 0 <= n < |log'| ensures Lawful(log'[..n], log'[n]) {
      assert log'[..n] == log[..n];
      assert log[..|log|] == log;
    }
  }

  lemma LawfulPrefix(log: seq<Event>, n: nat)
    requires LawfulLog(log) && n <= |log|
    ensures LawfulLog(log[..n]) && (n < |log| ==> Lawful(log[..n], log[n]))
  {
    forall k | 0 <= k < n ensures Lawful(log[..n][..k], log[..n][k]) {
      assert log[..n][..k] == log[..k];
    }
  }

  lemma LawfulMeans(log: seq<Event>)
    requires LawfulLog(log)
    ensures forall n :: 0 <= n < |log| && log[n].Completed? ==> log[n].contents == View(log[..n], log[n].fid).payload
    ensures forall n :: 0 <= n < |log| && log[n].Opened? ==> !View(log[..n], log[n].fid).live
    ensures forall n :: 0 <= n < |log| && log[n].Accepted? ==>
      View(log[..n], log[n].fid).live && View(log[..n], log[n].fid).owner == log[n].user
  {
  }

  // ----- time-outs

  /** After this much idle time the matcher answers as if it compared true times.  It fails after 2^32 seconds
      or more with a small remainder, and after most set-backs of the clock. */
  predicate StampsSuffice(idle: int) {
    if idle >= 0 then idle < WORD || idle % WORD >= TIMEOUT_TIME
    else (-idle) % WORD == 0 || (-idle) % WORD > WORD - TIMEOUT_TIME
  }

  /** With true times in seconds and 32-bit stamps of them, across any number of wraps. */
  lemma TimeOutIsExact(now: int, last: int)
    ensures (TimedOut(Stamp(now), Stamp(last)) <==> now - last >= TIMEOUT_TIME) <==> StampsSuffice(now - last)
  {
    StampDifference(now, last);
    var idle := now - last;
    if idle < 0 {
      NegativeRemainder(-idle);
    }
  }

  /** A clock set back by one second times the session out; 2^32 idle seconds do not. */
  lemma TimeOutFails(last: int)
    ensures TimedOut(Stamp(last - 1), Stamp(last)) && !StampsSuffice(-1)
    ensures !TimedOut(Stamp(last + WORD), Stamp(last)) && !StampsSuffice(WORD)
  {
    TimeOutIsExact(last - 1, last);
    TimeOutIsExact(last + WORD, last);
  }

  lemma StampDifference(a: int, b: int)
    ensures (a % WORD - b % WORD) % WORD == (a - b) % WORD
  {
    var q := a / WORD - b / WORD;
    assert a - b == WORD * q + (a % WORD - b % WORD);
    SameRemainder(a % WORD - b % WORD, q);
  }

  lemma SameRemainder(x: int, q: int)
    ensures (WORD * q + x) % WORD == x % WORD
  {
  }

  lemma NegativeRemainder(x: int)
    requires x > 0
    ensures (-x) % WORD == if x % WORD == 0 then 0 else WORD - x % WORD
  {
    var q, r := x / WORD, x % WORD;
    assert -x == WORD * (-q - 1) + (WORD - r);
    SameRemainder(WORD - r, -q - 1);
  }

  // ----- identifiers

  /** Live sessions with their identifiers: an identifier leads to the session it was given to exactly unless it
      has been issued again since. */
  lemma {:induction false} LeadsUnlessReissued(log: seq<Event>, f: FileId, id: int)
    requires LawfulLog(log) && View(log, f).live && View(log, f).id == Some(id)
    ensures ViewId(log, id).leads == Some(f) <==> ViewId(log, id).issuedFor == Some(f)
    decreases |log|
  {
    var n := |log| - 1;
    LawfulPrefix(log, n);
    if !(log[n].Opened? && log[n].fid == f) {
      LeadsUnlessReissued(log[..n], f, id);
    }
  }

  lemma {:induction false} IssueNumber(log: seq<Event>, id: int)
    requires LawfulLog(log) && ViewId(log, id).issuedFor.Some?
    ensures ViewId(log, id).number < IssueCount(log) && id == (ViewId(log, id).number + 1) % WORD
    decreases |log|
  {
    var n := |log| - 1;
    LawfulPrefix(log, n);
    if !Issues(log[n], id) {
      IssueNumber(log[..n], id);
    }
  }

  /** Up to 2^32 issues no identifier is issued twice, so that of a live session was issued for its file. */
  lemma {:induction false} IssuedForItsFile(log: seq<Event>, f: FileId, id: int)
    requires LawfulLog(log) && View(log, f).live && View(log, f).id == Some(id) && IssueCount(log) <= WORD
    ensures ViewId(log, id).issuedFor == Some(f)
    decreases |log|
  {
    var n := |log| - 1;
    LawfulPrefix(log, n);
    if !(log[n].Opened? && log[n].fid == f) {
      IssuedForItsFile(log[..n], f, id);
      IssueNumber(log[..n], id);
      if Issues(log[n], id) {
        DistinctIds(ViewId(log[..n], id).number, IssueCount(log[..n]));
      }
    }
  }

  lemma DistinctIds(a: nat, b: nat)
    requires a < b < WORD
    ensures (a + 1) % WORD != (b + 1) % WORD
  {
  }

  /** The n-th event issues the identifier for the file, and none after it issues the identifier again or ends
      a session through it. */
  ghost predicate LastIssuedAt(log: seq<Event>, id: int, f: FileId, n: nat) {
    && n < |log| && Issues(log[n], id) && log[n].fid == f
    && forall m :: n < m < |log| ==> !Issues(log[m], id) && !EndsVia(log[m], id)
  }

  lemma {:induction false} LeadsSinceIssue(log: seq<Event>, id: int, f: FileId)
    ensures ViewId(log, id).leads == Some(f) <==> exists n: nat :: LastIssuedAt(log, id, f, n)
    decreases |log|
  {
    if log != [] {
      var before, last := log[..|log| - 1], |log| - 1;
      LeadsSinceIssue(before, id, f);
      if Issues(log[last], id) {
        assert log[last].fid == f ==> LastIssuedAt(log, id, f, last);
      } else if !EndsVia(log[last], id) {
        forall n: nat ensures LastIssuedAt(log, id, f, n) <==> LastIssuedAt(before, id, f, n) {
          assert forall m :: 0 <= m < last ==> log[m] == before[m];
        }
      }
    }
  }

  /** The file is opened again after the n-th event. */
  ghost predicate OpenedAfter(log: seq<Event>, f: FileId, n: nat) {
    exists m :: n < m < |log| && log[m].Opened? && log[m].fid == f
  }

  lemma {:induction false} SameSession(log: seq<Event>, f: FileId, id: int, n: nat)
    requires LastIssuedAt(log, id, f, n)
    ensures View(log, f).id == Some(id) <==> !OpenedAfter(log, f, n)
    decreases |log|
  {
    var last := |log| - 1;
    if n < last {
      var before := log[..last];
      assert forall m :: 0 <= m < last ==> before[m] == log[m];
      SameSession(before, f, id, n);
      assert OpenedAfter(log, f, n) <==> OpenedAfter(before, f, n) || (log[last].Opened? && log[last].fid == f);
    }
  }
}
