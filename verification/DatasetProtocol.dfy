/** Optimistic update of one dataset by any number of clients.  Readers hold a shared allocation, updaters
    an exclusive one; both work record by record, and any of them may break off at any point. */
module DatasetProtocol {
  import opened Common
  import opened DatasetRecords

  type Client = nat

  datatype Allocation = Free | Shared(readers: set<Client>) | Exclusive(writer: Client)

  /** An update request. */
  datatype Request = Request(etag: Option<string>, force: bool, records: seq<Bytes>)

  datatype Phase =
    | Reading(read: nat, digested: Bytes)                                     // streamDataset's loop
    | Comparing(req: Request, read: nat, digested: Bytes)                     // getDatasetETag's loop
    | Approved(req: Request)                                                  // forced, or the etags agree
    | Writing(req: Request, before: Bytes, written: nat, digested: Bytes)     // after the truncating open
    | Finishing                                                               // only the allocation is left

  /** An etag handed to a client, and the bytes it was computed for. */
  datatype Issue = Issue(etag: string, bytes: Bytes)

  /** A write that began, with the bytes it replaced and left.  `complete` is false if it broke off. */
  datatype Update = Update(req: Request, before: Bytes, after: Bytes, complete: bool)

  /** `isFixed` and `max` are the dataset's attributes; `issued` and `updates` are the history. */
  datatype State = State(
    content: seq<Bytes>,
    isFixed: bool,
    max: nat,
    alloc: Allocation,
    phases: map<Client, Phase>,
    issued: seq<Issue>,
    updates: seq<Update>)

  datatype Action =
    | AllocShared(c: Client)
    | ReadRecord(c: Client)
    | ReadDone(c: Client)
    | AllocExclusive(c: Client, req: Request)
    | CompareRecord(c: Client)
    | CompareDone(c: Client)
    | OpenForWrite(c: Client)
    | WriteRecord(c: Client)
    | WriteDone(c: Client)
    | BreakOff(c: Client)
    | Unalloc(c: Client)

  predicate In(s: State, c: Client) {
    c in s.phases
  }

  predicate Enabled(s: State, act: Action) {
    match act
    case AllocShared(c) => !In(s, c) && !s.alloc.Exclusive?
    case ReadRecord(c) => In(s, c) && s.phases[c].Reading? && s.phases[c].read < |s.content|
    case ReadDone(c) => In(s, c) && s.phases[c].Reading? && s.phases[c].read == |s.content|
    case AllocExclusive(c, req) => !In(s, c) && s.alloc.Free? && (req.etag.Some? || req.force)
    case CompareRecord(c) => In(s, c) && s.phases[c].Comparing? && s.phases[c].read < |s.content|
    case CompareDone(c) => In(s, c) && s.phases[c].Comparing? && s.phases[c].read == |s.content|
    case OpenForWrite(c) => In(s, c) && s.phases[c].Approved? && s.max > 0 && AllFit(s.phases[c].req.records, s.max)
    case WriteRecord(c) =>
      && In(s, c) && s.phases[c].Writing? && s.phases[c].written < |s.phases[c].req.records|
      && s.max > 0 && AllFit(s.phases[c].req.records, s.max)
    case WriteDone(c) => In(s, c) && s.phases[c].Writing? && s.phases[c].written == |s.phases[c].req.records|
    case BreakOff(c) => In(s, c)
    case Unalloc(c) => In(s, c) && s.phases[c].Finishing?
  }

  /** The allocation without one of its holders. */
  function Without(alloc: Allocation, c: Client): Allocation {
    match alloc
    case Free => Free
    case Exclusive(w) => if w == c then Free else alloc
    case Shared(rs) => if rs - {c} == {} then Free else Shared(rs - {c})
  }

  function To(s: State, c: Client, phase: Phase): State {
    s.(phases := s.phases[c := phase])
  }

  function Leave(s: State, c: Client): State {
    s.(phases := s.phases - {c}, alloc := Without(s.alloc, c))
  }

  function Apply(s: State, act: Action, digest: Digest): State
    requires Enabled(s, act)
  {
    match act
    case AllocShared(c) =>
      To(s, c, Reading(0, [])).(alloc := if s.alloc.Shared? then Shared(s.alloc.readers + {c}) else Shared({c}))
    case ReadRecord(c) =>
      var p := s.phases[c];
      To(s, c, Reading(p.read + 1, p.digested + s.content[p.read]))
    case ReadDone(c) =>
      To(s, c, Finishing).(issued := s.issued + [Issue(digest(s.phases[c].digested), Concat(s.content))])
    case AllocExclusive(c, req) =>
      To(s, c, if req.force then Approved(req) else Comparing(req, 0, [])).(alloc := Exclusive(c))
    case CompareRecord(c) =>
      var p := s.phases[c];
      To(s, c, Comparing(p.req, p.read + 1, p.digested + s.content[p.read]))
    case CompareDone(c) =>
      var p := s.phases[c];
      To(s, c, if Some(digest(p.digested)) == p.req.etag then Approved(p.req) else Finishing)
    case OpenForWrite(c) =>
      To(s, c, Writing(s.phases[c].req, Concat(s.content), 0, [])).(content := [])
    case WriteRecord(c) =>
      var p := s.phases[c];
      var r := Stored(p.req.records[p.written], s.isFixed, s.max);
      To(s, c, Writing(p.req, p.before, p.written + 1, p.digested + r)).(content := s.content + [r])
    case WriteDone(c) =>
      var p := s.phases[c];
      To(s, c, Finishing).(issued := s.issued + [Issue(digest(p.digested), Concat(s.content))],
                           updates := s.updates + [Update(p.req, p.before, Concat(s.content), true)])
    case BreakOff(c) =>
      var p := s.phases[c];
      var updates := if p.Writing? then s.updates + [Update(p.req, p.before, Concat(s.content), false)] else s.updates;
      Leave(s, c).(updates := updates)
    case Unalloc(c) => Leave(s, c)
  }

  // ----- the invariant

  /** The allocation and the phases agree: a writer is alone, readers only read. */
  ghost predicate Serialised(s: State) {
    && (s.alloc.Free? ==> s.phases == map[])
    && (s.alloc.Exclusive? ==> s.phases.Keys == {s.alloc.writer})
    && (s.alloc.Shared? ==> s.phases.Keys == s.alloc.readers)
    && (forall c :: c in s.phases && !s.phases[c].Reading? && !s.phases[c].Finishing? ==> s.alloc == Exclusive(c))
  }

  ghost predicate PhaseSound(s: State, phase: Phase, digest: Digest) {
    match phase
    case Reading(k, d) => k <= |s.content| && d == Concat(s.content[..k])
    case Comparing(req, k, d) => !req.force && k <= |s.content| && d == Concat(s.content[..k])
    case Approved(req) => !req.force ==> req.etag == Some(digest(Concat(s.content)))
    case Writing(req, before, k, d) =>
      && (!req.force ==> req.etag == Some(digest(before)))
      && k <= |req.records| && s.max > 0 && AllFit(req.records, s.max)
      && s.content == StoredAll(req.records[..k], s.isFixed, s.max) && d == Concat(s.content)
    case Finishing => true
  }

  ghost predicate IssueSound(i: Issue, digest: Digest) {
    i.etag == digest(i.bytes)
  }

  ghost predicate UpdateSound(u: Update, isFixed: bool, max: nat, digest: Digest) {
    && (!u.req.force ==> u.req.etag == Some(digest(u.before)))
    && (u.complete ==>
         && max > 0 && AllFit(u.req.records, max)
         && u.after == Concat(StoredAll(u.req.records, isFixed, max)))
  }

  /** Each write found what the previous one left, and the dataset holds what the last one left. */
  ghost predicate Chained(s: State, origin: Bytes) {
    && (forall k :: 0 < k < |s.updates| ==> s.updates[k].before == s.updates[k - 1].after)
    && (s.updates != [] ==> s.updates[0].before == origin)
    && var last := if s.updates == [] then origin else s.updates[|s.updates| - 1].after;
       if s.alloc.Exclusive? && s.alloc.writer in s.phases && s.phases[s.alloc.writer].Writing?
       then s.phases[s.alloc.writer].before == last
       else Concat(s.content) == last
  }

  ghost predicate Inv(s: State, origin: Bytes, digest: Digest) {
    && Serialised(s)
    && (forall c :: c in s.phases ==> PhaseSound(s, s.phases[c], digest))
    && (forall k :: 0 <= k < |s.issued| ==> IssueSound(s.issued[k], digest))
    && (forall k :: 0 <= k < |s.updates| ==> UpdateSound(s.updates[k], s.isFixed, s.max, digest))
    && Chained(s, origin)
  }

  lemma {:induction false} ReadMore(content: seq<Bytes>, k: nat)
    requires k < |content|
    ensures Concat(content[..k + 1]) == Concat(content[..k]) + content[k]
  {
    assert content[..k + 1][..k] == content[..k];
  }

  lemma {:induction false} AllocSharedKeeps(s: State, c: Client, origin: Bytes, digest: Digest)
    requires Inv(s, origin, digest) && Enabled(s, AllocShared(c))
    ensures Inv(Apply(s, AllocShared(c), digest), origin, digest)
  {
  }

  /** A reader moves on; everybody else stays. */
  lemma {:induction false} ReaderMoves(s: State, s': State, c: Client, origin: Bytes, digest: Digest)
    requires Inv(s, origin, digest) && c in s.phases && s.phases[c].Reading?
    requires c in s'.phases && s' == To(s, c, s'.phases[c]).(issued := s'.issued)
    requires (s'.phases[c].Reading? || s'.phases[c].Finishing?) && PhaseSound(s', s'.phases[c], digest)
    ensures Serialised(s') && Chained(s', origin)
    ensures forall d :: d in s'.phases ==> PhaseSound(s', s'.phases[d], digest)
  {
    assert s'.phases.Keys == s.phases.Keys;
    forall d | d in s'.phases ensures PhaseSound(s', s'.phases[d], digest) {
      assert d != c ==> PhaseSound(s, s.phases[d], digest);
    }
  }

  lemma {:induction false} ReadRecordPhase(s: State, c: Client, digest: Digest)
    requires Enabled(s, ReadRecord(c)) && PhaseSound(s, s.phases[c], digest)
    ensures
      var s' := Apply(s, ReadRecord(c), digest);
      PhaseSound(s', s'.phases[c], digest)
  {
    ReadMore(s.content, s.phases[c].read);
  }

  lemma {:induction false} ReadRecordKeeps(s: State, c: Client, origin: Bytes, digest: Digest)
    requires Inv(s, origin, digest) && Enabled(s, ReadRecord(c))
    ensures Inv(Apply(s, ReadRecord(c), digest), origin, digest)
  {
    ReadRecordPhase(s, c, digest);
    ReaderMoves(s, Apply(s, ReadRecord(c), digest), c, origin, digest);
  }

  lemma {:induction false} ReadDoneKeeps(s: State, c: Client, origin: Bytes, digest: Digest)
    requires Inv(s, origin, digest) && Enabled(s, ReadDone(c))
    ensures Inv(Apply(s, ReadDone(c), digest), origin, digest)
  {
    assert PhaseSound(s, s.phases[c], digest);
    assert s.content[..|s.content|] == s.content;
    ReaderMoves(s, Apply(s, ReadDone(c), digest), c, origin, digest);
  }

  /** A step of the only client there is. */
  lemma {:induction false} AloneKeeps(s: State, s': State, c: Client, digest: Digest)
    requires Serialised(s) && s.alloc == Exclusive(c)
    requires s'.alloc == s.alloc && c in s'.phases && s'.phases == s.phases[c := s'.phases[c]]
    requires PhaseSound(s', s'.phases[c], digest)
    ensures Serialised(s') && forall d :: d in s'.phases ==> PhaseSound(s', s'.phases[d], digest)
  {
    assert s'.phases.Keys == {c};
  }

  lemma {:induction false} AllocExclusiveKeeps(s: State, c: Client, req: Request, origin: Bytes, digest: Digest)
    requires Inv(s, origin, digest) && Enabled(s, AllocExclusive(c, req))
    ensures Inv(Apply(s, AllocExclusive(c, req), digest), origin, digest)
  {
    assert s.content[..0] == [];
  }

  lemma {:induction false} CompareRecordKeeps(s: State, c: Client, origin: Bytes, digest: Digest)
    requires Inv(s, origin, digest) && Enabled(s, CompareRecord(c))
    ensures Inv(Apply(s, CompareRecord(c), digest), origin, digest)
  {
    assert PhaseSound(s, s.phases[c], digest);
    ReadMore(s.content, s.phases[c].read);
    AloneKeeps(s, Apply(s, CompareRecord(c), digest), c, digest);
  }

  lemma {:induction false} CompareDoneKeeps(s: State, c: Client, origin: Bytes, digest: Digest)
    requires Inv(s, origin, digest) && Enabled(s, CompareDone(c))
    ensures Inv(Apply(s, CompareDone(c), digest), origin, digest)
  {
    assert PhaseSound(s, s.phases[c], digest);
    assert s.content[..|s.content|] == s.content;
    AloneKeeps(s, Apply(s, CompareDone(c), digest), c, digest);
  }

  lemma {:induction false} OpenKeeps(s: State, c: Client, origin: Bytes, digest: Digest)
    requires Inv(s, origin, digest) && Enabled(s, OpenForWrite(c))
    ensures Inv(Apply(s, OpenForWrite(c), digest), origin, digest)
  {
    var s' := Apply(s, OpenForWrite(c), digest);
    assert PhaseSound(s, s.phases[c], digest);
    assert s.phases[c].req.records[..0] == [];
    AloneKeeps(s, s', c, digest);
  }

  lemma {:induction false} WriteRecordPhase(s: State, c: Client, digest: Digest)
    requires Enabled(s, WriteRecord(c)) && PhaseSound(s, s.phases[c], digest)
    ensures
      var s' := Apply(s, WriteRecord(c), digest);
      PhaseSound(s', s'.phases[c], digest)
  {
    var p := s.phases[c];
    OneMore(p.req.records, s.isFixed, s.max, p.written);
    ConcatOneMore(s.content, Stored(p.req.records[p.written], s.isFixed, s.max));
  }

  lemma {:induction false} WriteRecordKeeps(s: State, c: Client, origin: Bytes, digest: Digest)
    requires Inv(s, origin, digest) && Enabled(s, WriteRecord(c))
    ensures Inv(Apply(s, WriteRecord(c), digest), origin, digest)
  {
    var s' := Apply(s, WriteRecord(c), digest);
    WriteRecordPhase(s, c, digest);
    WritingGoesOn(s, s', c, origin);
    AloneKeeps(s, s', c, digest);
  }

  /** While a write goes on, what it replaced stays the end of the chain. */
  lemma {:induction false} WritingGoesOn(s: State, s': State, c: Client, origin: Bytes)
    requires Chained(s, origin) && s.alloc == s'.alloc == Exclusive(c) && s'.updates == s.updates
    requires c in s.phases && c in s'.phases && s.phases[c].Writing? && s'.phases[c].Writing?
    requires s'.phases[c].before == s.phases[c].before
    ensures Chained(s', origin)
  {
  }

  /** The history after a write has ended, complete or not. */
  lemma {:induction false} HistoryGrows(s: State, s': State, c: Client, u: Update, origin: Bytes, digest: Digest)
    requires Inv(s, origin, digest) && c in s.phases && s.phases[c].Writing?
    requires s'.updates == s.updates + [u] && s'.content == s.content && s'.isFixed == s.isFixed && s'.max == s.max
    requires u.req == s.phases[c].req && u.before == s.phases[c].before && u.after == Concat(s.content)
    requires u.complete ==> s.phases[c].written == |s.phases[c].req.records|
    requires c in s'.phases ==> !s'.phases[c].Writing?
    requires s'.alloc == s.alloc || s'.alloc.Free?
    ensures Chained(s', origin)
    ensures forall k :: 0 <= k < |s'.updates| ==> UpdateSound(s'.updates[k], s'.isFixed, s'.max, digest)
  {
    var p := s.phases[c];
    assert PhaseSound(s, p, digest);
    assert u.complete ==> p.req.records[..p.written] == p.req.records;
  }

  lemma {:induction false} WriteDoneKeeps(s: State, c: Client, origin: Bytes, digest: Digest)
    requires Inv(s, origin, digest) && Enabled(s, WriteDone(c))
    ensures Inv(Apply(s, WriteDone(c), digest), origin, digest)
  {
    var s' := Apply(s, WriteDone(c), digest);
    assert PhaseSound(s, s.phases[c], digest);
    HistoryGrows(s, s', c, s'.updates[|s.updates|], origin, digest);
    AloneKeeps(s, s', c, digest);
    IssuesGrow(s.issued, s'.issued[|s.issued|], digest);
  }

  lemma {:induction false} IssuesGrow(issued: seq<Issue>, i: Issue, digest: Digest)
    requires (forall k :: 0 <= k < |issued| ==> IssueSound(issued[k], digest)) && IssueSound(i, digest)
    ensures forall k :: 0 <= k < |issued + [i]| ==> IssueSound((issued + [i])[k], digest)
  {
  }

  lemma {:induction false} LeavingKeepsOrder(s: State, s': State, c: Client, digest: Digest)
    requires Serialised(s) && c in s.phases && s'.phases == s.phases - {c} && s'.alloc == Without(s.alloc, c)
    requires forall d :: d in s.phases ==> PhaseSound(s, s.phases[d], digest)
    requires s'.content == s.content && s'.isFixed == s.isFixed && s'.max == s.max
    ensures Serialised(s') && forall d :: d in s'.phases ==> PhaseSound(s', s'.phases[d], digest)
  {
    assert s'.phases.Keys == s.phases.Keys - {c};
    assert s'.phases.Keys == {} ==> s'.phases == map[];
    forall d | d in s'.phases ensures PhaseSound(s', s'.phases[d], digest) {
      assert PhaseSound(s, s.phases[d], digest);
    }
  }

  lemma {:induction false} BreakOffKeeps(s: State, c: Client, origin: Bytes, digest: Digest)
    requires Inv(s, origin, digest) && Enabled(s, BreakOff(c))
    ensures Inv(Apply(s, BreakOff(c), digest), origin, digest)
  {
    var s' := Apply(s, BreakOff(c), digest);
    LeavingKeepsOrder(s, s', c, digest);
    if s.phases[c].Writing? {
      HistoryGrows(s, s', c, s'.updates[|s.updates|], origin, digest);
    }
  }

  lemma {:induction false} UnallocKeeps(s: State, c: Client, origin: Bytes, digest: Digest)
    requires Inv(s, origin, digest) && Enabled(s, Unalloc(c))
    ensures Inv(Apply(s, Unalloc(c), digest), origin, digest)
  {
    LeavingKeepsOrder(s, Apply(s, Unalloc(c), digest), c, digest);
  }

  lemma {:induction false} StepKeeps(s: State, act: Action, origin: Bytes, digest: Digest)
    requires Inv(s, origin, digest) && Enabled(s, act)
    ensures Inv(Apply(s, act, digest), origin, digest)
  {
    match act
    case AllocShared(c) => AllocSharedKeeps(s, c, origin, digest);
    case ReadRecord(c) => ReadRecordKeeps(s, c, origin, digest);
    case ReadDone(c) => ReadDoneKeeps(s, c, origin, digest);
    case AllocExclusive(c, req) => AllocExclusiveKeeps(s, c, req, origin, digest);
    case CompareRecord(c) => CompareRecordKeeps(s, c, origin, digest);
    case CompareDone(c) => CompareDoneKeeps(s, c, origin, digest);
    case OpenForWrite(c) => OpenKeeps(s, c, origin, digest);
    case WriteRecord(c) => WriteRecordKeeps(s, c, origin, digest);
    case WriteDone(c) => WriteDoneKeeps(s, c, origin, digest);
    case BreakOff(c) => BreakOffKeeps(s, c, origin, digest);
    case Unalloc(c) => UnallocKeeps(s, c, origin, digest);
  }

  // ----- runs

  ghost function Exec(s: State, acts: seq<Action>, digest: Digest): Option<State>
    decreases |acts|
  {
    if acts == [] then Some(s)
    else
      match Exec(s, acts[..|acts| - 1], digest)
      case None => None
      case Some(m) => if Enabled(m, acts[|acts| - 1]) then Some(Apply(m, acts[|acts| - 1], digest)) else None
  }

  ghost predicate Quiet(s: State) {
    s.alloc.Free? && s.phases == map[] && s.issued == [] && s.updates == []
  }

  lemma {:induction false} RunKeeps(s: State, acts: seq<Action>, digest: Digest)
    requires Quiet(s) && Exec(s, acts, digest).Some?
    ensures Inv(Exec(s, acts, digest).value, Concat(s.content), digest)
    decreases |acts|
  {
    if acts != [] {
      var before := acts[..|acts| - 1];
      RunKeeps(s, before, digest);
      StepKeeps(Exec(s, before, digest).value, acts[|acts| - 1], Concat(s.content), digest);
    }
  }

  /** No lost updates.  In every interleaving, every unforced write, complete or broken off, replaced
      exactly the bytes for which its etag had been issued, by whichever read or write issued it. */
  lemma {:induction false} NoLostUpdates(s: State, acts: seq<Action>, digest: Digest)
    requires Quiet(s) && Exec(s, acts, digest).Some? && Injective(digest)
    ensures
      var e := Exec(s, acts, digest).value;
      forall u, i ::
        (0 <= u < |e.updates| && 0 <= i < |e.issued|
         && !e.updates[u].req.force && e.updates[u].req.etag == Some(e.issued[i].etag)) ==>
        e.updates[u].before == e.issued[i].bytes
  {
    RunKeeps(s, acts, digest);
    var e := Exec(s, acts, digest).value;
    forall u, i | 0 <= u < |e.updates| && 0 <= i < |e.issued| && !e.updates[u].req.force
      && e.updates[u].req.etag == Some(e.issued[i].etag)
      ensures e.updates[u].before == e.issued[i].bytes
    {
      assert UpdateSound(e.updates[u], e.isFixed, e.max, digest) && IssueSound(e.issued[i], digest);
    }
  }

  /** Two unforced writes with one etag: the second can only have happened if some write from the first on
      put back the bytes the first had replaced. */
  lemma {:induction false} SecondWriterMustFindBase(s: State, acts: seq<Action>, digest: Digest, u: nat, v: nat)
    requires Quiet(s) && Exec(s, acts, digest).Some? && Injective(digest)
    requires u < v < |Exec(s, acts, digest).value.updates|
    requires
      var us := Exec(s, acts, digest).value.updates;
      !us[u].req.force && !us[v].req.force && us[u].req.etag == us[v].req.etag
    ensures
      var us := Exec(s, acts, digest).value.updates;
      exists k :: u <= k < v && us[k].after == us[u].before
  {
    RunKeeps(s, acts, digest);
    var e := Exec(s, acts, digest).value;
    var us := e.updates;
    assert UpdateSound(us[u], e.isFixed, e.max, digest) && UpdateSound(us[v], e.isFixed, e.max, digest);
    assert us[v].before == us[v - 1].after;
  }

  /** The etag a write hands out is the digest of exactly the records it stored. */
  lemma {:induction false} WriteIssuesItsRecords(s: State, acts: seq<Action>, digest: Digest, c: Client)
    requires Quiet(s) && Exec(s, acts, digest).Some?
    requires Enabled(Exec(s, acts, digest).value, WriteDone(c))
    ensures
      var e := Exec(s, acts, digest).value;
      var records := e.phases[c].req.records;
      && e.max > 0 && AllFit(records, e.max)
      && var after := Concat(StoredAll(records, e.isFixed, e.max));
         Apply(e, WriteDone(c), digest).issued == e.issued + [Issue(digest(after), after)]
  {
    RunKeeps(s, acts, digest);
    var e := Exec(s, acts, digest).value;
    assert PhaseSound(e, e.phases[c], digest);
    var records := e.phases[c].req.records;
    assert records[..|records|] == records;
  }

  /** A complete write leaves exactly the submitted records as stored, and its etag is the one any read
      computes until the next write begins. */
  lemma {:induction false} WriteThenRead(s: State, acts: seq<Action>, digest: Digest, c: Client)
    requires Quiet(s) && Exec(s, acts, digest).Some?
    requires Enabled(Exec(s, acts, digest).value, ReadDone(c))
    ensures
      var e := Exec(s, acts, digest).value;
      var last := if e.updates == [] then Concat(s.content) else e.updates[|e.updates| - 1].after;
      && Apply(e, ReadDone(c), digest).issued == e.issued + [Issue(digest(last), last)]
      && (e.updates != [] && e.updates[|e.updates| - 1].complete ==>
           var u := e.updates[|e.updates| - 1];
           && e.max > 0 && AllFit(u.req.records, e.max)
           && last == Concat(StoredAll(u.req.records, e.isFixed, e.max)))
  {
    RunKeeps(s, acts, digest);
    var e := Exec(s, acts, digest).value;
    assert PhaseSound(e, e.phases[c], digest);
    assert e.content[..|e.content|] == e.content;
    assert e.updates != [] ==> UpdateSound(e.updates[|e.updates| - 1], e.isFixed, e.max, digest);
  }

  // ----- what becomes of an update

  /** In every run a comparison approves an unforced update if and only if its etag is that of the dataset's bytes,
      and so, for an etag handed out earlier, if and only if the dataset holds the bytes it was handed out for. */
  lemma {:induction false} ComparisonDecides(s: State, acts: seq<Action>, digest: Digest, c: Client)
    requires Quiet(s) && Exec(s, acts, digest).Some? && Injective(digest)
    requires Enabled(Exec(s, acts, digest).value, CompareDone(c))
    ensures
      var e := Exec(s, acts, digest).value;
      var req, e' := e.phases[c].req, Apply(e, CompareDone(c), digest);
      && e' == To(e, c, if req.etag == Some(digest(Concat(e.content))) then Approved(req) else Finishing)
      && forall i :: 0 <= i < |e.issued| && req.etag == Some(e.issued[i].etag) ==>
           (e'.phases[c] == Approved(req) <==> e.issued[i].bytes == Concat(e.content))
  {
    RunKeeps(s, acts, digest);
    var e := Exec(s, acts, digest).value;
    assert PhaseSound(e, e.phases[c], digest);
    assert e.content[..|e.content|] == e.content;
    forall i | 0 <= i < |e.issued| && e.phases[c].req.etag == Some(e.issued[i].etag)
      ensures e.issued[i].etag == digest(Concat(e.content)) <==> e.issued[i].bytes == Concat(e.content)
    {
      assert IssueSound(e.issued[i], digest);
    }
  }
}
