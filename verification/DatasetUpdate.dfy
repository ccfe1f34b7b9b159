/** The course of one update that meets no other client, from request to reply. */
module DatasetUpdate {
  import opened Common
  import opened DatasetRecords
  import opened DatasetProtocol

  lemma {:induction false} ExecAppend(s: State, a: seq<Action>, b: seq<Action>, digest: Digest)
    requires Exec(s, a, digest).Some?
    ensures Exec(s, a + b, digest) == Exec(Exec(s, a, digest).value, b, digest)
    decreases |b|
  {
    if b == [] {
      assert a + b == a;
    } else {
      var n := |b| - 1;
      ExecAppend(s, a, b[..n], digest);
      assert (a + b)[..|a + b| - 1] == a + b[..n];
    }
  }

  lemma {:induction false} ExecFirst(s: State, act: Action, rest: seq<Action>, digest: Digest)
    requires Enabled(s, act)
    ensures Exec(s, [act] + rest, digest) == Exec(Apply(s, act, digest), rest, digest)
  {
    assert [act][..0] == [];
    ExecAppend(s, [act], rest, digest);
  }

  /** The state in which a client holds the dataset with the given phase and contents. */
  function Holding(s: State, c: Client, phase: Phase, content: seq<Bytes>): State {
    s.(phases := map[c := phase], alloc := Exclusive(c), content := content)
  }

  lemma {:induction false} CompareOne(s: State, c: Client, req: Request, k: nat, d: Bytes, digest: Digest)
    requires k < |s.content|
    ensures
      var h := Holding(s, c, Comparing(req, k, d), s.content);
      && Enabled(h, CompareRecord(c))
      && Apply(h, CompareRecord(c), digest) == Holding(s, c, Comparing(req, k + 1, d + s.content[k]), s.content)
  {
    var h := Holding(s, c, Comparing(req, k, d), s.content);
    assert Apply(h, CompareRecord(c), digest).phases == map[c := Comparing(req, k + 1, d + s.content[k])];
  }

  /** The comparing loop run to its end. */
  lemma {:induction false} CompareLoop(s: State, c: Client, req: Request, k: nat, digest: Digest)
    requires k <= |s.content|
    ensures
      Exec(Holding(s, c, Comparing(req, k, Concat(s.content[..k])), s.content),
           Repeat(CompareRecord(c), |s.content| - k), digest)
      == Some(Holding(s, c, Comparing(req, |s.content|, Concat(s.content)), s.content))
    decreases |s.content| - k
  {
    var h := Holding(s, c, Comparing(req, k, Concat(s.content[..k])), s.content);
    if k < |s.content| {
      CompareOne(s, c, req, k, Concat(s.content[..k]), digest);
      ReadMore(s.content, k);
      ExecFirst(h, CompareRecord(c), Repeat(CompareRecord(c), |s.content| - k - 1), digest);
      CompareLoop(s, c, req, k + 1, digest);
    } else {
      assert s.content[..k] == s.content;
    }
  }

  lemma {:induction false} WriteOne(
    s: State, c: Client, req: Request, before: Bytes, k: nat, content: seq<Bytes>, d: Bytes, digest: Digest)
    requires s.max > 0 && AllFit(req.records, s.max) && k < |req.records|
    ensures
      var r := Stored(req.records[k], s.isFixed, s.max);
      var h := Holding(s, c, Writing(req, before, k, d), content);
      && Enabled(h, WriteRecord(c))
      && Apply(h, WriteRecord(c), digest) == Holding(s, c, Writing(req, before, k + 1, d + r), content + [r])
  {
    var r := Stored(req.records[k], s.isFixed, s.max);
    var h := Holding(s, c, Writing(req, before, k, d), content);
    assert Apply(h, WriteRecord(c), digest).phases == map[c := Writing(req, before, k + 1, d + r)];
  }

  /** The client is writing, and has written some records. */
  function WritingSome(s: State, c: Client, req: Request, before: Bytes, k: nat): State
    requires s.max > 0 && AllFit(req.records, s.max) && k <= |req.records|
  {
    var some := StoredAll(req.records[..k], s.isFixed, s.max);
    Holding(s, c, Writing(req, before, k, Concat(some)), some)
  }

  lemma {:induction false} WriteNext(s: State, c: Client, req: Request, before: Bytes, k: nat, digest: Digest)
    requires s.max > 0 && AllFit(req.records, s.max) && k < |req.records|
    ensures Enabled(WritingSome(s, c, req, before, k), WriteRecord(c))
    ensures Apply(WritingSome(s, c, req, before, k), WriteRecord(c), digest) == WritingSome(s, c, req, before, k + 1)
  {
    var some := StoredAll(req.records[..k], s.isFixed, s.max);
    WriteOne(s, c, req, before, k, some, Concat(some), digest);
    OneMore(req.records, s.isFixed, s.max, k);
    ConcatOneMore(some, Stored(req.records[k], s.isFixed, s.max));
  }

  /** The writing loop run to its end. */
  lemma {:induction false} WriteLoop(s: State, c: Client, req: Request, before: Bytes, k: nat, digest: Digest)
    requires s.max > 0 && AllFit(req.records, s.max) && k <= |req.records|
    ensures Exec(WritingSome(s, c, req, before, k), Repeat(WriteRecord(c), |req.records| - k), digest) ==
      Some(WritingSome(s, c, req, before, |req.records|))
    decreases |req.records| - k
  {
    if k < |req.records| {
      WriteNext(s, c, req, before, k, digest);
      var rest := Repeat(WriteRecord(c), |req.records| - k - 1);
      ExecFirst(WritingSome(s, c, req, before, k), WriteRecord(c), rest, digest);
      WriteLoop(s, c, req, before, k + 1, digest);
    }
  }

  /** From the request to the decision: nobody else is there, and the etag, if it counts, is the right one. */
  lemma {:induction false} Decision(s: State, c: Client, req: Request, digest: Digest)
    requires s.alloc.Free? && s.phases == map[] && (req.force || req.etag == Some(digest(Concat(s.content))))
    ensures Exec(s, [AllocExclusive(c, req)] + DecisionRun(s, c, req), digest) ==
      Some(Holding(s, c, Approved(req), s.content))
  {
    ExecFirst(s, AllocExclusive(c, req), DecisionRun(s, c, req), digest);
    if !req.force {
      var h := Holding(s, c, Comparing(req, 0, []), s.content);
      assert Apply(s, AllocExclusive(c, req), digest) == h;
      Comparison(s, c, req, digest);
    } else {
      assert Apply(s, AllocExclusive(c, req), digest) == Holding(s, c, Approved(req), s.content);
    }
  }

  lemma {:induction false} Comparison(s: State, c: Client, req: Request, digest: Digest)
    requires req.etag == Some(digest(Concat(s.content)))
    ensures
      Exec(Holding(s, c, Comparing(req, 0, []), s.content),
           Repeat(CompareRecord(c), |s.content|) + [CompareDone(c)], digest)
      == Some(Holding(s, c, Approved(req), s.content))
  {
    var h := Holding(s, c, Comparing(req, 0, []), s.content);
    assert s.content[..0] == [] && Concat(s.content[..0]) == [];
    CompareLoop(s, c, req, 0, digest);
    ExecAppend(h, Repeat(CompareRecord(c), |s.content|), [CompareDone(c)], digest);
    EndOfComparison(s, c, req, digest);
  }

  lemma {:induction false} EndOfComparison(s: State, c: Client, req: Request, digest: Digest)
    requires req.etag == Some(digest(Concat(s.content)))
    ensures
      Exec(Holding(s, c, Comparing(req, |s.content|, Concat(s.content)), s.content), [CompareDone(c)], digest)
      == Some(Holding(s, c, Approved(req), s.content))
  {
    var h := Holding(s, c, Comparing(req, |s.content|, Concat(s.content)), s.content);
    ExecFirst(h, CompareDone(c), [], digest);
    assert [CompareDone(c)] + [] == [CompareDone(c)];
    assert Apply(h, CompareDone(c), digest).phases == map[c := Approved(req)];
  }

  function DecisionRun(s: State, c: Client, req: Request): seq<Action> {
    if req.force then [] else Repeat(CompareRecord(c), |s.content|) + [CompareDone(c)]
  }

  /** From the decision to the end. */
  function WritingRun(c: Client, req: Request): seq<Action> {
    [OpenForWrite(c)] + (Repeat(WriteRecord(c), |req.records|) + ([WriteDone(c)] + [Unalloc(c)]))
  }

  /** The dataset after a complete update, and the etag that was handed out. */
  function Updated(s: State, req: Request, digest: Digest): State
    requires s.max > 0 && AllFit(req.records, s.max)
  {
    var all := StoredAll(req.records, s.isFixed, s.max);
    s.(content := all, alloc := Free, phases := map[],
       issued := s.issued + [Issue(digest(Concat(all)), Concat(all))],
       updates := s.updates + [Update(req, Concat(s.content), Concat(all), true)])
  }

  lemma {:induction false} WritingGoesThrough(s: State, c: Client, req: Request, digest: Digest)
    requires s.max > 0 && AllFit(req.records, s.max)
    ensures Exec(Holding(s, c, Approved(req), s.content), WritingRun(c, req), digest) == Some(Updated(s, req, digest))
  {
    var before, n := Concat(s.content), |req.records|;
    var rest := [WriteDone(c)] + [Unalloc(c)];
    OpenTruncates(s, c, req, digest);
    ExecFirst(Holding(s, c, Approved(req), s.content), OpenForWrite(c), Repeat(WriteRecord(c), n) + rest, digest);
    WriteLoop(s, c, req, before, 0, digest);
    ExecAppend(WritingSome(s, c, req, before, 0), Repeat(WriteRecord(c), n), rest, digest);
    EndOfWrite(s, c, req, digest);
  }

  lemma {:induction false} OpenTruncates(s: State, c: Client, req: Request, digest: Digest)
    requires s.max > 0 && AllFit(req.records, s.max)
    ensures
      var h := Holding(s, c, Approved(req), s.content);
      && Enabled(h, OpenForWrite(c))
      && Apply(h, OpenForWrite(c), digest) == WritingSome(s, c, req, Concat(s.content), 0)
  {
    var h := Holding(s, c, Approved(req), s.content);
    assert req.records[..0] == [];
    assert Apply(h, OpenForWrite(c), digest).phases == map[c := Writing(req, Concat(s.content), 0, [])];
  }

  lemma {:induction false} EndOfWrite(s: State, c: Client, req: Request, digest: Digest)
    requires s.max > 0 && AllFit(req.records, s.max)
    ensures Exec(WritingSome(s, c, req, Concat(s.content), |req.records|), [WriteDone(c)] + [Unalloc(c)], digest) ==
      Some(Updated(s, req, digest))
  {
    var h := WritingSome(s, c, req, Concat(s.content), |req.records|);
    LastWriteDone(s, c, req, digest);
    ExecFirst(h, WriteDone(c), [Unalloc(c)], digest);
    GiveBack(Updated(s, req, digest), c, digest);
  }

  lemma {:induction false} GiveBack(s: State, c: Client, digest: Digest)
    requires s.alloc.Free? && s.phases == map[]
    ensures Exec(Holding(s, c, Finishing, s.content), [Unalloc(c)], digest) == Some(s)
  {
    var h := Holding(s, c, Finishing, s.content);
    ExecFirst(h, Unalloc(c), [], digest);
    assert [Unalloc(c)] + [] == [Unalloc(c)];
    assert h.phases - {c} == map[];
  }

  lemma {:induction false} LastWriteDone(s: State, c: Client, req: Request, digest: Digest)
    requires s.max > 0 && AllFit(req.records, s.max)
    ensures
      var h := WritingSome(s, c, req, Concat(s.content), |req.records|);
      && Enabled(h, WriteDone(c))
      && Apply(h, WriteDone(c), digest) ==
           Holding(Updated(s, req, digest), c, Finishing, StoredAll(req.records, s.isFixed, s.max))
  {
    assert req.records[..|req.records|] == req.records;
    var h := WritingSome(s, c, req, Concat(s.content), |req.records|);
    assert Apply(h, WriteDone(c), digest).phases == map[c := Finishing];
  }

  /** An update that is forced or carries the etag of the dataset's bytes, and meets nobody else, goes through: the
      dataset then holds its records as stored, and the etag handed out is theirs. */
  lemma {:induction false} UncontendedUpdateSucceeds(s: State, c: Client, req: Request, digest: Digest)
    requires s.alloc.Free? && s.phases == map[] && s.max > 0 && AllFit(req.records, s.max)
    requires req.force || req.etag == Some(digest(Concat(s.content)))
    ensures Exec(s, ([AllocExclusive(c, req)] + DecisionRun(s, c, req)) + WritingRun(c, req), digest) ==
      Some(Updated(s, req, digest))
    ensures SameUpToBlanks(Updated(s, req, digest).content, req.records)
  {
    Decision(s, c, req, digest);
    WritingGoesThrough(s, c, req, digest);
    ExecAppend(s, [AllocExclusive(c, req)] + DecisionRun(s, c, req), WritingRun(c, req), digest);
    AllReadBack(req.records, s.isFixed, s.max);
  }
}
