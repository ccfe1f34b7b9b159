/** Records of a dataset, how an update writes them, and the etag: a digest of their bytes in order. */
module DatasetRecords {
  import opened Common

  type Byte = b: int | 0 <= b < 256

  type Bytes = seq<Byte>

  /** The blank of the platform's code page. */
  const BLANK: Byte := 0x40

  /** The digest of a byte string, printed as hexadecimal text. */
  type Digest = Bytes -> string

  /** Different bytes have different digests. */
  ghost predicate Injective(digest: Digest) {
    forall a: Bytes, b: Bytes :: digest(a) == digest(b) ==> a == b
  }

  /** What is written for a submitted record: an empty one becomes one blank, and a record of a
      fixed-length dataset is padded with blanks. */
  function Stored(record: Bytes, isFixed: bool, max: nat): (r: Bytes)
    requires |record| <= max && max > 0
    ensures 0 < |r| <= max && |r| == (if isFixed then max else if record == [] then 1 else |record|)
    ensures record <= r && forall k :: |record| <= k < |r| ==> r[k] == BLANK
  {
    var r := if record == [] then [BLANK] else record;
    if isFixed then r + Repeat(BLANK, max - |r|) else r
  }

  /** A record as a reader sees it: without its trailing blanks. */
  function DropBlanks(record: Bytes): (t: Bytes)
    ensures t <= record && (t == [] || t[|t| - 1] != BLANK)
    ensures forall k :: |t| <= k < |record| ==> record[k] == BLANK
  {
    if record != [] && record[|record| - 1] == BLANK then DropBlanks(record[..|record| - 1]) else record
  }

  /** A text without trailing blanks is what is left of any padding of it. */
  lemma {:induction false} DroppedIs(record: Bytes, t: Bytes)
    requires t <= record && (t == [] || t[|t| - 1] != BLANK)
    requires forall k :: |t| <= k < |record| ==> record[k] == BLANK
    ensures DropBlanks(record) == t
  {
    var d := DropBlanks(record);
    assert d == record[..|d|] && t == record[..|t|];
  }

  /** Reading a stored record back gives the submitted one, up to trailing blanks. */
  lemma {:induction false} StoredReadsBack(record: Bytes, isFixed: bool, max: nat)
    requires |record| <= max && max > 0
    ensures DropBlanks(Stored(record, isFixed, max)) == DropBlanks(record)
  {
    var r, t := Stored(record, isFixed, max), DropBlanks(record);
    forall k | |t| <= k < |r| ensures r[k] == BLANK {
      assert k < |record| ==> r[k] == record[k];
    }
    assert t == record[..|t|] == r[..|t|];
    DroppedIs(r, t);
  }

  predicate AllFit(records: seq<Bytes>, max: nat) {
    forall i :: 0 <= i < |records| ==> |records[i]| <= max
  }

  function StoredAll(records: seq<Bytes>, isFixed: bool, max: nat): (rs: seq<Bytes>)
    requires AllFit(records, max) && max > 0
    ensures |rs| == |records|
    ensures forall i :: 0 <= i < |rs| ==> rs[i] == Stored(records[i], isFixed, max)
    decreases |records|
  {
    if records == [] then []
    else StoredAll(records[..|records| - 1], isFixed, max) + [Stored(records[|records| - 1], isFixed, max)]
  }

  lemma {:induction false} OneMore(records: seq<Bytes>, isFixed: bool, max: nat, i: nat)
    requires AllFit(records, max) && max > 0 && i < |records|
    ensures StoredAll(records[..i + 1], isFixed, max) ==
      StoredAll(records[..i], isFixed, max) + [Stored(records[i], isFixed, max)]
  {
    assert records[..i + 1][..i] == records[..i];
  }

  // ----- the code's loops

  /** The record-length check of an update: a longer record passes only if all that sticks out sorts at or
      below the blank. */
  predicate LengthOk(record: Bytes, max: nat) {
    forall j :: max <= j < |record| ==> record[j] <= BLANK
  }

  /** Trailing blanks do no harm, and a byte above the blank beyond the record length does. */
  lemma {:induction false} LengthCheckMeans(record: Bytes, max: nat)
    ensures |DropBlanks(record)| <= max ==> LengthOk(record, max)
    ensures forall j :: max <= j < |record| && record[j] > 0x40 ==> !LengthOk(record, max)
    ensures (forall j :: max <= j < |record| ==> record[j] <= 0x40) ==> LengthOk(record, max)
  {
  }

  method FirstBadRecord(records: seq<Bytes>, max: nat) returns (bad: Option<nat>)
    ensures bad.None? <==> forall i :: 0 <= i < |records| ==> LengthOk(records[i], max)
    ensures bad.Some? ==> bad.value < |records| && !LengthOk(records[bad.value], max)
    ensures bad.Some? ==> forall i :: 0 <= i < bad.value ==> LengthOk(records[i], max)
  {
    var i := 0;
    while i < |records|
      invariant i <= |records| && forall k :: 0 <= k < i ==> LengthOk(records[k], max)
    {
      if |records[i]| > max {
        var j := |records[i]| - 1;
        while j > max - 1
          invariant max - 1 <= j < |records[i]| && forall k :: j < k < |records[i]| ==> records[i][k] <= BLANK
        {
          if records[i][j] > BLANK {
            return Some(i);
          }
          j := j - 1;
        }
      }
      i := i + 1;
    }
    bad := None;
  }

  /** The bytes that are handed to the write: snprintf leaves the record's first `max` bytes and a NUL in the
      buffer, but reports the length of the whole record; `behind` is the memory that follows. */
  function Offered(record: Bytes, isFixed: bool, max: nat, behind: nat -> Byte): (r: Bytes)
    requires max > 0
    ensures |r| > 0 && (|record| <= max ==> r == Stored(record, isFixed, max))
    ensures |record| > max ==> |r| == |record| && r[..max] == record[..max]
  {
    if |record| <= max then Stored(record, isFixed, max)
    else record[..max] + [0] + seq(|record| - max - 1, k requires k >= 0 => behind(k))
  }

  /** What the dataset takes of it: all that fits, or up to `accepts` bytes of an overlong record. */
  function Taken(record: Bytes, isFixed: bool, max: nat, behind: nat -> Byte, accepts: nat): (r: Bytes)
    requires 0 < max <= accepts
    ensures |record| <= max ==> r == Stored(record, isFixed, max)
    ensures |record| > max ==> record[..max] <= r
  {
    var offered := Offered(record, isFixed, max, behind);
    if |offered| <= accepts then offered else offered[..accepts]
  }

  /** The write loop of an update: writes every record and digests what it wrote.  Records up to the record length
      are stored as they should be; of a longer one the dataset takes up to `accepts` bytes of what it is
      offered, beginning with the record's own.  Either way the digest is that of what was stored. */
  method WriteRecords(records: seq<Bytes>, isFixed: bool, max: nat, behind: nat -> Byte, accepts: nat, digest: Digest)
    returns (content: seq<Bytes>, etag: string)
    requires 0 < max <= accepts
    ensures |content| == |records|
    ensures forall i :: 0 <= i < |records| ==> content[i] == Taken(records[i], isFixed, max, behind, accepts)
    ensures AllFit(records, max) ==> content == StoredAll(records, isFixed, max)
    ensures etag == digest(Concat(content))
  {
    content := [];
    var digested: Bytes := [];
    var i := 0;
    while i < |records|
      invariant i <= |records| && |content| == i && digested == Concat(content)
      invariant forall k :: 0 <= k < i ==> content[k] == Taken(records[k], isFixed, max, behind, accepts)
    {
      content, digested := WriteRecord(content, digested, Taken(records[i], isFixed, max, behind, accepts));
      i := i + 1;
    }
    etag := digest(digested);
    if AllFit(records, max) {
      FittingAreStored(records, isFixed, max, behind, accepts, content);
    }
  }

  /** fwrite and icsfDigestUpdate on the same bytes. */
  method WriteRecord(content: seq<Bytes>, digested: Bytes, record: Bytes)
    returns (content': seq<Bytes>, digested': Bytes)
    requires digested == Concat(content)
    ensures content' == content + [record] && digested' == Concat(content')
  {
    ConcatOneMore(content, record);
    content' := content + [record];
    digested' := digested + record;
  }

  lemma {:induction false} FittingAreStored(
    records: seq<Bytes>, isFixed: bool, max: nat, behind: nat -> Byte, accepts: nat, content: seq<Bytes>)
    requires 0 < max <= accepts && AllFit(records, max) && |content| == |records|
    requires forall i :: 0 <= i < |records| ==> content[i] == Taken(records[i], isFixed, max, behind, accepts)
    ensures content == StoredAll(records, isFixed, max)
  {
    var stored := StoredAll(records, isFixed, max);
    forall i | 0 <= i < |content| ensures content[i] == stored[i] {
    }
  }

  /** The read loop, record by record; empty records add nothing. */
  method ETagByRecord(content: seq<Bytes>, digest: Digest) returns (etag: string)
    ensures etag == digest(Concat(content))
  {
    var digested: Bytes := [];
    var i := 0;
    while i < |content|
      invariant i <= |content| && digested == Concat(content[..i])
    {
      assert content[..i + 1][..i] == content[..i];
      if |content[i]| > 0 {
        digested := digested + content[i];
      } else {
        assert Concat(content[..i + 1]) == Concat(content[..i]) + [];
      }
      i := i + 1;
    }
    assert content[..i] == content;
    etag := digest(digested);
  }

  /** The read loop without a record length: the same bytes in chunks of the buffer's size. */
  method ETagByChunk(content: seq<Bytes>, size: nat, digest: Digest) returns (etag: string)
    requires size > 0
    ensures etag == digest(Concat(content))
  {
    var bytes := Concat(content);
    var digested: Bytes := [];
    var at := 0;
    while at < |bytes|
      invariant at <= |bytes| && digested == bytes[..at]
    {
      var n := if at + size <= |bytes| then size else |bytes| - at;
      digested := digested + bytes[at..at + n];
      at := at + n;
    }
    assert bytes[..at] == bytes;
    etag := digest(digested);
  }

  // ----- what equal etags mean

  ghost predicate AllOfLength(records: seq<Bytes>, n: nat) {
    forall i :: 0 <= i < |records| ==> |records[i]| == n
  }

  lemma {:induction false} ConcatLength(records: seq<Bytes>, n: nat)
    requires AllOfLength(records, n)
    ensures |Concat(records)| == |records| * n
    decreases |records|
  {
    if records != [] {
      var m := |records| - 1;
      ConcatLength(records[..m], n);
      assert |Concat(records)| == |Concat(records[..m])| + n;
      assert m * n + n == (m + 1) * n;
    }
  }

  /** The two lists have their record boundaries at the same places. */
  ghost predicate SameLengths(a: seq<Bytes>, b: seq<Bytes>) {
    |a| == |b| && forall i :: 0 <= i < |a| ==> |a[i]| == |b[i]|
  }

  lemma {:induction false} SameBoundaries(a: seq<Bytes>, b: seq<Bytes>)
    requires SameLengths(a, b) && Concat(a) == Concat(b)
    ensures a == b
    decreases |a|
  {
    if a != [] {
      var k, c := |a| - 1, Concat(a);
      var m := |c| - |a[k]|;
      assert c[..m] == Concat(a[..k]) && c[m..] == a[k];
      assert c[..m] == Concat(b[..k]) && c[m..] == b[k];
      SameBoundaries(a[..k], b[..k]);
      assert a == a[..k] + [a[k]] && b == b[..k] + [b[k]];
    }
  }

  lemma SameCount(x: nat, y: nat, n: nat)
    requires n > 0 && x * n == y * n
    ensures x == y
  {
    assert (x - y) * n == 0;
  }

  ghost predicate SameETag(a: seq<Bytes>, b: seq<Bytes>, isFixed: bool, max: nat, digest: Digest)
    requires max > 0 && AllFit(a, max) && AllFit(b, max)
  {
    digest(Concat(StoredAll(a, isFixed, max))) == digest(Concat(StoredAll(b, isFixed, max)))
  }

  /** Lists with equal etags are stored alike if and only if their records have the same stored lengths, one by
      one: an etag sees the bytes but not the record boundaries. */
  lemma ETagsIgnoreBoundaries(a: seq<Bytes>, b: seq<Bytes>, isFixed: bool, max: nat, digest: Digest)
    requires Injective(digest) && max > 0 && AllFit(a, max) && AllFit(b, max) && SameETag(a, b, isFixed, max, digest)
    ensures
      var sa, sb := StoredAll(a, isFixed, max), StoredAll(b, isFixed, max);
      sa == sb <==> SameLengths(sa, sb)
  {
    var sa, sb := StoredAll(a, isFixed, max), StoredAll(b, isFixed, max);
    if SameLengths(sa, sb) {
      SameBoundaries(sa, sb);
    }
  }

  /** All lists that fit are told apart by their etags, as far as they are stored differently. */
  ghost predicate ETagsIdentify(isFixed: bool, max: nat, digest: Digest)
    requires max > 0
  {
    forall a, b :: AllFit(a, max) && AllFit(b, max) && SameETag(a, b, isFixed, max, digest) ==>
      StoredAll(a, isFixed, max) == StoredAll(b, isFixed, max)
  }

  lemma EqualLengthsIdentify(a: seq<Bytes>, b: seq<Bytes>, isFixed: bool, max: nat, digest: Digest)
    requires Injective(digest) && max > 0 && (isFixed || max == 1)
    requires AllFit(a, max) && AllFit(b, max) && SameETag(a, b, isFixed, max, digest)
    ensures StoredAll(a, isFixed, max) == StoredAll(b, isFixed, max)
  {
    var sa, sb := StoredAll(a, isFixed, max), StoredAll(b, isFixed, max);
    ConcatLength(sa, max);
    ConcatLength(sb, max);
    SameCount(|sa|, |sb|, max);
    SameBoundaries(sa, sb);
  }

  /** One record of two bytes has the etag of two records of one byte. */
  lemma OneRecordAsTwo(x: Byte, y: Byte, max: nat, digest: Digest)
    requires max >= 2
    ensures AllFit([[x, y]], max) && AllFit([[x], [y]], max) && SameETag([[x, y]], [[x], [y]], false, max, digest)
    ensures StoredAll([[x, y]], false, max) != StoredAll([[x], [y]], false, max)
  {
    var sa, sb := StoredAll([[x, y]], false, max), StoredAll([[x], [y]], false, max);
    assert sa == [] + [[x, y]] && sb == [] + [[x]] + [[y]];
    ConcatOneMore([], [x, y]);
    ConcatOneMore([], [x]);
    ConcatOneMore([] + [[x]], [y]);
    assert Concat(sa) == [x, y] == Concat(sb);
  }

  /** Etags identify record lists exactly in datasets with fixed-length records or a record length of 1. */
  lemma ETagsIdentifyRecords(isFixed: bool, max: nat, digest: Digest)
    requires Injective(digest) && max > 0
    ensures ETagsIdentify(isFixed, max, digest) <==> isFixed || max == 1
  {
    if isFixed || max == 1 {
      forall a, b | AllFit(a, max) && AllFit(b, max) && SameETag(a, b, isFixed, max, digest)
        ensures StoredAll(a, isFixed, max) == StoredAll(b, isFixed, max)
      {
        EqualLengthsIdentify(a, b, isFixed, max, digest);
      }
    } else {
      OneRecordAsTwo(0, 0, max, digest);
    }
  }

  /** The submitted lists are the same records up to trailing blanks. */
  ghost predicate SameUpToBlanks(a: seq<Bytes>, b: seq<Bytes>) {
    |a| == |b| && forall i :: 0 <= i < |a| ==> DropBlanks(a[i]) == DropBlanks(b[i])
  }

  /** Reading any written list back gives the submitted one, up to trailing blanks. */
  lemma {:induction false} AllReadBack(records: seq<Bytes>, isFixed: bool, max: nat)
    requires AllFit(records, max) && max > 0
    ensures SameUpToBlanks(StoredAll(records, isFixed, max), records)
  {
    var stored := StoredAll(records, isFixed, max);
    forall i | 0 <= i < |records| ensures DropBlanks(stored[i]) == DropBlanks(records[i]) {
      StoredReadsBack(records[i], isFixed, max);
    }
  }

  lemma {:induction false} FixedRecordsAgree(a: Bytes, b: Bytes, max: nat)
    requires |a| <= max && |b| <= max && max > 0 && DropBlanks(a) == DropBlanks(b)
    ensures Stored(a, true, max) == Stored(b, true, max)
  {
    var ra, rb, t := Stored(a, true, max), Stored(b, true, max), DropBlanks(a);
    forall k | 0 <= k < max ensures ra[k] == rb[k] {
      if k < |t| {
        assert a[k] == t[k] == b[k];
        assert ra[k] == a[k] && rb[k] == b[k];
      } else {
        assert ra[k] == if k < |a| then a[k] else BLANK;
        assert rb[k] == if k < |b| then b[k] else BLANK;
      }
    }
  }

  /** In a fixed-length dataset two updates get the same etag if and only if they submitted the same records, up to
      trailing blanks. */
  lemma {:induction false} FixedETagsIdentifySubmissions(a: seq<Bytes>, b: seq<Bytes>, max: nat, digest: Digest)
    requires Injective(digest) && max > 0 && AllFit(a, max) && AllFit(b, max)
    ensures SameETag(a, b, true, max, digest) <==> SameUpToBlanks(a, b)
  {
    var sa, sb := StoredAll(a, true, max), StoredAll(b, true, max);
    if SameETag(a, b, true, max, digest) {
      EqualLengthsIdentify(a, b, true, max, digest);
      AllReadBack(a, true, max);
      AllReadBack(b, true, max);
    }
    if SameUpToBlanks(a, b) {
      forall i | 0 <= i < |sa| ensures sa[i] == sb[i] {
        FixedRecordsAgree(a[i], b[i], max);
      }
      assert sa == sb;
    }
  }
}
