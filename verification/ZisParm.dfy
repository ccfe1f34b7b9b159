/** The server's parameters: the ordered parameter set, the PARMLIB member reader with its comments and
    continuation lines, the comma-separated main parameters, and the configuration built from all three. */
module ZisParm {
  import opened Common
  import opened OrderedMap

  const RC_OK: nat := 0
  const RC_CONTINUATION_TOO_LONG: nat := 19

  const BUFFER_SIZE: nat := 4096

  type Parm = Entry<string, string>

  // ----- the parameter set

  /** ZISParmSet.  `puts` is the history that the entries summarise. */
  class ParmSet {
    var entries: seq<Parm>
    ghost var puts: seq<Parm>

    ghost predicate Valid()
      reads this
    {
      entries == PutAll([], puts)
    }

    constructor ()
      ensures Valid() && entries == [] && puts == []
    {
      entries, puts := [], [];
    }

    /** findEntry. */
    method FindEntry(name: string) returns (i: nat)
      ensures i == IndexOf(entries, name)
    {
      i := 0;
      while i < |entries|
        invariant i <= |entries|
        invariant forall j :: 0 <= j < i ==> entries[j].key != name
      {
        if entries[i].key == name {
          return;
        }
        i := i + 1;
      }
    }

    /** zisPutParmValue. */
    method PutValue(name: string, value: string)
      requires Valid()
      modifies this
      ensures Valid() && puts == old(puts) + [Entry(name, value)]
    {
      var e := Entry(name, value);
      PutAllOneMore(puts, e);
      var i := FindEntry(name);
      if i == |entries| {
        entries := entries + [e];
      } else {
        entries := entries[i := e];
      }
      puts := puts + [e];
    }

    /** zisGetParmValue: the last value put. */
    method GetValue(name: string) returns (value: Option<string>)
      requires Valid()
      ensures value == LastPut(puts, name)
    {
      var i := FindEntry(name);
      PutAllIsMap(puts);
      assert Value(entries, name) == LastPut(puts, name);
      value := if i < |entries| then Some(entries[i].value) else None;
    }
  }

  // ----- text

  /** The part of a character array that string functions see. */
  function CString(s: string): string {
    if s == [] || s[0] == '\0' then [] else [s[0]] + CString(s[1..])
  }

  function FindChar(s: string, c: char): (r: nat)
    ensures r <= |s|
    ensures r < |s| ==> s[r] == c
    ensures forall j :: 0 <= j < r ==> s[j] != c
  {
    if s == [] || s[0] == c then 0 else 1 + FindChar(s[1..], c)
  }

  /** The key up to the first equals sign, the value after it; no equals sign, no value. */
  function KeyValue(text: string): Parm {
    var t := CString(text);
    var i := FindChar(t, '=');
    if i < |t| then Entry(t[..i], t[i + 1..]) else Entry(t, "")
  }

  lemma {:induction false} CStringIsPrefix(s: string)
    ensures CString(s) == s[..FindChar(s, '\0')]
    decreases |s|
  {
    if s != [] && s[0] != '\0' {
      CStringIsPrefix(s[1..]);
    }
  }

  lemma {:induction false} NoNul(s: string)
    requires '\0' !in s
    ensures CString(s) == s
  {
    CStringIsPrefix(s);
    assert s[..|s|] == s;
  }

  lemma {:induction false} FirstEquals(key: string, value: string)
    requires '=' !in key
    ensures FindChar(key + "=" + value, '=') == |key|
  {
    var text := key + "=" + value;
    assert text[|key|] == '=';
    assert forall j :: 0 <= j < |key| ==> text[j] == key[j] != '=';
  }

  /** "key=value" is read as that key and that value. */
  lemma {:induction false} KeyValueReadsBack(key: string, value: string)
    requires '=' !in key && '\0' !in key && '\0' !in value
    ensures KeyValue(key + "=" + value) == Entry(key, value)
  {
    var text := key + "=" + value;
    NoNul(text);
    FirstEquals(key, value);
    assert text[..|key|] == key && text[|key| + 1..] == value;
  }

  /** A text without an equals sign is a key without value. */
  lemma {:induction false} KeyWithoutValue(text: string)
    requires '=' !in text && '\0' !in text
    ensures KeyValue(text) == Entry(text, "")
  {
    NoNul(text);
  }

  /** What follows a NUL is not read. */
  lemma {:induction false} NulEndsText(text: string, rest: string)
    requires '\0' !in text
    ensures KeyValue(text + "\0" + rest) == KeyValue(text)
  {
    var whole := text + "\0" + rest;
    CStringIsPrefix(whole);
    assert whole[|text|] == '\0' && forall j :: 0 <= j < |text| ==> whole[j] == text[j];
    assert whole[..|text|] == text;
    NoNul(text);
  }

  predicate NoOuterBlanks(s: string) {
    s == [] || (s[0] != ' ' && s[|s| - 1] != ' ')
  }

  /** The record without its leading and trailing blanks. */
  function Trimmed(s: string): (t: string)
    ensures NoOuterBlanks(t) && |t| <= |s|
    decreases |s|
  {
    if s == [] then []
    else if s[0] == ' ' then Trimmed(s[1..])
    else if s[|s| - 1] == ' ' then Trimmed(s[..|s| - 1])
    else s
  }

  lemma {:induction false} TrimLeft(a: nat, u: string)
    ensures Trimmed(Repeat(' ', a) + u) == Trimmed(u)
    decreases a
  {
    var s := Repeat(' ', a) + u;
    if a == 0 {
      assert s == u;
    } else {
      TrimLeft(a - 1, u);
      assert s[1..] == Repeat(' ', a - 1) + u;
    }
  }

  lemma {:induction false} TrimRight(t: string, b: nat)
    requires t != [] && NoOuterBlanks(t)
    ensures Trimmed(t + Repeat(' ', b)) == t
    decreases b
  {
    var s := t + Repeat(' ', b);
    if b == 0 {
      assert s == t;
    } else {
      TrimRight(t, b - 1);
      assert Repeat(' ', b)[..b - 1] == Repeat(' ', b - 1);
      assert s[0] == t[0] && s[|s| - 1] == Repeat(' ', b)[b - 1] && s[..|s| - 1] == t + Repeat(' ', b - 1);
    }
  }

  /** Any padding of a text without outer blanks trims back to the text. */
  lemma {:induction false} TrimPadded(a: nat, t: string, b: nat)
    requires NoOuterBlanks(t)
    ensures Trimmed(Repeat(' ', a) + t + Repeat(' ', b)) == t
  {
    Regroup(Repeat(' ', a), t, Repeat(' ', b));
    TrimLeft(a, t + Repeat(' ', b));
    if t == [] {
      TrimLeft(b, []);
      assert t + Repeat(' ', b) == Repeat(' ', b) + [];
    } else {
      TrimRight(t, b);
    }
  }

  /** getTrimmedSlice: where the trimmed record starts in the record, and its length. */
  method GetTrimmedSlice(s: string) returns (start: nat, length: nat)
    ensures start + length <= |s| && s[start..start + length] == Trimmed(s)
  {
    start, length := 0, |s|;
    if |s| == 0 {
      return;
    }
    var i := 0;
    while i < |s|
      invariant i <= |s| && length == |s| - i && start == 0
      invariant forall j :: 0 <= j < i ==> s[j] == ' '
    {
      if s[i] != ' ' {
        start := i;
        break;
      }
      length := length - 1;
      i := i + 1;
    }
    i := |s|;
    while true
      invariant start + length <= |s| && (length > 0 ==> s[start] != ' ' && i == start + length)
      invariant forall j :: 0 <= j < start || start + length <= j < |s| ==> s[j] == ' '
      decreases length
    {
      if length == 0 || s[i - 1] != ' ' {
        break;
      }
      length := length - 1;
      i := i - 1;
    }
    TrimmedSlice(s, start, length);
  }

  /** A slice without outer blanks that has only blanks around it is the trimmed record. */
  lemma {:induction false} TrimmedSlice(s: string, start: nat, length: nat)
    requires start + length <= |s| && NoOuterBlanks(s[start..start + length])
    requires forall j :: 0 <= j < start || start + length <= j < |s| ==> s[j] == ' '
    ensures Trimmed(s) == s[start..start + length]
  {
    var t := s[start..start + length];
    TrimPadded(start, t, |s| - start - length);
    assert s == Repeat(' ', start) + t + Repeat(' ', |s| - start - length);
  }

  // ----- the member reader

  predicate CommentedOut(s: string) {
    (|s| >= 1 && s[0] == '*') || (|s| >= 3 && s[..3] == "//*")
  }

  /** Effect of one record on the text pending from continued records. */
  datatype Step = TooLong | Next(pending: string, puts: seq<Parm>)

  function ReadSlice(pending: string, slice: string): Step {
    if pending == [] && CommentedOut(slice) then Next([], [])
    else if |pending| + |slice| + 1 > BUFFER_SIZE then TooLong
    else
      var text := pending + slice;
      if slice != [] && slice[|slice| - 1] == '\\' then Next(text[..|text| - 1], [])
      else Next([], [KeyValue(text)])
  }

  function ReadRecord(pending: string, record: string): Step {
    ReadSlice(pending, Trimmed(record))
  }

  /** The record's text starts like a comment. */
  predicate LooksLikeComment(t: string) {
    "*" <= t || "//*" <= t
  }

  /** Between parameters a record that starts like a comment puts nothing; in the middle of a continued parameter
      it is text like any other. */
  lemma {:induction false} CommentsPutNothing(record: string)
    requires LooksLikeComment(Trimmed(record))
    ensures ReadRecord([], record) == Next([], [])
  {
  }

  lemma {:induction false} NoCommentsInContinuation(pending: string, record: string)
    requires pending != [] && |pending| + |Trimmed(record)| + 1 <= BUFFER_SIZE
    requires Trimmed(record) == [] || Trimmed(record)[|Trimmed(record)| - 1] != '\\'
    ensures ReadRecord(pending, record) == Next([], [KeyValue(pending + Trimmed(record))])
  {
  }

  /** Between parameters any other record without a final backslash puts one entry, if it fits. */
  lemma {:induction false} OthersPutOneEntry(record: string)
    requires
      var t := Trimmed(record);
      !LooksLikeComment(t) && |t| + 1 <= BUFFER_SIZE && (t == [] || t[|t| - 1] != '\\')
    ensures ReadRecord([], record) == Next([], [KeyValue(Trimmed(record))])
  {
    assert [] + Trimmed(record) == Trimmed(record);
  }

  /** What a member's records put, and whether all of them were read. */
  datatype Read = Read(ok: bool, pending: string, puts: seq<Parm>)

  function ReadRecords(pending: string, records: seq<string>): Read
    decreases |records|
  {
    if records == [] then Read(true, pending, [])
    else
      match ReadRecord(pending, records[0])
      case TooLong => Read(false, pending, [])
      case Next(p, puts) =>
        var r := ReadRecords(p, records[1..]);
        Read(r.ok, r.pending, puts + r.puts)
  }

  lemma {:induction false} ReadFirst(pending: string, r: string, rest: seq<string>)
    ensures
      var step := ReadRecord(pending, r);
      && (step.TooLong? ==> ReadRecords(pending, [r] + rest) == Read(false, pending, []))
      && (step.Next? ==>
           var q := ReadRecords(step.pending, rest);
           ReadRecords(pending, [r] + rest) == Read(q.ok, q.pending, step.puts + q.puts))
  {
    assert ([r] + rest)[1..] == rest;
  }

  lemma {:induction false} ReadAppend(pending: string, a: seq<string>, b: seq<string>)
    requires ReadRecords(pending, a).ok
    ensures
      var r := ReadRecords(pending, a);
      var r' := ReadRecords(r.pending, b);
      ReadRecords(pending, a + b) == Read(r'.ok, r'.pending, r.puts + r'.puts)
    decreases |a|
  {
    if a == [] {
      assert a + b == b;
    } else {
      var step := ReadRecord(pending, a[0]);
      ReadAppend(step.pending, a[1..], b);
      assert (a + b)[1..] == a[1..] + b;
      var r := ReadRecords(step.pending, a[1..]);
      Regroup(step.puts, r.puts, ReadRecords(r.pending, b).puts);
    }
  }

  /** A comment between parameters may as well not be there. */
  lemma {:induction false} CommentsAreSkipped(a: seq<string>, comment: string, b: seq<string>)
    requires ReadRecords([], a).ok && ReadRecords([], a).pending == [] && LooksLikeComment(Trimmed(comment))
    ensures ReadRecords([], a + ([comment] + b)) == ReadRecords([], a + b)
  {
    CommentsPutNothing(comment);
    ReadFirst([], comment, b);
    ReadAppend([], a, [comment] + b);
    ReadAppend([], a, b);
  }

  /** The visitor context: a fixed buffer, filled in place. */
  class ParmReader {
    const buffer: array<char>
    var length: nat
    const parms: ParmSet

    ghost predicate Valid()
      reads this, buffer, parms
    {
      buffer.Length == BUFFER_SIZE && length < BUFFER_SIZE && buffer[length] == '\0' && parms.Valid()
    }

    constructor (parms: ParmSet)
      requires parms.Valid()
      ensures Valid() && fresh(buffer) && length == 0 && this.parms == parms
    {
      this.buffer := new char[BUFFER_SIZE](_ => '\0');
      length := 0;
      this.parms := parms;
    }

    /** handleParmRecord.  The text assembled so far always fits its buffer with its terminator. */
    method HandleRecord(record: string) returns (rc: nat)
      requires Valid()
      modifies this, buffer, parms
      ensures Valid()
      ensures
        var step := ReadRecord(old(buffer[..length]), record);
        && (step.TooLong? ==>
             && rc == RC_CONTINUATION_TOO_LONG
             && buffer[..length] == old(buffer[..length]) && parms.puts == old(parms.puts))
        && (step.Next? ==>
             rc == RC_OK && buffer[..length] == step.pending && parms.puts == old(parms.puts) + step.puts)
    {
      var start, sliceLength := GetTrimmedSlice(record);
      rc := HandleSlice(record[start..start + sliceLength]);
    }

    method HandleSlice(slice: string) returns (rc: nat)
      requires Valid()
      modifies this, buffer, parms
      ensures Valid()
      ensures
        var step := ReadSlice(old(buffer[..length]), slice);
        && (step.TooLong? ==>
             && rc == RC_CONTINUATION_TOO_LONG
             && buffer[..length] == old(buffer[..length]) && parms.puts == old(parms.puts))
        && (step.Next? ==>
             rc == RC_OK && buffer[..length] == step.pending && parms.puts == old(parms.puts) + step.puts)
    {
      if length == 0 && CommentedOut(slice) {
        return RC_OK;
      }
      if length + |slice| + 1 > BUFFER_SIZE {
        return RC_CONTINUATION_TOO_LONG;
      }
      Append(slice);
      if |slice| > 0 && slice[|slice| - 1] == '\\' {
        DropLast();
      } else {
        Complete();
      }
      rc := RC_OK;
    }

    /** A continued record: its backslash becomes the terminator. */
    method DropLast()
      requires Valid() && length > 0
      modifies this`length, buffer
      ensures Valid() && length == old(length) - 1 && buffer[..length] == old(buffer[..length])[..length]
    {
      buffer[length - 1] := '\0';
      length := length - 1;
    }

    /** The end of handleParmRecord: the assembled text becomes a parameter and the buffer is emptied. */
    method Complete()
      requires Valid()
      modifies this, buffer, parms
      ensures Valid() && length == 0 && parms.puts == old(parms.puts) + [KeyValue(old(buffer[..length]))]
    {
      var entry := KeyValue(buffer[..length]);
      length := 0;
      buffer[0] := '\0';
      parms.PutValue(entry.key, entry.value);
    }

    /** memcpy of the slice behind the text, and the new terminator. */
    method Append(slice: string)
      requires Valid() && length + |slice| + 1 <= BUFFER_SIZE
      modifies this`length, buffer
      ensures Valid() && length == old(length) + |slice| && buffer[..length] == old(buffer[..length]) + slice
    {
      var i := 0;
      while i < |slice|
        invariant i <= |slice| && length == old(length)
        invariant buffer[..length + i] == old(buffer[..length]) + slice[..i]
      {
        buffer[length + i] := slice[i];
        i := i + 1;
      }
      length := length + |slice|;
      buffer[length] := '\0';
    }

    /** iterateMember: every record in order, up to the first failure. */
    method ReadMember(records: seq<string>) returns (rc: nat)
      requires Valid()
      modifies this, buffer, parms
      ensures Valid()
      ensures
        var r := ReadRecords(old(buffer[..length]), records);
        && rc == (if r.ok then RC_OK else RC_CONTINUATION_TOO_LONG)
        && parms.puts == old(parms.puts) + r.puts
        && (r.ok ==> buffer[..length] == r.pending)
    {
      rc := RC_OK;
      var i := 0;
      ghost var first := buffer[..length];
      ghost var done: seq<Parm> := [];
      while i < |records|
        invariant i <= |records| && Valid() && rc == RC_OK
        invariant parms.puts == old(parms.puts) + done
        invariant ReadRecords(first, records[..i]) == Read(true, buffer[..length], done)
      {
        ghost var step := ReadRecord(buffer[..length], records[i]);
        ReadOneMore(first, records, i);
        rc := HandleRecord(records[i]);
        if rc != RC_OK {
          return;
        }
        Regroup(old(parms.puts), done, step.puts);
        done := done + step.puts;
        i := i + 1;
      }
      assert records[..i] == records;
    }
  }

  lemma {:induction false} ReadOneMore(pending: string, records: seq<string>, i: nat)
    requires i < |records| && ReadRecords(pending, records[..i]).ok
    ensures
      var r := ReadRecords(pending, records[..i]);
      match ReadRecord(r.pending, records[i])
      case TooLong => ReadRecords(pending, records) == Read(false, r.pending, r.puts)
      case Next(p, puts) => ReadRecords(pending, records[..i + 1]) == Read(true, p, r.puts + puts)
  {
    var r := ReadRecords(pending, records[..i]);
    var step := ReadRecord(r.pending, records[i]);
    if step.TooLong? {
      ReadAppend(pending, records[..i], records[i..]);
      assert records[..i] + records[i..] == records;
      assert ReadRecords(r.pending, records[i..]) == Read(false, r.pending, []);
    } else {
      ReadAppend(pending, records[..i], [records[i]]);
      assert records[..i] + [records[i]] == records[..i + 1];
      assert [records[i]][1..] == [];
      assert ReadRecords(r.pending, [records[i]]) == Read(true, step.pending, step.puts);
    }
  }

  // ----- continuation lines

  /** A fragment cut out of a line, with the padding around it in its record. */
  datatype Padded = Padded(left: nat, text: string, right: nat)

  /** The record that holds a fragment; all but the last end in a backslash. */
  function Record(f: Padded, last: bool): string {
    Repeat(' ', f.left) + (if last then f.text else f.text + "\\") + Repeat(' ', f.right)
  }

  function Records(fs: seq<Padded>): seq<string> {
    if fs == [] then [] else [Record(fs[0], |fs| == 1)] + Records(fs[1..])
  }

  function Texts(fs: seq<Padded>): seq<string> {
    if fs == [] then [] else [fs[0].text] + Texts(fs[1..])
  }

  /** The last fragment has no outer blanks and no final backslash; the others have no leading blank. */
  predicate WellCut(fs: seq<Padded>) {
    && fs != []
    && (forall i :: 0 <= i < |fs| - 1 ==> fs[i].text == [] || fs[i].text[0] != ' ')
    && var t := fs[|fs| - 1].text;
       NoOuterBlanks(t) && (t == [] || t[|t| - 1] != '\\')
  }

  /** Every assembled text, with a backslash unless it is complete, fits the buffer with its terminator. */
  predicate Fits(pending: nat, fs: seq<Padded>)
    decreases |fs|
  {
    fs == [] || (
      && pending + |fs[0].text| + (if |fs| == 1 then 1 else 2) <= BUFFER_SIZE
      && Fits(pending + |fs[0].text|, fs[1..]))
  }

  /** The last record of a line completes the pending text. */
  lemma {:induction false} LastRecordReads(pending: string, f: Padded)
    requires NoOuterBlanks(f.text) && (f.text == [] || f.text[|f.text| - 1] != '\\')
    requires pending == [] ==> !CommentedOut(Trimmed(Record(f, true)))
    ensures ReadRecord(pending, Record(f, true)) ==
      if |pending| + |f.text| + 1 <= BUFFER_SIZE then Next([], [KeyValue(pending + f.text)]) else TooLong
  {
    TrimPadded(f.left, f.text, f.right);
    assert Trimmed(Record(f, true)) == f.text;
  }

  /** A continued record joins the pending text without its backslash. */
  lemma {:induction false} ContinuedRecordReads(pending: string, f: Padded)
    requires f.text == [] || f.text[0] != ' '
    requires pending == [] ==> !CommentedOut(Trimmed(Record(f, false)))
    ensures ReadRecord(pending, Record(f, false)) ==
      if |pending| + |f.text| + 2 <= BUFFER_SIZE then Next(pending + f.text, []) else TooLong
  {
    var slice := f.text + "\\";
    TrimPadded(f.left, slice, f.right);
    assert Trimmed(Record(f, false)) == slice;
    assert (pending + slice)[..|pending + slice| - 1] == pending + f.text;
  }

  lemma {:induction false} OneFragment(pending: string, fs: seq<Padded>)
    requires |fs| == 1
    ensures Records(fs) == [Record(fs[0], true)] + [] && Concat(Texts(fs)) == fs[0].text
    ensures Fits(|pending|, fs) <==> |pending| + |fs[0].text| + 1 <= BUFFER_SIZE
  {
    assert fs[1..] == [];
    ConcatFirst(fs[0].text, []);
    assert Fits(|pending| + |fs[0].text|, fs[1..]);
  }

  lemma {:induction false} FirstRecord(fs: seq<Padded>)
    requires |fs| > 1 && WellCut(fs)
    ensures Records(fs) == [Record(fs[0], false)] + Records(fs[1..]) && WellCut(fs[1..])
  {
  }

  lemma {:induction false} FirstText(pending: string, fs: seq<Padded>)
    requires |fs| > 1
    ensures pending + Concat(Texts(fs)) == (pending + fs[0].text) + Concat(Texts(fs[1..]))
  {
    ConcatFirst(fs[0].text, Texts(fs[1..]));
    Regroup(pending, fs[0].text, Concat(Texts(fs[1..])));
  }

  /** The records of the fragments put exactly this entry, or do not fit and put nothing. */
  ghost predicate ReadsAs(pending: string, fs: seq<Padded>, e: Parm) {
    var r := ReadRecords(pending, Records(fs));
    if Fits(|pending|, fs) then r == Read(true, [], [e]) else !r.ok && r.puts == []
  }

  /** What must hold of a line's first record for it to be taken up. */
  predicate Starts(pending: string, fs: seq<Padded>) {
    && WellCut(fs)
    && (pending == [] ==> !CommentedOut(Trimmed(Record(fs[0], |fs| == 1))) && (|fs| > 1 ==> fs[0].text != []))
  }

  lemma {:induction false} OneFragmentReads(pending: string, fs: seq<Padded>)
    requires |fs| == 1 && Starts(pending, fs)
    ensures ReadsAs(pending, fs, KeyValue(pending + fs[0].text))
  {
    LastRecordReads(pending, fs[0]);
    OneFragment(pending, fs);
    ReadFirst(pending, Record(fs[0], true), []);
  }

  lemma {:induction false} MoreFragmentsRead(pending: string, fs: seq<Padded>, e: Parm)
    requires |fs| > 1 && Starts(pending, fs) && ReadsAs(pending + fs[0].text, fs[1..], e)
    ensures ReadsAs(pending, fs, e)
  {
    ContinuedRecordReads(pending, fs[0]);
    FirstRecord(fs);
    ReadFirst(pending, Record(fs[0], false), Records(fs[1..]));
  }

  /** Reading the rest of a continued line. */
  lemma {:induction false} ContinuationReads(pending: string, fs: seq<Padded>)
    requires Starts(pending, fs)
    ensures ReadsAs(pending, fs, KeyValue(pending + Concat(Texts(fs))))
    decreases |fs|
  {
    if |fs| == 1 {
      OneFragmentReads(pending, fs);
      OneFragment(pending, fs);
    } else {
      FirstRecord(fs);
      FirstText(pending, fs);
      ContinuationReads(pending + fs[0].text, fs[1..]);
      MoreFragmentsRead(pending, fs, KeyValue(pending + Concat(Texts(fs))));
    }
  }

  function AllRecords(lines: seq<seq<Padded>>): seq<string> {
    if lines == [] then [] else Records(lines[0]) + AllRecords(lines[1..])
  }

  function LineEntries(lines: seq<seq<Padded>>): seq<Parm> {
    if lines == [] then [] else [KeyValue(Concat(Texts(lines[0])))] + LineEntries(lines[1..])
  }

  /** A member made of any lines, cut into any well-cut fragments that fit the buffer, puts exactly the
      entry of each whole line, in order. */
  lemma {:induction false} MemberReadsBack(lines: seq<seq<Padded>>)
    requires forall i :: 0 <= i < |lines| ==> Starts([], lines[i]) && Fits(0, lines[i])
    ensures ReadRecords([], AllRecords(lines)) == Read(true, [], LineEntries(lines))
    decreases |lines|
  {
    if lines != [] {
      ContinuationReads([], lines[0]);
      assert [] + Concat(Texts(lines[0])) == Concat(Texts(lines[0]));
      MemberReadsBack(lines[1..]);
      ReadAppend([], Records(lines[0]), AllRecords(lines[1..]));
    }
  }

  /** Round trip for one parameter: key=value cut into fragments is read back as that key and value if and
      only if the fragments fit; otherwise the reader stops with nothing stored. */
  lemma {:induction false} ParameterReadsBack(key: string, value: string, fs: seq<Padded>)
    requires '=' !in key && '\0' !in key && '\0' !in value
    requires Starts([], fs) && Concat(Texts(fs)) == key + "=" + value
    ensures Fits(0, fs) <==> ReadRecords([], Records(fs)) == Read(true, [], [Entry(key, value)])
    ensures !Fits(0, fs) ==> !ReadRecords([], Records(fs)).ok && ReadRecords([], Records(fs)).puts == []
  {
    ContinuationReads([], fs);
    assert [] + Concat(Texts(fs)) == Concat(Texts(fs));
    KeyValueReadsBack(key, value);
  }

  /** Continued records that are never completed store nothing, however many there are. */
  lemma {:induction false} UnfinishedIsNotStored(pending: string, records: seq<string>)
    requires forall i :: 0 <= i < |records| ==>
      var t := Trimmed(records[i]);
      t != [] && t[|t| - 1] == '\\'
    ensures ReadRecords(pending, records).puts == []
    decreases |records|
  {
    if records != [] {
      var t := Trimmed(records[0]);
      match ReadRecord(pending, records[0])
      case TooLong =>
      case Next(p, puts) =>
        UnfinishedIsNotStored(p, records[1..]);
    }
  }

  // ----- main parameters

  /** The pieces between commas; at least one, possibly empty. */
  function Split(text: string): (ps: seq<string>)
    ensures ps != []
    decreases |text|
  {
    var i := FindChar(text, ',');
    if i == |text| then [text] else [text[..i]] + Split(text[i + 1..])
  }

  function DropFinalEmpty(ps: seq<string>): seq<string>
    requires ps != []
  {
    if ps[|ps| - 1] == [] then ps[..|ps| - 1] else ps
  }

  /** The pieces that are read: all but a final empty one. */
  function Pieces(text: string): seq<string> {
    DropFinalEmpty(Split(text))
  }

  function PieceEntries(ps: seq<string>): seq<Parm>
    decreases |ps|
  {
    if ps == [] then [] else PieceEntries(ps[..|ps| - 1]) + [KeyValue(ps[|ps| - 1])]
  }

  /** Each piece is read as one parameter. */
  lemma {:induction false} PieceByPiece(ps: seq<string>)
    ensures |PieceEntries(ps)| == |ps| && forall i :: 0 <= i < |ps| ==> PieceEntries(ps)[i] == KeyValue(ps[i])
    decreases |ps|
  {
    if ps != [] {
      PieceByPiece(ps[..|ps| - 1]);
    }
  }

  /** The pieces with commas between them. */
  function Joined(ps: seq<string>): string
    requires ps != []
  {
    if |ps| == 1 then ps[0] else ps[0] + ("," + Joined(ps[1..]))
  }

  lemma {:induction false} FirstComma(p: string, rest: string)
    requires ',' !in p
    ensures FindChar(p + ("," + rest), ',') == |p|
    ensures (p + ("," + rest))[..|p|] == p && (p + ("," + rest))[|p| + 1..] == rest
  {
    var text := p + ("," + rest);
    assert text[|p|] == ',' && forall j :: 0 <= j < |p| ==> text[j] == p[j] != ',';
  }

  lemma {:induction false} SplitFirst(p: string, rest: string)
    requires ',' !in p
    ensures Split(p + ("," + rest)) == [p] + Split(rest) && Split(p) == [p]
  {
    FirstComma(p, rest);
  }

  /** Splitting undoes joining. */
  lemma {:induction false} SplitJoined(ps: seq<string>)
    requires ps != [] && forall i :: 0 <= i < |ps| ==> ',' !in ps[i]
    ensures Split(Joined(ps)) == ps
    decreases |ps|
  {
    if |ps| > 1 {
      SplitJoined(ps[1..]);
      SplitFirst(ps[0], Joined(ps[1..]));
      assert ps == [ps[0]] + ps[1..];
    } else {
      SplitFirst(ps[0], "");
    }
  }

  /** Main parameters read back: the pieces of any comma-separated text are read in order, and only a final empty
      one is dropped. */
  lemma {:induction false} MainParmsReadBack(ps: seq<string>)
    requires ps != [] && forall i :: 0 <= i < |ps| ==> ',' !in ps[i]
    ensures Pieces(Joined(ps)) == if ps[|ps| - 1] == "" then ps[..|ps| - 1] else ps
  {
    SplitJoined(ps);
  }

  lemma {:induction false} DropBehind(p: string, rest: seq<string>)
    requires rest != []
    ensures DropFinalEmpty([p] + rest) == [p] + DropFinalEmpty(rest)
  {
    var all := [p] + rest;
    assert all[|all| - 1] == rest[|rest| - 1];
    assert all[..|all| - 1] == [p] + rest[..|rest| - 1];
  }

  lemma {:induction false} FirstPiece(text: string)
    requires text != []
    ensures
      var i := FindChar(text, ',');
      Pieces(text) == [text[..i]] + (if i == |text| then [] else Pieces(text[i + 1..]))
  {
    var i := FindChar(text, ',');
    if i < |text| {
      DropBehind(text[..i], Split(text[i + 1..]));
    } else {
      assert text[..i] == text && [text][0] != [];
    }
  }

  function CommaFrom(text: string, start: nat): (r: nat)
    requires start <= |text|
    ensures start <= r <= |text|
    decreases |text| - start
  {
    if start == |text| || text[start] == ',' then start else CommaFrom(text, start + 1)
  }

  /** The pieces from a position on, one after the other. */
  function PiecesFrom(text: string, start: nat): seq<string>
    decreases |text| - start
  {
    if start >= |text| then [] else [text[start..CommaFrom(text, start)]] + PiecesFrom(text, CommaFrom(text, start) + 1)
  }

  lemma {:induction false} CommaIsFirst(text: string, start: nat)
    requires start <= |text|
    ensures FindChar(text[start..], ',') == CommaFrom(text, start) - start
    decreases |text| - start
  {
    if start < |text| && text[start] != ',' {
      CommaIsFirst(text, start + 1);
      assert text[start..][1..] == text[start + 1..];
    }
  }

  lemma {:induction false} LastPiece(text: string, start: nat)
    requires start < |text| && CommaFrom(text, start) == |text|
    ensures Pieces(text[start..]) == [text[start..]]
  {
    CommaIsFirst(text, start);
    FirstPiece(text[start..]);
    assert text[start..][..|text| - start] == text[start..];
  }

  lemma {:induction false} PieceBeforeComma(text: string, start: nat)
    requires start < |text| && CommaFrom(text, start) < |text|
    ensures
      var end := CommaFrom(text, start);
      Pieces(text[start..]) == [text[start..end]] + Pieces(text[end + 1..])
  {
    var rest, end := text[start..], CommaFrom(text, start);
    CommaIsFirst(text, start);
    FirstPiece(rest);
    assert rest[..end - start] == text[start..end] && rest[end - start + 1..] == text[end + 1..];
  }

  lemma {:induction false} PiecesFromArePieces(text: string, start: nat)
    requires start <= |text|
    ensures PiecesFrom(text, start) == Pieces(text[start..])
    decreases |text| - start
  {
    if start == |text| {
      assert text[start..] == [] && Pieces([]) == [];
    } else if CommaFrom(text, start) == |text| {
      LastPiece(text, start);
      assert text[start..|text|] == text[start..] && PiecesFrom(text, |text| + 1) == [];
    } else {
      PieceBeforeComma(text, start);
      PiecesFromArePieces(text, CommaFrom(text, start) + 1);
    }
  }

  /** The inner loop of zisReadMainParms. */
  method FindComma(text: string, startIdx: nat) returns (endIdx: nat)
    requires startIdx <= |text|
    ensures endIdx == CommaFrom(text, startIdx)
  {
    endIdx := startIdx;
    while endIdx < |text|
      invariant startIdx <= endIdx <= |text| && CommaFrom(text, endIdx) == CommaFrom(text, startIdx)
    {
      if text[endIdx] == ',' {
        break;
      }
      endIdx := endIdx + 1;
    }
  }

  /** Puts one piece; `before` are the pieces put so far. */
  method PutPiece(parms: ParmSet, piece: string, ghost first: seq<Parm>, ghost before: seq<string>)
    requires parms.Valid() && parms.puts == first + PieceEntries(before)
    modifies parms
    ensures parms.Valid() && parms.puts == first + PieceEntries(before + [piece])
  {
    var entry := KeyValue(piece);
    assert (before + [piece])[..|before|] == before;
    Regroup(first, PieceEntries(before), [entry]);
    parms.PutValue(entry.key, entry.value);
  }

  /** zisReadMainParms. */
  method ReadMainParms(parms: ParmSet, text: string)
    requires parms.Valid()
    modifies parms
    ensures parms.Valid() && parms.puts == old(parms.puts) + PieceEntries(Pieces(text))
  {
    var startIdx := 0;
    ghost var done: seq<string> := [];
    while startIdx < |text|
      invariant startIdx <= |text| + 1 && parms.Valid() && parms.puts == old(parms.puts) + PieceEntries(done)
      invariant done + PiecesFrom(text, startIdx) == PiecesFrom(text, 0)
    {
      var endIdx := FindComma(text, startIdx);
      PutPiece(parms, text[startIdx..endIdx], old(parms.puts), done);
      Regroup(done, [text[startIdx..endIdx]], PiecesFrom(text, endIdx + 1));
      done := done + [text[startIdx..endIdx]];
      startIdx := endIdx + 1;
    }
    assert done + [] == done;
    WholeText(text);
  }

  lemma {:induction false} WholeText(text: string)
    ensures PiecesFrom(text, 0) == Pieces(text)
  {
    PiecesFromArePieces(text, 0);
    assert text[0..] == text;
  }
}
