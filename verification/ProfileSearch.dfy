/** Search for all profiles with a given prefix through a paged extraction service.  Pages overlap by one
    entry: the last entry of a full page is where the next page starts. */
module ProfileSearch {
  import opened Common

  const PROFILE_LENGTH: nat := 255
  const DEFAULT_CAPACITY: nat := 128

  datatype Profile = Profile(name: string, owner: string)

  // ----- profile names: blank-padded fields, compared byte by byte

  predicate IsField(name: string) {
    |name| == PROFILE_LENGTH && forall i :: 0 <= i < |name| ==> name[i] >= ' '
  }

  function Pad(s: string): (f: string)
    requires |s| <= PROFILE_LENGTH
    ensures |f| == PROFILE_LENGTH
  {
    s + Repeat(' ', PROFILE_LENGTH - |s|)
  }

  /** nullTerminate: the text up to its trailing blanks. */
  function TrimRight(f: string): (s: string)
    ensures s <= f && (s == [] || s[|s| - 1] != ' ')
  {
    if f != [] && f[|f| - 1] == ' ' then TrimRight(f[..|f| - 1]) else f
  }

  /** A field survives being trimmed to a C string and padded again. */
  lemma {:induction false} PadTrim(f: string, n: nat)
    ensures f + Repeat(' ', n) == TrimRight(f) + Repeat(' ', |f| - |TrimRight(f)| + n)
    decreases |f|
  {
    if f != [] && f[|f| - 1] == ' ' {
      var g := f[..|f| - 1];
      PadTrim(g, n + 1);
      assert f == g + [' '];
      assert f + Repeat(' ', n) == g + Repeat(' ', n + 1);
    }
  }

  /** The first place where two fields differ decides. */
  predicate Less(a: string, b: string)
    requires |a| == |b|
  {
    a != [] && (a[0] < b[0] || (a[0] == b[0] && Less(a[1..], b[1..])))
  }

  lemma {:induction false} LessIrreflexive(a: string)
    ensures !Less(a, a)
    decreases |a|
  {
    if a != [] {
      LessIrreflexive(a[1..]);
    }
  }

  /** No field with a prefix sorts before the padded prefix. */
  lemma {:induction false} PrefixIsLeast(prefix: string, f: string, n: nat)
    requires prefix <= f && |f| == |prefix| + n && forall i :: 0 <= i < |f| ==> f[i] >= ' '
    ensures !Less(f, prefix + Repeat(' ', n))
    decreases |f|
  {
    if f != [] {
      var p := prefix + Repeat(' ', n);
      if prefix == [] {
        PrefixIsLeast([], f[1..], n - 1);
        assert p[1..] == [] + Repeat(' ', n - 1);
      } else {
        PrefixIsLeast(prefix[1..], f[1..], n);
        assert p[1..] == prefix[1..] + Repeat(' ', n);
      }
    }
  }

  // ----- the profile store

  ghost predicate Sorted(store: seq<Profile>) {
    && (forall i :: 0 <= i < |store| ==> IsField(store[i].name))
    && (forall i, j :: 0 <= i < j < |store| ==> Less(store[i].name, store[j].name))
  }

  /** Position of the first profile that does not sort before the field. */
  function Position(store: seq<Profile>, field: string): (p: nat)
    requires |field| == PROFILE_LENGTH && forall i :: 0 <= i < |store| ==> |store[i].name| == PROFILE_LENGTH
    ensures p <= |store|
    ensures forall i :: 0 <= i < p ==> Less(store[i].name, field)
    ensures p < |store| ==> !Less(store[p].name, field)
  {
    if store == [] || !Less(store[0].name, field) then 0 else 1 + Position(store[1..], field)
  }

  /** The extraction service: the first `count` profiles, in order, from a start name on. */
  function ExtractProfiles(store: seq<Profile>, start: string, count: nat): seq<Profile>
    requires |start| <= PROFILE_LENGTH && forall i :: 0 <= i < |store| ==> |store[i].name| == PROFILE_LENGTH
  {
    var p := Position(store, Pad(start));
    if p + count <= |store| then store[p..p + count] else store[p..]
  }

  /** What the search is for. */
  function WithPrefix(profiles: seq<Profile>, prefix: string): seq<Profile>
    decreases |profiles|
  {
    if profiles == [] then []
    else
      var last := profiles[|profiles| - 1];
      WithPrefix(profiles[..|profiles| - 1], prefix) + (if prefix <= last.name then [last] else [])
  }

  /** Every profile with the prefix is found as often as it is there, and nothing else is. */
  lemma {:induction false} WithPrefixCounts(profiles: seq<Profile>, prefix: string, p: Profile)
    ensures multiset(WithPrefix(profiles, prefix))[p] == if prefix <= p.name then multiset(profiles)[p] else 0
    decreases |profiles|
  {
    if profiles != [] {
      var before, last := profiles[..|profiles| - 1], profiles[|profiles| - 1];
      WithPrefixCounts(before, prefix, p);
      assert profiles == before + [last];
    }
  }

  lemma {:induction false} FoundIsThere(profiles: seq<Profile>, prefix: string, p: Profile)
    requires p in WithPrefix(profiles, prefix)
    ensures p in profiles && prefix <= p.name
  {
    WithPrefixCounts(profiles, prefix, p);
    assert p in multiset(WithPrefix(profiles, prefix));
    assert p in multiset(profiles);
  }

  lemma {:induction false} FoundSortsBefore(store: seq<Profile>, prefix: string, p: Profile)
    requires Sorted(store) && store != [] && p in WithPrefix(store[..|store| - 1], prefix)
    ensures IsField(p.name) && IsField(store[|store| - 1].name) && Less(p.name, store[|store| - 1].name)
  {
    FoundIsThere(store[..|store| - 1], prefix, p);
    var j :| 0 <= j < |store| - 1 && store[j] == p;
  }

  lemma {:induction false} SortedMore(found: seq<Profile>, last: Profile)
    requires Sorted(found) && IsField(last.name)
    requires forall p :: p in found ==> IsField(p.name) && Less(p.name, last.name)
    ensures Sorted(found + [last])
  {
    var all := found + [last];
    forall i, j | 0 <= i < j < |all| ensures Less(all[i].name, all[j].name) {
      assert all[i] in found;
    }
  }

  /** What is found of a sorted store is sorted, and so holds no profile twice. */
  lemma {:induction false} WithPrefixSorted(store: seq<Profile>, prefix: string)
    requires Sorted(store)
    ensures Sorted(WithPrefix(store, prefix))
    decreases |store|
  {
    if store != [] {
      var before, last := store[..|store| - 1], store[|store| - 1];
      WithPrefixSorted(before, prefix);
      forall p | p in WithPrefix(before, prefix) ensures IsField(p.name) && Less(p.name, last.name) {
        FoundSortsBefore(store, prefix, p);
      }
      SortedMore(WithPrefix(before, prefix), last);
      assert WithPrefix(before, prefix) + [] == WithPrefix(before, prefix);
    }
  }

  lemma {:induction false} WithPrefixAppend(a: seq<Profile>, b: seq<Profile>, prefix: string)
    ensures WithPrefix(a + b, prefix) == WithPrefix(a, prefix) + WithPrefix(b, prefix)
    decreases |b|
  {
    if b == [] {
      assert a + b == a;
    } else {
      var c, last := b[..|b| - 1], b[|b| - 1];
      WithPrefixAppend(a, c, prefix);
      assert (a + b)[..|a + b| - 1] == a + c;
      Regroup(WithPrefix(a, prefix), WithPrefix(c, prefix), if prefix <= last.name then [last] else []);
    }
  }

  lemma {:induction false} NoneWithPrefix(profiles: seq<Profile>, prefix: string)
    requires forall i :: 0 <= i < |profiles| ==> !(prefix <= profiles[i].name)
    ensures WithPrefix(profiles, prefix) == []
    decreases |profiles|
  {
    if profiles != [] {
      NoneWithPrefix(profiles[..|profiles| - 1], prefix);
    }
  }

  /** The profiles skipped by starting at the prefix do not have it. */
  lemma {:induction false} SkippedHaveNoPrefix(store: seq<Profile>, prefix: string)
    requires Sorted(store) && |prefix| <= PROFILE_LENGTH
    ensures WithPrefix(store[..Position(store, Pad(prefix))], prefix) == []
  {
    var p := Position(store, Pad(prefix));
    forall i | 0 <= i < p ensures !(prefix <= store[i].name) {
      if prefix <= store[i].name {
        PrefixIsLeast(prefix, store[i].name, PROFILE_LENGTH - |prefix|);
        assert false;
      }
    }
    NoneWithPrefix(store[..p], prefix);
  }

  /** Starting at the name of the p-th profile, trimmed, resumes exactly at that profile. */
  lemma {:induction false} ResumesAt(store: seq<Profile>, p: nat)
    requires Sorted(store) && p < |store|
    ensures |TrimRight(store[p].name)| <= PROFILE_LENGTH
    ensures Position(store, Pad(TrimRight(store[p].name))) == p
  {
    var f := store[p].name;
    PadTrim(f, 0);
    assert f + Repeat(' ', 0) == f;
    assert Pad(TrimRight(f)) == f;
    var q := Position(store, f);
    LessIrreflexive(f);
  }

  // ----- the search

  /** The result buffer: grows by doubling, keeping what it holds. */
  method Append(buffer: array<Profile>, found: nat, e: Profile) returns (buffer': array<Profile>)
    requires found <= buffer.Length && buffer.Length > 0
    modifies buffer
    ensures buffer' == buffer || fresh(buffer')
    ensures found < buffer'.Length && buffer'[..found + 1] == old(buffer[..found]) + [e]
  {
    buffer' := buffer;
    if buffer.Length < found + 1 {
      buffer' := new Profile[2 * buffer.Length](_ => e);
      for k := 0 to found
        invariant buffer'[..k] == buffer[..k] && buffer[..found] == old(buffer[..found])
      {
        buffer'[k] := buffer[k];
      }
    }
    buffer'[found] := e;
  }

  /** The inner loop: filters one page into the buffer. */
  method FilterPage(page: seq<Profile>, prefix: string, buffer: array<Profile>, found: nat)
    returns (buffer': array<Profile>, found': nat)
    requires found <= buffer.Length && buffer.Length > 0
    modifies buffer
    ensures buffer' == buffer || fresh(buffer')
    ensures found' <= buffer'.Length && buffer'.Length > 0
    ensures buffer'[..found'] == old(buffer[..found]) + WithPrefix(page, prefix)
  {
    buffer', found' := buffer, found;
    ghost var before := buffer[..found];
    for i := 0 to |page|
      invariant buffer' == buffer || fresh(buffer')
      invariant found' <= buffer'.Length && buffer'.Length > 0
      invariant buffer'[..found'] == before + WithPrefix(page[..i], prefix)
    {
      assert page[..i + 1][..i] == page[..i];
      if !(prefix <= page[i].name) {
        continue;
      }
      buffer' := Append(buffer', found', page[i]);
      found' := found' + 1;
    }
    assert page[..|page|] == page;
  }

  /** How much of a page is processed: all of a short page, all but the last entry of a full one. */
  function ToProcess(page: seq<Profile>, pageSize: nat): nat
    requires |page| <= pageSize && pageSize >= 2
  {
    if |page| < pageSize then |page| else pageSize - 1
  }

  /** Where the search of a page ends: the next page, if there is one, starts there. */
  function PageEnd(store: seq<Profile>, start: string, pageSize: nat): nat
    requires |start| <= PROFILE_LENGTH && pageSize >= 2
    requires forall i :: 0 <= i < |store| ==> |store[i].name| == PROFILE_LENGTH
  {
    Position(store, Pad(start)) + ToProcess(ExtractProfiles(store, start, pageSize), pageSize)
  }

  /** What is processed of a page is the next part of the store: all the rest if the page is short, and otherwise
      up to the page's last entry. */
  lemma {:induction false} PageIsNext(store: seq<Profile>, start: string, pageSize: nat)
    requires Sorted(store) && |start| <= PROFILE_LENGTH && pageSize >= 2
    ensures
      var p, q := Position(store, Pad(start)), PageEnd(store, start, pageSize);
      var page := ExtractProfiles(store, start, pageSize);
      && p <= q <= |store| && page[..q - p] == store[p..q]
      && (|page| < pageSize ==> q == |store|)
      && (|page| == pageSize ==> p < q < |store| && page[pageSize - 1] == store[q])
  {
  }

  lemma {:induction false} NextPageResumes(store: seq<Profile>, start: string, pageSize: nat)
    requires Sorted(store) && |start| <= PROFILE_LENGTH && pageSize >= 2
    requires |ExtractProfiles(store, start, pageSize)| == pageSize
    ensures
      var name := TrimRight(ExtractProfiles(store, start, pageSize)[pageSize - 1].name);
      |name| <= PROFILE_LENGTH && Position(store, Pad(name)) == PageEnd(store, start, pageSize)
  {
    PageIsNext(store, start, pageSize);
    ResumesAt(store, PageEnd(store, start, pageSize));
  }

  /** One page continues the part of the store already searched. */
  lemma {:induction false} PageContinues(store: seq<Profile>, prefix: string, p: nat, q: nat)
    requires p <= q <= |store|
    ensures WithPrefix(store[..q], prefix) == WithPrefix(store[..p], prefix) + WithPrefix(store[p..q], prefix)
  {
    assert store[..p] + store[p..q] == store[..q];
    WithPrefixAppend(store[..p], store[p..q], prefix);
  }

  /** One round of the search loop: filters a page and finds where the next one starts. */
  method SearchPage(store: seq<Profile>, prefix: string, start: string, pageSize: nat, buffer: array<Profile>,
                    found: nat)
    returns (buffer': array<Profile>, found': nat, done: bool, start': string)
    requires Sorted(store) && pageSize >= 2 && |start| <= PROFILE_LENGTH && found <= buffer.Length && buffer.Length > 0
    modifies buffer
    ensures buffer' == buffer || fresh(buffer')
    ensures found' <= buffer'.Length && buffer'.Length > 0
    ensures
      var p, q := Position(store, Pad(start)), PageEnd(store, start, pageSize);
      && p <= q <= |store| && buffer'[..found'] == old(buffer[..found]) + WithPrefix(store[p..q], prefix)
      && (done ==> q == |store|)
      && (!done ==> p < q && |start'| <= PROFILE_LENGTH && Position(store, Pad(start')) == q)
  {
    var page := ExtractProfiles(store, start, pageSize);
    PageIsNext(store, start, pageSize);
    var toProcess := ToProcess(page, pageSize);
    buffer', found' := FilterPage(page[..toProcess], prefix, buffer, found);
    done := |page| < pageSize;
    start' := start;
    if !done {
      start' := TrimRight(page[pageSize - 1].name);
      NextPageResumes(store, start, pageSize);
    }
  }

  /** getProfilesByPrefixOrFail.  For every sorted store, every prefix and every page size of at least 2
      the loop ends, and unless a service call fails the result is exactly the profiles with that prefix,
      each once and in order.  `fails` says which service calls fail. */
  method ProfilesByPrefix(store: seq<Profile>, prefix: string, pageSize: nat, fails: nat -> bool)
    returns (ok: bool, buffer: array<Profile>, found: nat)
    requires Sorted(store) && pageSize >= 2
    ensures ok ==> found <= buffer.Length && buffer[..found] == WithPrefix(store, prefix)
    ensures !ok ==> found == 0 && (|prefix| > PROFILE_LENGTH || exists k :: fails(k))
    ensures |prefix| > PROFILE_LENGTH ==> !ok
  {
    ok, found := false, 0;
    buffer := new Profile[DEFAULT_CAPACITY](_ => Profile("", ""));
    if |prefix| > PROFILE_LENGTH {
      return;
    }
    var start, done, calls := prefix, false, 0;
    ghost var p: nat := Position(store, Pad(prefix));
    SkippedHaveNoPrefix(store, prefix);
    while !done
      invariant fresh(buffer) && found <= buffer.Length && buffer.Length > 0 && p <= |store|
      invariant buffer[..found] == WithPrefix(store[..p], prefix)
      invariant if done then p == |store| else |start| <= PROFILE_LENGTH && p == Position(store, Pad(start))
      decreases !done, |store| - p
    {
      if fails(calls) {
        found := 0;
        return;
      }
      calls := calls + 1;
      ghost var end := PageEnd(store, start, pageSize);
      buffer, found, done, start := SearchPage(store, prefix, start, pageSize, buffer, found);
      PageContinues(store, prefix, p, end);
      p := end;
    }
    assert store[..|store|] == store;
    ok := true;
  }
}
