/** What several modules need: optional values, repeated elements and joined sequences. */
module Common {

  datatype Option<+T> = None | Some(value: T)

  function Repeat<T>(x: T, n: nat): (s: seq<T>)
    ensures |s| == n && forall i :: 0 <= i < n ==> s[i] == x
  {
    if n == 0 then [] else [x] + Repeat(x, n - 1)
  }

  function Concat<T>(parts: seq<seq<T>>): seq<T>
    decreases |parts|
  {
    if parts == [] then [] else Concat(parts[..|parts| - 1]) + parts[|parts| - 1]
  }

  lemma ConcatOneMore<T>(parts: seq<seq<T>>, last: seq<T>)
    ensures Concat(parts + [last]) == Concat(parts) + last
  {
    assert (parts + [last])[..|parts|] == parts;
  }

  /** Joining may as well start at the front. */
  lemma {:induction false} ConcatFirst<T>(first: seq<T>, rest: seq<seq<T>>)
    ensures Concat([first] + rest) == first + Concat(rest)
    decreases |rest|
  {
    if rest == [] {
      assert [first] + rest == [] + [first];
      ConcatOneMore([], first);
    } else {
      var n := |rest| - 1;
      assert [first] + rest == ([first] + rest[..n]) + [rest[n]];
      ConcatFirst(first, rest[..n]);
      ConcatOneMore([first] + rest[..n], rest[n]);
      Regroup(first, Concat(rest[..n]), rest[n]);
    }
  }

  lemma Regroup<T>(a: seq<T>, b: seq<T>, c: seq<T>)
    ensures (a + b) + c == a + (b + c)
  {
  }
}
