/** Dataset paths of the form //'dsn' or //'dsn(member)': validation and extraction of the names. */
module DatasetPath {
  import opened Common

  const PREFIX: string := "//'"
  const SUFFIX: char := '\''

  const PATH_MIN_LENGTH: int := 5
  const PATH_MAX_LENGTH: int := 58
  const DSN_MAX_LENGTH: int := 44
  const MEMBER_MAX_LENGTH: int := 8

  /** strchr from a given position: where the character is first found, or the end. */
  function FindFrom(s: string, c: char, from: nat): (r: nat)
    requires from <= |s|
    ensures from <= r <= |s|
    ensures r < |s| ==> s[r] == c
    ensures forall j :: from <= j < r ==> s[j] != c
    decreases |s| - from
  {
    if from == |s| || s[from] == c then from else FindFrom(s, c, from + 1)
  }

  /** isDatasetPathValid. */
  predicate IsDatasetPathValid(path: string) {
    var n := |path|;
    if n < PATH_MIN_LENGTH || PATH_MAX_LENGTH < n then false
    else if path[..3] != PREFIX then false
    else if path[n - 1] != SUFFIX then false
    else
      var dsnStart, dsnEnd := 3, n - 2;
      var left, right := FindFrom(path, '(', dsnStart), FindFrom(path, ')', dsnStart);
      if (left < n) != (right < n) then false
      else if left < n then
        && 1 <= left - dsnStart <= DSN_MAX_LENGTH
        && right == dsnEnd
        && 1 <= right - left - 1 <= MEMBER_MAX_LENGTH
      else
        1 <= dsnEnd - dsnStart + 1 <= DSN_MAX_LENGTH
  }

  // ----- what a valid path is

  /** A dataset name and, for a member, the member's name. */
  datatype Names = Names(dsn: string, member: Option<string>)

  predicate WellFormed(names: Names) {
    && 1 <= |names.dsn| <= DSN_MAX_LENGTH && '(' !in names.dsn && ')' !in names.dsn
    && (names.member.Some? ==> 1 <= |names.member.value| <= MEMBER_MAX_LENGTH && ')' !in names.member.value)
  }

  function Print(names: Names): string {
    PREFIX + names.dsn + (if names.member.Some? then "(" + names.member.value + ")" else "") + [SUFFIX]
  }

  /** The names in a valid path. */
  function Parse(path: string): Names
    requires IsDatasetPathValid(path)
  {
    var n := |path|;
    var left := FindFrom(path, '(', 3);
    if left < n then Names(path[3..left], Some(path[left + 1..n - 2])) else Names(path[3..n - 1], None)
  }

  /** Where the characters of a printed path are. */
  lemma {:induction false} PrintedMember(names: Names)
    requires WellFormed(names) && names.member.Some?
    ensures
      var path, d, m := Print(names), |names.dsn|, names.member.value;
      var n := |path|;
      && n == d + |m| + 6 && path[..3] == PREFIX && path[n - 1] == SUFFIX
      && path[3..3 + d] == names.dsn && path[3 + d] == '(' && path[4 + d..n - 2] == m && path[n - 2] == ')'
  {
  }

  lemma {:induction false} PrintedDataset(names: Names)
    requires WellFormed(names) && names.member.None?
    ensures
      var path, d := Print(names), |names.dsn|;
      |path| == d + 4 && path[..3] == PREFIX && path[d + 3] == SUFFIX && path[3..3 + d] == names.dsn
  {
  }

  /** Printed names are valid and parse back to themselves. */
  lemma {:induction false} PrintParses(names: Names)
    requires WellFormed(names)
    ensures IsDatasetPathValid(Print(names)) && Parse(Print(names)) == names
  {
    var path := Print(names);
    var n, d := |path|, |names.dsn|;
    var left, right := FindFrom(path, '(', 3), FindFrom(path, ')', 3);
    if names.member.Some? {
      PrintedMember(names);
      assert forall j :: 3 <= j < 3 + d ==> path[j] == path[3..3 + d][j - 3];
      assert left == 3 + d;
      assert forall j :: 4 + d <= j < n - 2 ==> path[j] == path[4 + d..n - 2][j - 4 - d];
      assert right == n - 2;
    } else {
      PrintedDataset(names);
      assert forall j :: 3 <= j < 3 + d ==> path[j] == path[3..3 + d][j - 3];
      assert left == n && right == n;
    }
  }

  lemma {:induction false} ParsedAreWellFormed(path: string)
    requires IsDatasetPathValid(path)
    ensures WellFormed(Parse(path))
  {
    var left := FindFrom(path, '(', 3);
    var names := Parse(path);
    assert forall j :: 0 <= j < |names.dsn| ==> names.dsn[j] == path[3 + j];
    assert names.member.Some? ==>
      forall j :: 0 <= j < |names.member.value| ==> names.member.value[j] == path[left + 1 + j];
  }

  lemma {:induction false} Cut(s: string, a: nat, b: nat)
    requires a <= b && b + 1 == |s|
    ensures s == s[..a] + s[a..b] + [s[b]]
  {
  }

  lemma {:induction false} CutMember(path: string, left: nat)
    requires 3 <= left < |path| - 2 && path[left] == '(' && path[|path| - 2] == ')'
    ensures path[3..|path| - 1] == path[3..left] + ("(" + path[left + 1..|path| - 2] + ")")
  {
  }

  lemma {:induction false} MemberPrints(path: string)
    requires IsDatasetPathValid(path) && FindFrom(path, '(', 3) < |path|
    ensures Print(Parse(path)) == path
  {
    var n, left := |path|, FindFrom(path, '(', 3);
    Cut(path, 3, n - 1);
    CutMember(path, left);
    Regroup(PREFIX, path[3..left], "(" + path[left + 1..n - 2] + ")");
  }

  lemma {:induction false} DatasetPrints(path: string)
    requires IsDatasetPathValid(path) && FindFrom(path, '(', 3) == |path|
    ensures Print(Parse(path)) == path
  {
    Cut(path, 3, |path| - 1);
    assert path[3..|path| - 1] + "" == path[3..|path| - 1];
  }

  /** Every valid path is the print of well-formed names. */
  lemma {:induction false} ParsePrints(path: string)
    requires IsDatasetPathValid(path)
    ensures WellFormed(Parse(path)) && Print(Parse(path)) == path
  {
    ParsedAreWellFormed(path);
    if FindFrom(path, '(', 3) < |path| {
      MemberPrints(path);
    } else {
      DatasetPrints(path);
    }
  }

  /** Validation accepts exactly the printed names. */
  lemma {:induction false} ValidIffPrinted(path: string)
    ensures IsDatasetPathValid(path) <==> exists names :: WellFormed(names) && path == Print(names)
  {
    if IsDatasetPathValid(path) {
      ParsePrints(path);
    }
    if names :| WellFormed(names) && path == Print(names) {
      PrintParses(names);
    }
  }

  // ----- extraction

  function ToUpper(c: char): char {
    if 'a' <= c <= 'z' then (c as int - 32) as char else c
  }

  /** The k-th small letter becomes the k-th capital one, and every other character stays. */
  lemma ToUpperIsPlace(c: char, k: nat)
    ensures k < 26 && c as int == 'a' as int + k ==> ToUpper(c) as int == 'A' as int + k
    ensures c < 'a' || 'z' < c ==> ToUpper(c) == c
  {
  }

  function Upper(s: string): (u: string)
    ensures |u| == |s| && forall i :: 0 <= i < |s| ==> u[i] == ToUpper(s[i])
  {
    if s == [] then [] else [ToUpper(s[0])] + Upper(s[1..])
  }

  /** Upper case, padded with blanks to the field's size. */
  function Field(s: string, size: nat): (f: string)
    requires |s| <= size
    ensures |f| == size && forall i :: 0 <= i < size ==> f[i] == if i < |s| then ToUpper(s[i]) else ' '
  {
    Upper(s) + Repeat(' ', size - |s|)
  }

  /** memset with blanks, memcpy, and the toupper loop, on one fixed-size field. */
  method FillField(field: array<char>, s: string)
    requires |s| <= field.Length
    modifies field
    ensures field[..] == Field(s, field.Length)
  {
    for i := 0 to field.Length
      invariant forall j :: 0 <= j < i ==> field[j] == ' '
    {
      field[i] := ' ';
    }
    for i := 0 to |s|
      invariant forall j :: 0 <= j < i ==> field[j] == s[j]
      invariant forall j :: i <= j < field.Length ==> field[j] == ' '
    {
      field[i] := s[i];
    }
    for i := 0 to field.Length
      invariant forall j :: 0 <= j < i ==> field[j] == if j < |s| then ToUpper(s[j]) else ' '
      invariant forall j :: i <= j < field.Length ==> field[j] == if j < |s| then s[j] else ' '
    {
      field[i] := ToUpper(field[i]);
    }
  }

  /** extractDatasetAndMemberName: for a valid path every copy stays inside its field, and the fields are
      the upper-cased, blank-padded names; a path without member leaves the member field blank. */
  method Extract(path: string, dsn: array<char>, member: array<char>)
    requires IsDatasetPathValid(path)
    requires dsn.Length == DSN_MAX_LENGTH && member.Length == MEMBER_MAX_LENGTH && dsn != member
    modifies dsn, member
    ensures
      var names := Parse(path);
      && |names.dsn| <= DSN_MAX_LENGTH && dsn[..] == Field(names.dsn, DSN_MAX_LENGTH)
      && (names.member.Some? ==>
           |names.member.value| <= MEMBER_MAX_LENGTH && member[..] == Field(names.member.value, MEMBER_MAX_LENGTH))
      && (names.member.None? ==> member[..] == Repeat(' ', MEMBER_MAX_LENGTH))
  {
    var n := |path|;
    var leftParen := FindFrom(path, '(', 0);
    assert FindFrom(path, '(', 3) == leftParen by {
      assert path[0] == PREFIX[0] && path[1] == PREFIX[1] && path[2] == PREFIX[2];
    }
    if leftParen < n {
      FillField(dsn, path[3..leftParen]);
      var rightParen := FindFrom(path, ')', 0);
      assert FindFrom(path, ')', 3) == rightParen by {
        assert path[0] == PREFIX[0] && path[1] == PREFIX[1] && path[2] == PREFIX[2];
      }
      FillField(member, path[leftParen + 1..rightParen]);
    } else {
      FillField(dsn, path[3..3 + (n - 4)]);
      FillField(member, "");
      assert Field("", MEMBER_MAX_LENGTH) == Repeat(' ', MEMBER_MAX_LENGTH);
    }
  }
}
