/** Decoding of environment-variable keys: runs of underscores stand for '_', '-' and '.', and
    `_xHH` stands for the character with ASCII code HH. */
module EnvKey {
  import opened Common

  const MAX_UNDERSCORES: nat := 4

  /** checkValidHex: the digit's value, or -1. */
  function HexValue(h: char): (v: int)
    ensures -1 <= v < 16
  {
    if '0' <= h <= '9' then h as int - '0' as int
    else if 'a' <= h <= 'f' then h as int - 'a' as int + 10
    else if 'A' <= h <= 'F' then h as int - 'A' as int + 10
    else -1
  }

  /** convertHexToChar: a NUL result means "not an escape".  `a2e` is the platform's code-page table. */
  function HexChar(h1: char, h2: char, a2e: nat -> char): char {
    if HexValue(h1) < 0 || HexValue(h2) < 0 then '\0' else a2e(16 * HexValue(h1) + HexValue(h2))
  }

  const UPPER_DIGITS: string := "0123456789ABCDEF"
  const LOWER_DIGITS: string := "0123456789abcdef"

  /** Exactly the digits of either case have a value, and the value is their place. */
  lemma HexValueIsPlace(h: char)
    ensures HexValue(h) >= 0 <==> h in UPPER_DIGITS || h in LOWER_DIGITS
    ensures HexValue(h) >= 0 ==> h == UPPER_DIGITS[HexValue(h)] || h == LOWER_DIGITS[HexValue(h)]
  {
    forall k | 0 <= k < 16 ensures HexValue(UPPER_DIGITS[k]) == k == HexValue(LOWER_DIGITS[k]) {
    }
    if HexValue(h) >= 0 {
      var k := HexValue(h);
      assert h == UPPER_DIGITS[k] || h == LOWER_DIGITS[k];
    }
  }

  // ----- what a key means

  predicate EscapeAt(s: string, a2e: nat -> char) {
    |s| > 3 && s[0] == '_' && s[1] == 'x' && HexChar(s[2], s[3], a2e) != '\0'
  }

  /** The text begins with an underscore that stands for itself. */
  predicate PlainUnderscore(s: string, a2e: nat -> char) {
    s != [] && s[0] == '_' && !EscapeAt(s, a2e)
  }

  /** Length of the run of underscores at the front, not counting one that begins an escape. */
  function PlainRun(s: string, a2e: nat -> char): (n: nat)
    ensures n <= |s|
  {
    if PlainUnderscore(s, a2e) then 1 + PlainRun(s[1..], a2e) else 0
  }

  /** A run of 4k + r underscores: k dots, then nothing, '_', '_' or '-' for r = 0, 1, 2, 3. */
  function RunText(n: nat): (t: string)
    ensures |t| <= n
  {
    Repeat('.', n / 4) + (if n % 4 == 0 then "" else if n % 4 == 3 then "-" else "_")
  }

  /** The decoded key, token by token: an escape, a maximal plain run, or a character standing for itself. */
  function Decoded(s: string, a2e: nat -> char): (t: string)
    ensures |t| <= |s|
    decreases |s|
  {
    if s == [] then []
    else if EscapeAt(s, a2e) then [HexChar(s[2], s[3], a2e)] + Decoded(s[4..], a2e)
    else if s[0] == '_' then
      var n := PlainRun(s, a2e);
      RunText(n) + Decoded(s[n..], a2e)
    else [s[0]] + Decoded(s[1..], a2e)
  }

  // ----- the decoder

  lemma LongRun(n: nat)
    ensures RunText(4 + n) == ['.'] + RunText(n)
  {
    assert (4 + n) / 4 == 1 + n / 4 && (4 + n) % 4 == n % 4;
  }

  /** What `count` pending underscores in front of s decode to. */
  function Pending(count: nat, s: string, a2e: nat -> char): string {
    var n := PlainRun(s, a2e);
    RunText(count + n) + Decoded(s[n..], a2e)
  }

  /** Counting underscores one by one amounts to the whole run. */
  lemma PendingCounts(count: nat, key: string, i: nat, a2e: nat -> char)
    requires i < |key| && PlainUnderscore(key[i..], a2e)
    ensures Pending(count, key[i..], a2e) == Pending(count + 1, key[i + 1..], a2e)
  {
    assert key[i..][1..] == key[i + 1..];
    var n := PlainRun(key[i + 1..], a2e);
    assert PlainRun(key[i..], a2e) == 1 + n;
    assert key[i..][1 + n..] == key[i + 1..][n..];
    assert count + (1 + n) == (count + 1) + n;
  }

  lemma NotInRun(count: nat, s: string, a2e: nat -> char)
    requires !PlainUnderscore(s, a2e)
    ensures Pending(count, s, a2e) == RunText(count) + Decoded(s, a2e)
  {
    assert s[0..] == s;
  }

  lemma NothingPending(s: string, a2e: nat -> char)
    ensures Pending(0, s, a2e) == Decoded(s, a2e)
  {
    if !PlainUnderscore(s, a2e) {
      NotInRun(0, s, a2e);
    }
  }

  /** A fifth underscore: the four before it are a dot. */
  lemma FullRunPending(s: string, a2e: nat -> char)
    ensures Pending(4, s, a2e) == ['.'] + Pending(0, s, a2e)
  {
    var n := PlainRun(s, a2e);
    LongRun(n);
    Regroup(['.'], RunText(n), Decoded(s[n..], a2e));
  }

  /** The character a counted run of at most four underscores is printed as. */
  function FlushChar(count: nat): char {
    if count == 4 then '.' else if count == 3 then '-' else '_'
  }

  function Flush(count: nat): string {
    if count == 0 then [] else [FlushChar(count)]
  }

  lemma FlushIsRunText(count: nat)
    requires count <= 4
    ensures RunText(count) == Flush(count)
  {
    if count == 4 {
      LongRun(0);
    }
    assert count < 4 ==> count / 4 == 0;
  }

  /** What one iteration that does not just count prints after the flushed run, and what it leaves. */
  function Printed(s: string, a2e: nat -> char): string {
    if s == [] || PlainUnderscore(s, a2e) then []
    else if EscapeAt(s, a2e) then [HexChar(s[2], s[3], a2e)]
    else [s[0]]
  }

  function Beyond(s: string, a2e: nat -> char): string {
    if s == [] || PlainUnderscore(s, a2e) then s
    else if EscapeAt(s, a2e) then s[4..]
    else s[1..]
  }

  /** The pending run is flushed when a token, a fifth underscore or the end of the key follows. */
  lemma FlushStep(count: nat, s: string, a2e: nat -> char)
    requires count <= 4 && (PlainUnderscore(s, a2e) ==> count == 4)
    ensures Pending(count, s, a2e) == Flush(count) + (Printed(s, a2e) + Pending(0, Beyond(s, a2e), a2e))
  {
    if PlainUnderscore(s, a2e) {
      FullRunPending(s, a2e);
    } else {
      FlushIsRunText(count);
      NotInRun(count, s, a2e);
      NothingPending(Beyond(s, a2e), a2e);
    }
  }

  /** Prints the pending run, if any, and then the character, if it is to be printed. */
  method Print(buffer: array<char>, j: nat, count: nat, visible: bool, c: char) returns (j': nat)
    requires j + |Flush(count)| + (if visible then 1 else 0) <= buffer.Length
    modifies buffer
    ensures j' <= buffer.Length && buffer[..j'] == old(buffer[..j]) + (Flush(count) + if visible then [c] else [])
  {
    j' := j;
    if count > 0 {
      buffer[j'] := FlushChar(count);
      j' := j' + 1;
    }
    if visible {
      buffer[j'] := c;
      j' := j' + 1;
    }
  }

  /** The end of an iteration that does not just count; what is still to come follows from nothing pending. */
  method FlushAndPrint(buffer: array<char>, j: nat, count: nat, visible: bool, c: char, ghost rest: string,
                       a2e: nat -> char) returns (j': nat)
    requires count <= 4 && (PlainUnderscore(rest, a2e) ==> count == 4)
    requires Printed(rest, a2e) == if visible then [c] else []
    requires j + |Pending(count, rest, a2e)| < buffer.Length
    modifies buffer
    ensures j' < buffer.Length
    ensures buffer[..j'] + Pending(0, Beyond(rest, a2e), a2e) == old(buffer[..j]) + Pending(count, rest, a2e)
  {
    FlushStep(count, rest, a2e);
    ghost var rest' := Pending(0, Beyond(rest, a2e), a2e);
    Regroup(Flush(count), Printed(rest, a2e), rest');
    Regroup(buffer[..j], Flush(count) + Printed(rest, a2e), rest');
    j' := Print(buffer, j, count, visible, c);
  }

  /** Reads an escape at an underscore, moving to its last character, or reports NUL and stays. */
  method TryEscape(key: string, i: nat, a2e: nat -> char) returns (decodedChar: char, i': nat)
    requires i < |key| && key[i] == '_'
    ensures EscapeAt(key[i..], a2e) ==> i' == i + 3 && decodedChar == HexChar(key[i + 2], key[i + 3], a2e)
    ensures !EscapeAt(key[i..], a2e) ==> i' == i && decodedChar == '\0'
  {
    decodedChar, i' := '\0', i;
    if i + 3 < |key| && key[i + 1] == 'x' {
      decodedChar := HexChar(key[i + 2], key[i + 3], a2e);
      if decodedChar != '\0' {
        i' := i + 3;
      }
    }
  }

  /** What an iteration makes of the token at a position. */
  lemma TokenAt(key: string, i: nat, a2e: nat -> char)
    requires i < |key|
    ensures
      var s := key[i..];
      if PlainUnderscore(s, a2e) then key[i] == '_' && Printed(s, a2e) == [] && Beyond(s, a2e) == s
      else if EscapeAt(s, a2e) then
        key[i] == '_' && i + 3 < |key| && Printed(s, a2e) == [HexChar(key[i + 2], key[i + 3], a2e)]
        && Beyond(s, a2e) == key[i + 4..]
      else key[i] != '_' && Printed(s, a2e) == [key[i]] && Beyond(s, a2e) == key[i + 1..]
  {
    var s := key[i..];
    assert s[0] == key[i] && s[1..] == key[i + 1..];
    assert |s| > 3 ==> s[2] == key[i + 2] && s[3] == key[i + 3] && s[4..] == key[i + 4..];
  }

  /** The first half of an iteration: `counted` underscores only add to the run; otherwise the run ends, before
      `rest`, and `c` is printed after it if it is `visible`.  The index then goes to `next`, which is the same
      underscore again if it was the fifth. */
  method ReadToken(key: string, a2e: nat -> char, i: nat, count: nat)
    returns (counted: bool, count': nat, visible: bool, c: char, next: nat, ghost rest: string)
    requires i < |key| && count <= MAX_UNDERSCORES
    ensures i <= next <= |key| && count' <= MAX_UNDERSCORES
    ensures Pending(count', rest, a2e) == Pending(count, key[i..], a2e)
    ensures counted ==> i < next < |key| && rest == key[next..]
    ensures !counted ==> (i < next || count' > 0) && key[next..] == Beyond(rest, a2e)
    ensures !counted ==> Printed(rest, a2e) == (if visible then [c] else [])
    ensures !counted && PlainUnderscore(rest, a2e) ==> count' == MAX_UNDERSCORES
    ensures !counted && i == next ==> count' == count
    ensures !counted && next == |key| ==> i < next
  {
    TokenAt(key, i, a2e);
    rest, counted, count', visible, c, next := key[i..], false, count, true, key[i], i + 1;
    if key[i] == '_' {
      var decodedChar, last := TryEscape(key, i, a2e);
      if decodedChar != '\0' {
        c, next := decodedChar, last + 1;
      } else {
        visible := false;
        if count < MAX_UNDERSCORES {
          PendingCounts(count, key, i, a2e);
          count', rest, counted := count + 1, key[i + 1..], i + 1 < |key|;
        } else {
          next := i;
        }
      }
    }
  }

  /** The body of decodeEnvKey's loop.  Either the index moves on, or it stays and the count goes down. */
  method DecodeStep(key: string, a2e: nat -> char, decodedKey: array<char>, i: nat, j: nat, count: nat)
    returns (i': nat, j': nat, count': nat)
    requires i < |key| && j <= |key| && count <= MAX_UNDERSCORES && decodedKey.Length == |key| + 1
    requires decodedKey[..j] + Pending(count, key[i..], a2e) == Decoded(key, a2e)
    modifies decodedKey
    ensures i' <= |key| && j' <= |key| && count' <= MAX_UNDERSCORES && (i' == |key| ==> count' == 0)
    ensures decodedKey[..j'] + Pending(count', key[i'..], a2e) == Decoded(key, a2e)
    ensures i < i' || (i == i' && count' < count)
  {
    var counted, visible, c;
    ghost var rest;
    counted, count', visible, c, i', rest := ReadToken(key, a2e, i, count);
    if counted {
      j' := j;
      return;
    }
    j' := FlushAndPrint(decodedKey, j, count', visible, c, rest, a2e);
    count' := 0;
  }

  /** decodeEnvKey.  The key is a C string; the caller's buffer has one byte more than the key. */
  method DecodeEnvKey(key: string, a2e: nat -> char, decodedKey: array<char>) returns (j: nat)
    requires '\0' !in key && decodedKey.Length == |key| + 1
    modifies decodedKey
    ensures j <= |key| && decodedKey[..j] == Decoded(key, a2e) && decodedKey[j] == '\0'
  {
    var i: nat, count: nat := 0, 0;
    j := 0;
    NothingPending(key, a2e);
    assert key[0..] == key;
    while i < |key|
      invariant i <= |key| && j <= |key| && count <= MAX_UNDERSCORES && (i == |key| ==> count == 0)
      invariant decodedKey[..j] + Pending(count, key[i..], a2e) == Decoded(key, a2e)
      decreases |key| - i, count
    {
      i, j, count := DecodeStep(key, a2e, decodedKey, i, j, count);
    }
    NothingPending([], a2e);
    decodedKey[j] := '\0';
  }

  // ----- an encoder that the decoder undoes

  predicate IsAlnum(c: char) {
    '0' <= c <= '9' || 'a' <= c <= 'z' || 'A' <= c <= 'Z'
  }

  /** Number of underscores that stand for the character, or 0. */
  function Underscores(c: char): nat {
    if c == '_' then 2 else if c == '-' then 3 else if c == '.' then 4 else 0
  }

  function HexDigit(v: nat): char
    requires v < 16
  {
    if v < 10 then ('0' as int + v) as char else ('A' as int + v - 10) as char
  }

  function Escape(code: nat): string
    requires code < 256
  {
    ['_', 'x', HexDigit(code / 16), HexDigit(code % 16)]
  }

  /** `e2a` inverts the table on every character but NUL, and no character but NUL has code 0. */
  ghost predicate CodePage(a2e: nat -> char, e2a: char -> nat) {
    forall c: char :: 0 < c as int < 256 ==> 0 < e2a(c) < 256 && a2e(e2a(c)) == c
  }

  ghost predicate EightBit(k: string) {
    forall i :: 0 <= i < |k| ==> 0 < k[i] as int < 256
  }

  /** Encodes k; `afterRun` says that the text so far ends in a run of underscores. */
  ghost function Encoded(k: string, afterRun: bool, a2e: nat -> char, e2a: char -> nat): string
    requires CodePage(a2e, e2a) && EightBit(k)
  {
    if k == [] then []
    else
      var c := k[0];
      if Underscores(c) > 0 && !afterRun then
        Repeat('_', Underscores(c)) + Encoded(k[1..], true, a2e, e2a)
      else if IsAlnum(c) && !(c == 'x' && afterRun) then
        [c] + Encoded(k[1..], false, a2e, e2a)
      else
        Escape(e2a(c)) + Encoded(k[1..], false, a2e, e2a)
  }

  lemma HexRoundTrip(v: nat)
    requires v < 16
    ensures HexValue(HexDigit(v)) == v
  {
  }

  /** An escape decodes to its character, whatever follows. */
  lemma EscapeDecodes(c: char, t: string, a2e: nat -> char, e2a: char -> nat)
    requires CodePage(a2e, e2a) && 0 < c as int < 256
    ensures EscapeAt(Escape(e2a(c)) + t, a2e)
    ensures Decoded(Escape(e2a(c)) + t, a2e) == [c] + Decoded(t, a2e)
  {
    var v := e2a(c);
    HexRoundTrip(v / 16);
    HexRoundTrip(v % 16);
    assert 16 * (v / 16) + v % 16 == v;
    assert (Escape(v) + t)[4..] == t;
  }

  /** The text neither continues a run in front of it nor turns its last underscore into an escape. */
  predicate EndsRun(t: string, a2e: nat -> char) {
    t == [] || (t[0] != 'x' && (t[0] != '_' || EscapeAt(t, a2e)))
  }

  lemma PlainInRun(n: nat, t: string, a2e: nat -> char)
    requires EndsRun(t, a2e) && n > 0
    ensures PlainUnderscore(Repeat('_', n) + t, a2e)
  {
    var s := Repeat('_', n) + t;
    assert |s| > 1 ==> s[1] == if n > 1 then '_' else t[0];
  }

  lemma {:induction false} RunLength(n: nat, t: string, a2e: nat -> char)
    requires EndsRun(t, a2e)
    ensures PlainRun(Repeat('_', n) + t, a2e) == n
    decreases n
  {
    if n == 0 {
      assert Repeat('_', 0) + t == t;
    } else {
      PlainInRun(n, t, a2e);
      RunLength(n - 1, t, a2e);
      assert (Repeat('_', n) + t)[1..] == Repeat('_', n - 1) + t;
    }
  }

  lemma RunDecodes(n: nat, t: string, a2e: nat -> char)
    requires EndsRun(t, a2e) && n > 0
    ensures Decoded(Repeat('_', n) + t, a2e) == RunText(n) + Decoded(t, a2e)
  {
    var s := Repeat('_', n) + t;
    RunLength(n, t, a2e);
    PlainInRun(n, t, a2e);
    assert s[n..] == t;
  }

  /** A dash, dot or underscore written as a run. */
  lemma RunCharDecodes(c: char, t: string, a2e: nat -> char)
    requires EndsRun(t, a2e) && Underscores(c) > 0
    ensures Decoded(Repeat('_', Underscores(c)) + t, a2e) == [c] + Decoded(t, a2e)
  {
    RunDecodes(Underscores(c), t, a2e);
    FlushIsRunText(Underscores(c));
  }

  lemma PlainCharDecodes(c: char, t: string, a2e: nat -> char)
    requires c != '_'
    ensures Decoded([c] + t, a2e) == [c] + Decoded(t, a2e)
  {
    assert ([c] + t)[1..] == t;
  }

  lemma {:induction false} EncodedDecodes(k: string, afterRun: bool, a2e: nat -> char, e2a: char -> nat)
    requires CodePage(a2e, e2a) && EightBit(k)
    ensures Decoded(Encoded(k, afterRun, a2e, e2a), a2e) == k
    ensures afterRun ==> EndsRun(Encoded(k, afterRun, a2e, e2a), a2e)
    decreases |k|
  {
    if k != [] {
      var c, rest := k[0], k[1..];
      var run := Underscores(c) > 0 && !afterRun;
      var t := Encoded(rest, run, a2e, e2a);
      EncodedDecodes(rest, run, a2e, e2a);
      assert k == [c] + rest;
      if run {
        RunCharDecodes(c, t, a2e);
      } else if IsAlnum(c) && !(c == 'x' && afterRun) {
        PlainCharDecodes(c, t, a2e);
      } else {
        EscapeDecodes(c, t, a2e, e2a);
      }
    }
  }

  /** Decoding undoes encoding, for every key. */
  lemma RoundTrip(k: string, a2e: nat -> char, e2a: char -> nat)
    requires CodePage(a2e, e2a) && EightBit(k)
    ensures Decoded(Encoded(k, false, a2e, e2a), a2e) == k
  {
    EncodedDecodes(k, false, a2e, e2a);
  }

  // ----- every way to spell a key

  /** What may follow the dots of a run; an underscore is written once or twice. */
  datatype Tail = NoTail | Underscore | UnderscoreTwice | Dash

  datatype Token = Run(dots: nat, tail: Tail) | Escaped(c: char) | Plain(c: char)

  function TailText(tail: Tail): string {
    match tail
    case NoTail => ""
    case Underscore => "_"
    case UnderscoreTwice => "_"
    case Dash => "-"
  }

  function TailLength(tail: Tail): nat {
    match tail
    case NoTail => 0
    case Underscore => 1
    case UnderscoreTwice => 2
    case Dash => 3
  }

  function Meaning(t: Token): string {
    match t
    case Run(dots, tail) => Repeat('.', dots) + TailText(tail)
    case Escaped(c) => [c]
    case Plain(c) => [c]
  }

  predicate IsToken(t: Token) {
    match t
    case Run(dots, tail) => dots > 0 || !tail.NoTail?
    case Escaped(c) => 0 < c as int < 256
    case Plain(c) => c != '_'
  }

  ghost function Spelling(t: Token, a2e: nat -> char, e2a: char -> nat): string
    requires CodePage(a2e, e2a) && IsToken(t)
  {
    match t
    case Run(dots, tail) => Repeat('_', 4 * dots + TailLength(tail))
    case Escaped(c) => Escape(e2a(c))
    case Plain(c) => [c]
  }

  /** A run is not followed by another run, nor by an x that stands for itself. */
  predicate Spellable(ts: seq<Token>) {
    && (forall i :: 0 <= i < |ts| ==> IsToken(ts[i]))
    && (forall i :: 0 < i < |ts| && ts[i - 1].Run? ==> !ts[i].Run? && ts[i] != Plain('x'))
  }

  ghost function SpellAll(ts: seq<Token>, a2e: nat -> char, e2a: char -> nat): string
    requires CodePage(a2e, e2a) && Spellable(ts)
  {
    if ts == [] then [] else Spelling(ts[0], a2e, e2a) + SpellAll(ts[1..], a2e, e2a)
  }

  function MeanAll(ts: seq<Token>): string {
    if ts == [] then [] else Meaning(ts[0]) + MeanAll(ts[1..])
  }

  lemma RunMeans(dots: nat, tail: Tail)
    ensures RunText(4 * dots + TailLength(tail)) == Repeat('.', dots) + TailText(tail)
  {
    var n := 4 * dots + TailLength(tail);
    assert n / 4 == dots && n % 4 == TailLength(tail);
  }

  lemma {:induction false} SpellingEndsRun(ts: seq<Token>, a2e: nat -> char, e2a: char -> nat)
    requires CodePage(a2e, e2a) && Spellable(ts) && (ts != [] ==> !ts[0].Run? && ts[0] != Plain('x'))
    ensures EndsRun(SpellAll(ts, a2e, e2a), a2e)
  {
    if ts != [] && ts[0].Escaped? {
      EscapeDecodes(ts[0].c, SpellAll(ts[1..], a2e, e2a), a2e, e2a);
    }
  }

  lemma TokenDecodes(t: Token, rest: string, a2e: nat -> char, e2a: char -> nat)
    requires CodePage(a2e, e2a) && IsToken(t) && (t.Run? ==> EndsRun(rest, a2e))
    ensures Decoded(Spelling(t, a2e, e2a) + rest, a2e) == Meaning(t) + Decoded(rest, a2e)
  {
    match t
    case Run(dots, tail) =>
      RunDecodes(4 * dots + TailLength(tail), rest, a2e);
      RunMeans(dots, tail);
    case Escaped(c) => EscapeDecodes(c, rest, a2e, e2a);
    case Plain(c) => PlainCharDecodes(c, rest, a2e);
  }

  /** Every spelling decodes to what it stands for: k dots and at most one '_' or '-' behind them as one run, '_' as
      one underscore or two, any character as an escape, and any but the underscore as itself. */
  lemma {:induction false} SpellingsDecode(ts: seq<Token>, a2e: nat -> char, e2a: char -> nat)
    requires CodePage(a2e, e2a) && Spellable(ts)
    ensures Decoded(SpellAll(ts, a2e, e2a), a2e) == MeanAll(ts)
    decreases |ts|
  {
    if ts != [] {
      SpellingsDecode(ts[1..], a2e, e2a);
      if ts[0].Run? {
        SpellingEndsRun(ts[1..], a2e, e2a);
      }
      TokenDecodes(ts[0], SpellAll(ts[1..], a2e, e2a), a2e, e2a);
    }
  }

  /** If there is an underscore at this place, neither another one follows nor an x and two digits with a non-zero
      value. */
  predicate StaysAt(key: string, i: nat, a2e: nat -> char)
    requires i < |key|
  {
    key[i] == '_' ==>
      && (i + 1 < |key| ==> key[i + 1] != '_')
      && !(i + 3 < |key| && key[i + 1] == 'x' && HexValue(key[i + 2]) >= 0 && HexValue(key[i + 3]) >= 0
           && a2e(16 * HexValue(key[i + 2]) + HexValue(key[i + 3])) != '\0')
  }

  predicate NothingToDecode(key: string, a2e: nat -> char) {
    forall i :: 0 <= i < |key| ==> StaysAt(key, i, a2e)
  }

  lemma {:induction false} NothingInRest(key: string, a2e: nat -> char)
    requires key != [] && NothingToDecode(key, a2e)
    ensures NothingToDecode(key[1..], a2e)
  {
    forall i | 0 <= i < |key[1..]| ensures StaysAt(key[1..], i, a2e) {
      assert StaysAt(key, i + 1, a2e);
    }
  }

  lemma {:induction false} FirstStays(key: string, a2e: nat -> char)
    requires key != [] && key[0] == '_' && StaysAt(key, 0, a2e)
    ensures PlainUnderscore(key, a2e) && (|key| > 1 ==> key[1] != '_')
  {
  }

  lemma {:induction false} SingleUnderscore(key: string, a2e: nat -> char)
    requires PlainUnderscore(key, a2e) && (|key| > 1 ==> key[1] != '_')
    ensures Decoded(key, a2e) == ['_'] + Decoded(key[1..], a2e)
  {
    assert PlainRun(key, a2e) == 1;
    RunMeans(0, Underscore);
    assert RunText(1) == ['_'];
  }

  /** Such a key decodes to itself. */
  lemma {:induction false} PlainKeysStay(key: string, a2e: nat -> char)
    requires NothingToDecode(key, a2e)
    ensures Decoded(key, a2e) == key
    decreases |key|
  {
    if key != [] {
      NothingInRest(key, a2e);
      PlainKeysStay(key[1..], a2e);
      assert key == [key[0]] + key[1..];
      if key[0] == '_' {
        FirstStays(key, a2e);
        SingleUnderscore(key, a2e);
      } else {
        PlainCharDecodes(key[0], key[1..], a2e);
      }
    }
  }
}
