/**
 * The JavaScript string primitives the board code relies on: `trim`,
 * `toLowerCase`, `includes`, `split` on one character, `join`, and the
 * decimal rendering of a count inside a template literal.
 */
module Text {
  import opened Wrappers

  /** A code point that `String.prototype.trim` removes: the ECMAScript
      WhiteSpace set (TAB, VT, FF, SPACE, NBSP, ZWNBSP and the Zs category)
      together with the LineTerminator set (LF, CR, LS, PS). */
  predicate IsJsSpace(c: char)
  {
    c == '\t' || c == '\n' || c == '\U{000B}' || c == '\U{000C}' || c == '\r' ||
    c == ' ' || c == '\U{00A0}' || c == '\U{1680}' ||
    ('\U{2000}' <= c <= '\U{200A}') ||
    c == '\U{2028}' || c == '\U{2029}' || c == '\U{202F}' || c == '\U{205F}' ||
    c == '\U{3000}' || c == '\U{FEFF}'
  }

  /** Every character of `s` is whitespace (the empty string included): the
      strings whose `trim()` is falsy. */
  predicate IsBlank(s: string)
  {
    forall k :: 0 <= k < |s| ==> IsJsSpace(s[k])
  }

  /** `s` neither starts nor ends with whitespace. */
  predicate IsTrimmed(s: string)
  {
    s == [] || (!IsJsSpace(s[0]) && !IsJsSpace(s[|s| - 1]))
  }

  /** Drops leading whitespace. */
  function TrimStart(s: string): (r: string)
    ensures |r| <= |s| && r == s[|s| - |r|..]
    ensures forall k :: 0 <= k < |s| - |r| ==> IsJsSpace(s[k])
    ensures r == [] || !IsJsSpace(r[0])
  {
    if |s| > 0 && IsJsSpace(s[0]) then TrimStart(s[1..]) else s
  }

  /** Drops trailing whitespace. */
  function TrimEnd(s: string): (r: string)
    ensures |r| <= |s| && r == s[..|r|]
    ensures forall k :: |r| <= k < |s| ==> IsJsSpace(s[k])
    ensures r == [] || !IsJsSpace(r[|r| - 1])
  {
    if |s| > 0 && IsJsSpace(s[|s| - 1]) then TrimEnd(s[..|s| - 1]) else s
  }

  /** `String.prototype.trim`: the result is trimmed, is empty exactly when
      the input is blank, and leaves an already trimmed string alone. */
  function Trim(s: string): (r: string)
    ensures IsTrimmed(r)
    ensures r == [] <==> IsBlank(s)
    ensures IsTrimmed(s) ==> r == s
    ensures |r| <= |s|
  {
    var a := TrimStart(s);
    var r := TrimEnd(a);
    var n := |s| - |a|;
    assert a == s[n..];
    assert r == a[..|r|];
    assert r != [] ==> r[0] == a[0];
    assert IsBlank(s) ==> a == [];
    assert r == [] ==> a == [];
    assert IsTrimmed(s) && s != [] ==> a == s && r == s;
    r
  }

  /** How many characters `TrimStart` drops. */
  function TrimOffset(s: string): (n: nat)
    ensures n <= |s|
  {
    |s| - |TrimStart(s)|
  }

  /** `r` is the slice of `s` that starts at `n`, and everything of `s`
      before and after it is whitespace. */
  predicate SitsBetweenBlanks(s: string, n: nat, r: string)
  {
    && n + |r| <= |s| && r == s[n..n + |r|]
    && IsBlank(s[..n]) && IsBlank(s[n + |r|..])
  }

  /** The trimmed text is the slice of the input between its leading and
      its trailing whitespace. */
  lemma TrimSlice(s: string)
    ensures SitsBetweenBlanks(s, TrimOffset(s), Trim(s))
  {
    TrimEndsSlice(s);
  }

  /** `TrimSlice` for the two passes `Trim` makes. */
  lemma TrimEndsSlice(s: string)
    ensures SitsBetweenBlanks(s, TrimOffset(s), TrimEnd(TrimStart(s)))
  {
    var a := TrimStart(s);
    TrimStartParts(s);
    TrimEndParts(a);
    BetweenBlanks(s, a, TrimEnd(a), TrimOffset(s));
  }

  /** `TrimStart` drops a blank prefix. */
  lemma TrimStartParts(s: string)
    ensures TrimStart(s) == s[TrimOffset(s)..] && IsBlank(s[..TrimOffset(s)])
  {
    var n := TrimOffset(s);
    forall k | 0 <= k < n ensures IsJsSpace(s[..n][k]) {
      assert s[..n][k] == s[k];
    }
  }

  /** `TrimEnd` drops a blank suffix. */
  lemma TrimEndParts(a: string)
    ensures TrimEnd(a) == a[..|TrimEnd(a)|] && IsBlank(a[|TrimEnd(a)|..])
  {
    var m := |TrimEnd(a)|;
    forall k | 0 <= k < |a| - m ensures IsJsSpace(a[m..][k]) {
      assert a[m..][k] == a[m + k];
    }
  }

  /** `r`, a prefix of the suffix `a` of `s`, sits between whitespace. */
  lemma BetweenBlanks(s: string, a: string, r: string, n: nat)
    requires n <= |s| && a == s[n..] && IsBlank(s[..n])
    requires |r| <= |a| && r == a[..|r|] && IsBlank(a[|r|..])
    ensures SitsBetweenBlanks(s, n, r)
  {
    assert s[n..][..|r|] == s[n..n + |r|];
    assert s[n + |r|..] == a[|r|..];
  }

  /** Trimming only drops characters: whatever the result holds, the input
      held. */
  lemma TrimKeepsOnly(s: string, c: char)
    ensures c in Trim(s) ==> c in s
  {
    var a := TrimStart(s);
    var r := TrimEnd(a);
    if c in r {
      var k :| 0 <= k < |r| && r[k] == c;
      assert r[k] == a[k];
      assert a[k] == s[|s| - |a| + k];
    }
  }

  /** The ASCII case mapping of `toLowerCase`. */
  function LowerChar(c: char): (r: char)
  {
    if 'A' <= c <= 'Z' then (c as int + 32) as char else c
  }

  /** `String.prototype.toLowerCase`, restricted to the ASCII letters. */
  function Lower(s: string): (r: string)
    ensures |r| == |s|
    ensures forall k :: 0 <= k < |s| ==> r[k] == LowerChar(s[k])
  {
    seq(|s|, k requires 0 <= k < |s| => LowerChar(s[k]))
  }

  /** Lowering twice is lowering once. */
  lemma LowerIdempotent(s: string)
    ensures Lower(Lower(s)) == Lower(s)
  {
  }

  /** No lowercased character is a capital letter. */
  lemma LowerCharNotCapital(c: char)
    ensures !('A' <= LowerChar(c) <= 'Z')
  {
  }

  lemma LowerNoCapitals(s: string)
    ensures forall k :: 0 <= k < |Lower(s)| ==> !('A' <= Lower(s)[k] <= 'Z')
  {
    forall k | 0 <= k < |s| ensures !('A' <= Lower(s)[k] <= 'Z') {
      LowerCharNotCapital(s[k]);
    }
  }

  /** Lowering keeps whitespace where it was, so trimmed stays trimmed and
      blank stays blank. */
  lemma LowerKeepsSpace(s: string)
    ensures IsTrimmed(s) ==> IsTrimmed(Lower(s))
    ensures IsBlank(s) <==> IsBlank(Lower(s))
  {
    forall c: char ensures IsJsSpace(LowerChar(c)) <==> IsJsSpace(c) {
    }
  }

  /** Lowering keeps whether a character is whitespace. */
  lemma LowerCharSpace(c: char)
    ensures IsJsSpace(LowerChar(c)) <==> IsJsSpace(c)
  {
  }

  /** The lowered string's first character and the rest. */
  lemma LowerFront(s: string)
    requires |s| > 0
    ensures |Lower(s)| > 0 && Lower(s)[0] == LowerChar(s[0]) && Lower(s)[1..] == Lower(s[1..])
  {
  }

  /** The lowered string's last character and the rest. */
  lemma LowerBack(s: string)
    requires |s| > 0
    ensures |Lower(s)| > 0 && Lower(s)[|s| - 1] == LowerChar(s[|s| - 1]) &&
            Lower(s)[..|s| - 1] == Lower(s[..|s| - 1])
  {
  }

  /** Lowering and dropping leading whitespace commute. */
  lemma {:induction false} LowerTrimStart(s: string)
    ensures TrimStart(Lower(s)) == Lower(TrimStart(s))
    decreases |s|
  {
    if |s| > 0 {
      LowerFront(s);
      LowerCharSpace(s[0]);
      if IsJsSpace(s[0]) {
        LowerTrimStart(s[1..]);
      }
    }
  }

  /** Lowering and dropping trailing whitespace commute. */
  lemma {:induction false} LowerTrimEnd(s: string)
    ensures TrimEnd(Lower(s)) == Lower(TrimEnd(s))
    decreases |s|
  {
    if |s| > 0 {
      LowerBack(s);
      LowerCharSpace(s[|s| - 1]);
      if IsJsSpace(s[|s| - 1]) {
        LowerTrimEnd(s[..|s| - 1]);
      }
    }
  }

  /** Lowering and trimming commute. */
  lemma LowerTrim(s: string)
    ensures Trim(Lower(s)) == Lower(Trim(s))
  {
    LowerTrimStart(s);
    LowerTrimEnd(TrimStart(s));
  }

  /** `sub` occurs in `s` starting at index `i`. */
  predicate OccursAt(s: string, sub: string, i: int)
  {
    0 <= i && i + |sub| <= |s| && s[i..i + |sub|] == sub
  }

  /** `String.prototype.includes`. */
  function Contains(s: string, sub: string): (r: bool)
    ensures r <==> exists i :: OccursAt(s, sub, i)
    decreases |s|
  {
    if sub <= s then
      assert OccursAt(s, sub, 0);
      true
    else if |s| == 0 then
      assert forall i :: !OccursAt(s, sub, i);
      false
    else
      var rest := Contains(s[1..], sub);
      assert forall i :: OccursAt(s[1..], sub, i) <==> OccursAt(s, sub, i + 1) by {
        forall i ensures OccursAt(s[1..], sub, i) <==> OccursAt(s, sub, i + 1) {
          if 0 <= i && i + |sub| <= |s| - 1 {
            assert s[1..][i..i + |sub|] == s[i + 1..i + 1 + |sub|];
          }
        }
      }
      assert !OccursAt(s, sub, 0);
      assert (exists i :: OccursAt(s, sub, i)) ==> exists i :: OccursAt(s[1..], sub, i) by {
        if exists i :: OccursAt(s, sub, i) {
          var i :| OccursAt(s, sub, i);
          assert OccursAt(s[1..], sub, i - 1);
        }
      }
      rest
  }

  /** Every string contains the empty string, and itself. */
  lemma ContainsTrivial(s: string)
    ensures Contains(s, "")
    ensures Contains(s, s)
  {
    assert OccursAt(s, "", 0);
    assert OccursAt(s, s, 0);
  }

  /** The index of the first `c` in `s`, if any. */
  function IndexOfChar(s: string, c: char): (r: Option<nat>)
    ensures r.Some? ==> r.value < |s| && s[r.value] == c && c !in s[..r.value]
    ensures r.None? ==> c !in s
  {
    if |s| == 0 then None
    else if s[0] == c then Some(0)
    else match IndexOfChar(s[1..], c)
      case None => None
      case Some(i) => assert s[..i + 1] == [s[0]] + s[1..][..i]; Some(i + 1)
  }

  /** `Array.prototype.join(sep)` on strings. */
  function Join(parts: seq<string>, sep: string): (r: string)
  {
    if |parts| == 0 then ""
    else if |parts| == 1 then parts[0]
    else parts[0] + sep + Join(parts[1..], sep)
  }

  /** `String.prototype.split(c)` for a one-character separator: never empty,
      no piece contains the separator, and joining the pieces back with it
      gives the input again. */
  function Split(s: string, c: char): (r: seq<string>)
    ensures |r| >= 1
    ensures forall i :: 0 <= i < |r| ==> c !in r[i]
    ensures Join(r, [c]) == s
    decreases |s|
  {
    match IndexOfChar(s, c)
    case None => [s]
    case Some(i) =>
      var rest := Split(s[i + 1..], c);
      assert s == s[..i] + [c] + s[i + 1..];
      [s[..i]] + rest
  }

  /** Splitting a join of separator-free pieces gives the pieces back. */
  lemma {:induction false} SplitJoin(parts: seq<string>, c: char)
    requires |parts| >= 1
    requires forall i :: 0 <= i < |parts| ==> c !in parts[i]
    ensures Split(Join(parts, [c]), c) == parts
    decreases |parts|
  {
    if |parts| == 1 {
      assert Join(parts, [c]) == parts[0];
    } else {
      var s := Join(parts, [c]);
      var tail := Join(parts[1..], [c]);
      assert s == parts[0] + [c] + tail;
      assert s[|parts[0]|] == c;
      assert s[..|parts[0]|] == parts[0];
      assert c !in s[..|parts[0]|];
      assert IndexOfChar(s, c) == Some(|parts[0]|);
      assert s[|parts[0]| + 1..] == tail;
      SplitJoin(parts[1..], c);
      assert Split(s, c) == [parts[0]] + Split(tail, c);
      assert parts == [parts[0]] + parts[1..];
    }
  }

  /** One decimal digit. */
  function DigitChar(d: nat): (r: char)
    requires d < 10
    ensures '0' <= r <= '9' && r as int - '0' as int == d
  {
    ('0' as int + d) as char
  }

  /** A natural number in decimal, as `${n}` renders it. */
  function NatToString(n: nat): (r: string)
    ensures |r| >= 1
    ensures forall k :: 0 <= k < |r| ==> '0' <= r[k] <= '9'
    ensures r[0] == '0' <==> n == 0
    ensures r[0] == '0' ==> r == "0"
  {
    if n < 10 then [DigitChar(n)] else NatToString(n / 10) + [DigitChar(n % 10)]
  }

  /** The number a string of decimal digits denotes. */
  function DigitsValue(s: string): nat
    requires forall k :: 0 <= k < |s| ==> '0' <= s[k] <= '9'
  {
    if |s| == 0 then 0
    else DigitsValue(s[..|s| - 1]) * 10 + (s[|s| - 1] as int - '0' as int)
  }

  /** Reading the decimal rendering back gives the number. */
  lemma {:induction false} NatToStringRoundTrip(n: nat)
    ensures DigitsValue(NatToString(n)) == n
  {
    if n >= 10 {
      NatToStringRoundTrip(n / 10);
      var r := NatToString(n);
      assert r == NatToString(n / 10) + [DigitChar(n % 10)];
      assert r[..|r| - 1] == NatToString(n / 10);
    }
  }

  /** An integer in decimal, as `String(n)` renders it. */
  function IntToString(n: int): (r: string)
    ensures |r| >= 1
    ensures n < 0 <==> r[0] == '-'
    ensures n >= 0 ==> forall k :: 0 <= k < |r| ==> '0' <= r[k] <= '9'
    ensures n >= 0 ==> DigitsValue(r) == n
    ensures n < 0 ==> forall k :: 1 <= k < |r| ==> '0' <= r[k] <= '9'
    ensures n < 0 ==> DigitsValue(r[1..]) == -n
    ensures n >= 0 ==> (r[0] == '0' ==> r == "0")
    ensures n < 0 ==> |r| >= 2 && r[1] != '0'
  {
    if n < 0 then
      NatToStringRoundTrip(-n);
      var r := "-" + NatToString(-n);
      assert r[1..] == NatToString(-n);
      r
    else
      NatToStringRoundTrip(n);
      NatToString(n)
  }
}
