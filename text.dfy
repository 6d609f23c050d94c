/** Python string semantics used throughout the pipeline: whitespace,
    `strip`, `lower`, `split`, `join`, substring search, `str(int)` and `int(str)`.
    Characters are Unicode scalar values; case mapping is ASCII-only. */
module Text {

  datatype Option<T> = None | Some(value: T)

  /** A value, or the message of the exception raised instead. */
  datatype Result<T> = Ok(value: T) | Err(error: string)

  function Min(a: int, b: int): int { if a <= b then a else b }

  function Max(a: int, b: int): int { if a >= b then a else b }

  /** A bound of a Python slice of a sequence of length `n`: a negative bound counts
      from the end, and either kind is clamped to [0, n]. */
  function PyBound(b: int, n: nat): (r: nat)
    ensures r <= n
  {
    if b < 0 then Max(0, n + b) else Min(b, n)
  }

  /** Python's `s[lo:hi]`: empty when the upper bound falls at or before the lower. */
  function PySlice<T>(s: seq<T>, lo: int, hi: int): seq<T> {
    var a := PyBound(lo, |s|);
    var b := PyBound(hi, |s|);
    if b <= a then [] else s[a..b]
  }

  /** The characters Python's `str.isspace` accepts; `strip()`, `split()` and
      the regular-expression class `\s` all use this set. */
  predicate IsSpace(c: char) {
    c == ' ' || c == '\t' || c == '\n' || c == '\r' || c == '\U{B}' || c == '\U{C}'
    || ('\U{1C}' <= c <= '\U{1F}') || c == '\U{85}' || c == '\U{A0}' || c == '\U{1680}'
    || ('\U{2000}' <= c <= '\U{200A}') || c == '\U{2028}' || c == '\U{2029}'
    || c == '\U{202F}' || c == '\U{205F}' || c == '\U{3000}'
  }

  predicate IsDigit(c: char) {
    '0' <= c <= '9'
  }

  predicate AllSpace(s: string) {
    forall i :: 0 <= i < |s| ==> IsSpace(s[i])
  }

  /** `s.lstrip()` */
  function TrimLeft(s: string): (r: string)
    ensures |r| <= |s|
  {
    if |s| > 0 && IsSpace(s[0]) then TrimLeft(s[1..]) else s
  }

  /** `s.lstrip()` drops a run of leading whitespace and keeps the rest. */
  lemma {:induction false} TrimLeftSpec(s: string)
    ensures var r := TrimLeft(s);
            r == s[|s| - |r|..] && (r == [] || !IsSpace(r[0])) && AllSpace(s[..|s| - |r|])
  {
    if |s| > 0 && IsSpace(s[0]) {
      TrimLeftSpec(s[1..]);
      var r := TrimLeft(s[1..]);
      assert s[1..][|s| - 1 - |r|..] == s[|s| - |r|..];
      assert s[1..][..|s| - 1 - |r|] == s[1..|s| - |r|];
    }
  }

  /** `s.rstrip()` */
  function TrimRight(s: string): (r: string)
    ensures |r| <= |s|
  {
    if |s| > 0 && IsSpace(s[|s| - 1]) then TrimRight(s[..|s| - 1]) else s
  }

  /** `s.rstrip()` drops a run of trailing whitespace and keeps the rest. */
  lemma {:induction false} TrimRightSpec(s: string)
    ensures var r := TrimRight(s);
            r == s[..|r|] && (r == [] || !IsSpace(r[|r| - 1])) && AllSpace(s[|r|..])
  {
    if |s| > 0 && IsSpace(s[|s| - 1]) {
      TrimRightSpec(s[..|s| - 1]);
      var r := TrimRight(s[..|s| - 1]);
      assert s[..|s| - 1][..|r|] == s[..|r|];
      assert s[..|s| - 1][|r|..] == s[|r|..|s| - 1];
    }
  }

  /** `s.strip()` */
  function Strip(s: string): (r: string)
    ensures |r| <= |s|
    ensures r == [] || (!IsSpace(r[0]) && !IsSpace(r[|r| - 1]))
  {
    TrimRightSpec(s);
    TrimLeftSpec(TrimRight(s));
    TrimLeft(TrimRight(s))
  }

  /** Python's truth test on `s.strip()`: true when nothing but whitespace remains. */
  predicate IsBlank(s: string) {
    Strip(s) == []
  }

  lemma {:induction false} TrimLeftEmpty(s: string)
    ensures TrimLeft(s) == [] <==> AllSpace(s)
  {
    if |s| > 0 && IsSpace(s[0]) {
      TrimLeftEmpty(s[1..]);
      assert AllSpace(s) <==> AllSpace(s[1..]);
    }
  }

  /** A string is blank exactly when every character is whitespace. */
  lemma BlankIffAllSpace(s: string)
    ensures IsBlank(s) <==> AllSpace(s)
  {
    var t := TrimRight(s);
    TrimRightSpec(s);
    TrimLeftEmpty(t);
    // `t` ends in a non-space, so it is all whitespace only when it is empty.
    assert t != [] ==> !IsSpace(t[|t| - 1]) && s[|t| - 1] == t[|t| - 1];
    assert t == [] ==> s[|t|..] == s;
  }

  /** `s.strip()` leaves a string with no whitespace at either end unchanged. */
  lemma StripFixed(s: string)
    requires s == [] || (!IsSpace(s[0]) && !IsSpace(s[|s| - 1]))
    ensures Strip(s) == s
  {
  }

  /** Stripping twice is stripping once. */
  lemma StripIdempotent(s: string)
    ensures Strip(Strip(s)) == Strip(s)
  {
    StripFixed(Strip(s));
  }

  function LowerChar(c: char): (r: char)
    ensures !('A' <= r <= 'Z')
    ensures !('A' <= c <= 'Z') ==> r == c
  {
    if 'A' <= c <= 'Z' then (c as int - 'A' as int + 'a' as int) as char else c
  }

  /** `s.lower()`, restricted to ASCII letters. */
  function Lower(s: string): (r: string)
    ensures |r| == |s|
    ensures forall i :: 0 <= i < |s| ==> r[i] == LowerChar(s[i])
  {
    seq(|s|, i requires 0 <= i < |s| => LowerChar(s[i]))
  }

  lemma LowerIdempotent(s: string)
    ensures Lower(Lower(s)) == Lower(s)
  {
  }

  /** `sub in s` for strings: some contiguous piece of `s` equals `sub`. */
  predicate Contains(s: string, sub: string)
    decreases |s|
  {
    sub <= s || (|s| > 0 && Contains(s[1..], sub))
  }

  /** `sub` occurs in `s` starting at position `i`. */
  predicate OccursAt(s: string, sub: string, i: nat) {
    i + |sub| <= |s| && forall k :: 0 <= k < |sub| ==> s[i + k] == sub[k]
  }

  lemma {:induction false} ContainsIffOccurs(s: string, sub: string)
    ensures Contains(s, sub) <==> exists i: nat :: OccursAt(s, sub, i)
    decreases |s|
  {
    if sub <= s {
      assert OccursAt(s, sub, 0);
    } else if |s| > 0 {
      ContainsIffOccurs(s[1..], sub);
      if Contains(s[1..], sub) {
        var i: nat :| OccursAt(s[1..], sub, i);
        forall k | 0 <= k < |sub| ensures s[i + 1 + k] == sub[k] {
          assert s[1..][i + k] == s[i + 1 + k];
        }
        assert OccursAt(s, sub, i + 1);
      }
      if i: nat :| OccursAt(s, sub, i) {
        assert i != 0;
        forall k | 0 <= k < |sub| ensures s[1..][i - 1 + k] == sub[k] {
          assert s[1..][i - 1 + k] == s[i + k];
        }
        assert OccursAt(s[1..], sub, i - 1);
      }
    } else {
      assert |sub| > 0;
    }
  }

  /** Containment is transitive: a superstring of a string containing `sub` contains it. */
  lemma ContainsTransitive(t: string, s: string, sub: string)
    requires Contains(t, s) && Contains(s, sub)
    ensures Contains(t, sub)
  {
    ContainsIffOccurs(t, s);
    ContainsIffOccurs(s, sub);
    var i: nat :| OccursAt(t, s, i);
    var j: nat :| OccursAt(s, sub, j);
    forall k | 0 <= k < |sub| ensures t[i + j + k] == sub[k] {
      assert s[j + k] == sub[k];
      assert t[i + (j + k)] == s[j + k];
    }
    assert OccursAt(t, sub, i + j);
    ContainsIffOccurs(t, sub);
  }

  /** Lower-casing keeps every occurrence: `sub in s` implies `sub.lower() in s.lower()`. */
  lemma LowerKeepsContains(s: string, sub: string)
    requires Contains(s, sub)
    ensures Contains(Lower(s), Lower(sub))
  {
    ContainsIffOccurs(s, sub);
    var i: nat :| OccursAt(s, sub, i);
    forall k | 0 <= k < |sub| ensures Lower(s)[i + k] == Lower(sub)[k] {
      assert s[i + k] == sub[k];
    }
    assert OccursAt(Lower(s), Lower(sub), i);
    ContainsIffOccurs(Lower(s), Lower(sub));
  }

  lemma ContainsSelf(s: string)
    ensures Contains(s, s)
  {
  }

  lemma ContainsConcat(a: string, b: string, sub: string)
    requires Contains(a, sub) || Contains(b, sub)
    ensures Contains(a + b, sub)
  {
    ContainsIffOccurs(a, sub);
    ContainsIffOccurs(b, sub);
    if Contains(a, sub) {
      var i: nat :| OccursAt(a, sub, i);
      forall k | 0 <= k < |sub| ensures (a + b)[i + k] == sub[k] {
        assert (a + b)[i + k] == a[i + k];
      }
      assert OccursAt(a + b, sub, i);
    } else {
      var i: nat :| OccursAt(b, sub, i);
      forall k | 0 <= k < |sub| ensures (a + b)[|a| + i + k] == sub[k] {
        assert (a + b)[|a| + i + k] == b[i + k];
      }
      assert OccursAt(a + b, sub, |a| + i);
    }
    ContainsIffOccurs(a + b, sub);
  }

  /** `sep.join(parts)` */
  function Join(sep: string, parts: seq<string>): string
    decreases |parts|
  {
    if |parts| == 0 then ""
    else if |parts| == 1 then parts[0]
    else parts[0] + sep + Join(sep, parts[1..])
  }

  lemma JoinSingle(sep: string, s: string)
    ensures Join(sep, [s]) == s
  {
  }

  /** The index of the first `d` in `s`, if any. */
  function IndexOfChar(s: string, d: char): (r: Option<nat>)
    ensures r.Some? ==> r.value < |s| && s[r.value] == d && d !in s[..r.value]
    ensures r.None? <==> d !in s
  {
    if |s| == 0 then None
    else if s[0] == d then Some(0)
    else match IndexOfChar(s[1..], d)
      case None => None
      case Some(k) => assert s[1..][..k] == s[1..k + 1]; Some(k + 1)
  }

  /** The first `d` in `s` is at `k` when `s[k]` is `d` and no earlier character is. */
  lemma IndexOfCharAt(s: string, d: char, k: nat)
    requires k < |s| && s[k] == d
    requires forall i :: 0 <= i < k ==> s[i] != d
    ensures IndexOfChar(s, d) == Some(k)
  {
    assert d in s;
    var j := IndexOfChar(s, d).value;
    forall i | 0 <= i < j ensures s[i] != d {
      assert s[..j][i] == s[i];
    }
  }

  /** A character in neither part is not in their concatenation. */
  lemma NotInConcat(a: string, b: string, x: char)
    requires x !in a && x !in b
    ensures x !in a + b
  {
    forall i | 0 <= i < |a + b| ensures (a + b)[i] != x {
      if i < |a| {
        assert (a + b)[i] == a[i];
      } else {
        assert (a + b)[i] == b[i - |a|];
      }
    }
  }

  /** `s.split(d)` for a one-character separator: never empty, and no part holds `d`. */
  function SplitChar(s: string, d: char): (parts: seq<string>)
    ensures |parts| >= 1
    ensures forall k :: 0 <= k < |parts| ==> d !in parts[k]
    decreases |s|
  {
    match IndexOfChar(s, d)
    case None => [s]
    case Some(i) => [s[..i]] + SplitChar(s[i + 1..], d)
  }

  /** Splitting on `d` and joining with `d` gives back the string. */
  lemma {:induction false} SplitCharJoin(s: string, d: char)
    ensures Join([d], SplitChar(s, d)) == s
    decreases |s|
  {
    match IndexOfChar(s, d)
    case None =>
    case Some(i) =>
      var rest := SplitChar(s[i + 1..], d);
      SplitCharJoin(s[i + 1..], d);
      var parts := [s[..i]] + rest;
      assert parts[0] == s[..i] && parts[1..] == rest;
      assert Join([d], parts) == s[..i] + [d] + Join([d], rest);
      assert s == s[..i] + [d] + s[i + 1..];
  }

  /** The first position at or after `i` at which `sep` occurs in `s`. */
  function FindFrom(s: string, sep: string, i: nat): (r: Option<nat>)
    ensures r.Some? ==> i <= r.value && r.value + |sep| <= |s|
    decreases |s| - i
  {
    if |s| < i + |sep| then None
    else if OccursAt(s, sep, i) then Some(i)
    else FindFrom(s, sep, i + 1)
  }

  /** The first position at which `sep` occurs in `s` (as `str.find`). */
  function Find(s: string, sep: string): (r: Option<nat>)
    ensures r.Some? ==> r.value + |sep| <= |s|
  {
    FindFrom(s, sep, 0)
  }

  /** `FindFrom` gives the first occurrence from `i` on, and none only when there is none. */
  lemma {:induction false} FindFromSpec(s: string, sep: string, i: nat)
    ensures var r := FindFrom(s, sep, i);
            (r.Some? ==> OccursAt(s, sep, r.value) && forall j: nat :: i <= j < r.value ==> !OccursAt(s, sep, j)) &&
            (r.None? ==> forall j: nat :: i <= j ==> !OccursAt(s, sep, j))
    decreases |s| - i
  {
    if |s| >= i + |sep| && !OccursAt(s, sep, i) {
      FindFromSpec(s, sep, i + 1);
    }
  }

  /** `Find` gives the first occurrence, and none only when there is none. */
  lemma FindSpec(s: string, sep: string)
    ensures var r := Find(s, sep);
            (r.Some? ==> OccursAt(s, sep, r.value) && forall j: nat :: j < r.value ==> !OccursAt(s, sep, j)) &&
            (r.None? ==> forall j: nat :: !OccursAt(s, sep, j))
  {
    FindFromSpec(s, sep, 0);
  }

  /** Wherever `sep` occurs from `i` on, `FindFrom` finds an occurrence at or before it. */
  lemma {:induction false} OccursFound(s: string, sep: string, i: nat, j: nat)
    requires i <= j && OccursAt(s, sep, j)
    ensures FindFrom(s, sep, i).Some? && FindFrom(s, sep, i).value <= j
    decreases j - i
  {
    if !OccursAt(s, sep, i) {
      OccursFound(s, sep, i + 1, j);
    }
  }

  /** `s.split(sep)` for a non-empty separator: occurrences are taken left to
      right without overlap. */
  function SplitOn(s: string, sep: string): (parts: seq<string>)
    requires |sep| > 0
    ensures |parts| >= 1
    decreases |s|
  {
    match Find(s, sep)
    case None => [s]
    case Some(i) => [s[..i]] + SplitOn(s[i + |sep|..], sep)
  }

  /** `s.split(sep)` has exactly one part iff `sep` does not occur in `s`. */
  lemma SplitOnSingle(s: string, sep: string)
    requires |sep| > 0
    ensures |SplitOn(s, sep)| == 1 <==> Find(s, sep).None?
  {
  }

  /** Splitting at the first occurrence of the separator adds one part. */
  lemma SplitOnFirst(s: string, sep: string)
    requires |sep| > 0 && Find(s, sep).Some?
    ensures |SplitOn(s, sep)| == 1 + |SplitOn(s[Find(s, sep).value + |sep|..], sep)|
  {
  }

  /** An occurrence at or after `d` is an occurrence in the suffix from `d`. */
  lemma OccursInSuffix(s: string, sub: string, d: nat, q: nat)
    requires d <= q && OccursAt(s, sub, q)
    ensures OccursAt(s[d..], sub, q - d)
  {
    forall k | 0 <= k < |sub| ensures s[d..][q - d + k] == sub[k] {
      assert s[d..][q - d + k] == s[q + k];
    }
  }

  /** An occurrence after the first one is an occurrence in what follows the first. */
  lemma OccursAfterFirst(s: string, sep: string, q: nat)
    requires |sep| > 0 && Find(s, sep).Some?
    requires OccursAt(s, sep, q) && Find(s, sep).value + |sep| <= q
    ensures Find(s[Find(s, sep).value + |sep|..], sep).Some?
  {
    var d := Find(s, sep).value + |sep|;
    OccursInSuffix(s, sep, d, q);
    OccursFound(s[d..], sep, 0, q - d);
  }

  /** Two separate occurrences of the separator split a string into at least three parts. */
  lemma SplitOnTwoOccurrences(s: string, sep: string, p: nat, q: nat)
    requires |sep| > 0
    requires OccursAt(s, sep, p) && OccursAt(s, sep, q) && p + |sep| <= q
    ensures |SplitOn(s, sep)| >= 3
  {
    OccursFound(s, sep, 0, p);
    OccursAfterFirst(s, sep, q);
    SplitOnFirst(s, sep);
    SplitOnFirst(s[Find(s, sep).value + |sep|..], sep);
  }

  /** The last position at which `sep` occurs in `s` (as `str.rfind`). */
  function FindLast(s: string, sep: string): (r: Option<nat>)
    ensures r.Some? ==> OccursAt(s, sep, r.value)
    ensures r.Some? ==> forall j: nat :: r.value < j ==> !OccursAt(s, sep, j)
    ensures r.None? ==> forall j: nat :: !OccursAt(s, sep, j)
    decreases |s|
  {
    if |s| < |sep| then None
    else if s[|s| - |sep|..] == sep then Some(|s| - |sep|)
    else
      assert !OccursAt(s, sep, |s| - |sep|);
      match FindLast(s[..|s| - 1], sep)
      case None =>
        assert forall j: nat :: j != |s| - |sep| ==> !OccursAt(s, sep, j) by {
          forall j: nat | j != |s| - |sep| ensures !OccursAt(s, sep, j) { OccursDropLast(s, sep, j); }
        }
        None
      case Some(k) =>
        OccursDropLast(s, sep, k);
        assert forall j: nat :: k < j && j != |s| - |sep| ==> !OccursAt(s, sep, j) by {
          forall j: nat | k < j && j != |s| - |sep| ensures !OccursAt(s, sep, j) { OccursDropLast(s, sep, j); }
        }
        Some(k)
  }

  /** An occurrence that does not end at the last character is one in the string without it. */
  lemma OccursDropLast(s: string, sub: string, j: nat)
    requires |s| > 0 && j + |sub| != |s|
    ensures OccursAt(s, sub, j) <==> OccursAt(s[..|s| - 1], sub, j)
  {
    if j + |sub| < |s| {
      assert s[..|s| - 1][j..j + |sub|] == s[j..j + |sub|];
    }
  }


  /** No "_c" starts inside `"_c" + digits` past its own underscore. */
  lemma NoUnderscoreCAfter(prefix: string, digits: string, j: nat)
    requires forall i :: 0 <= i < |digits| ==> IsDigit(digits[i])
    requires |prefix| < j
    ensures !OccursAt(prefix + "_c" + digits, "_c", j)
  {
    var id := prefix + "_c" + digits;
    if j + 2 <= |id| {
      if j > |prefix| + 1 {
        assert id[j] == digits[j - |prefix| - 2];
      }
      assert id[j + 0] != "_c"[0];
    }
  }

  /** `FindLast` is the occurrence after which there is none. */
  lemma FindLastIs(s: string, sep: string, p: nat)
    requires OccursAt(s, sep, p)
    requires forall j: nat :: p < j ==> !OccursAt(s, sep, j)
    ensures FindLast(s, sep) == Some(p)
  {
  }

  /** In `prefix + "_c" + digits` the last "_c" is the one after `prefix`. */
  lemma LastOccurrenceBeforeDigits(prefix: string, digits: string)
    requires forall i :: 0 <= i < |digits| ==> IsDigit(digits[i])
    ensures FindLast(prefix + "_c" + digits, "_c") == Some(|prefix|)
  {
    var id := prefix + "_c" + digits;
    assert id[|prefix|] == '_' && id[|prefix| + 1] == 'c';
    assert OccursAt(id, "_c", |prefix|);
    forall j: nat | |prefix| < j ensures !OccursAt(id, "_c", j) {
      NoUnderscoreCAfter(prefix, digits, j);
    }
    FindLastIs(id, "_c", |prefix|);
  }

  /** `s.split()`: maximal runs of non-whitespace characters. */
  function Words(s: string): (ws: seq<string>)
    ensures forall k :: 0 <= k < |ws| ==> |ws[k]| > 0
    decreases |s|
  {
    var t := TrimLeft(s);
    if t == [] then []
    else
      var k := WordEnd(t, 1);
      var rest := t[k..];
      assert |rest| < |s|;
      [t[..k]] + Words(rest)
  }

  function WordEnd(t: string, from: nat): (k: nat)
    requires 1 <= from <= |t|
    ensures from <= k <= |t|
    decreases |t| - from
  {
    if from == |t| || IsSpace(t[from]) then from else WordEnd(t, from + 1)
  }

  function DigitChar(d: nat): (c: char)
    requires d < 10
    ensures IsDigit(c)
  {
    (d + '0' as int) as char
  }

  function DigitValue(c: char): nat
    requires IsDigit(c)
  {
    c as int - '0' as int
  }

  /** `str(n)` for a natural number: decimal digits, most significant first, no leading zero. */
  function NatToString(n: nat): (s: string)
    ensures |s| >= 1
    ensures forall i :: 0 <= i < |s| ==> IsDigit(s[i])
    ensures s[0] != '0' || n == 0
  {
    if n < 10 then [DigitChar(n)] else NatToString(n / 10) + [DigitChar(n % 10)]
  }

  /** `str(i)` for an integer. */
  function IntToString(i: int): (s: string)
    ensures |s| >= 1
  {
    if i < 0 then "-" + NatToString(-i) else NatToString(i)
  }

  /** The value of a string of decimal digits. */
  function DigitsValue(s: string): nat
    requires forall i :: 0 <= i < |s| ==> IsDigit(s[i])
  {
    if |s| == 0 then 0 else DigitsValue(s[..|s| - 1]) * 10 + DigitValue(s[|s| - 1])
  }

  /** Reading back the digits of `str(n)` gives `n`. */
  lemma {:induction false} DigitsValueOfNatToString(n: nat)
    ensures DigitsValue(NatToString(n)) == n
  {
    if n >= 10 {
      DigitsValueOfNatToString(n / 10);
      var s := NatToString(n);
      assert s[..|s| - 1] == NatToString(n / 10);
    }
  }

  /** Different numbers print differently. */
  lemma NatToStringInjective(m: nat, n: nat)
    requires NatToString(m) == NatToString(n)
    ensures m == n
  {
    DigitsValueOfNatToString(m);
    DigitsValueOfNatToString(n);
  }

  /** The digits of a Python integer literal, with single underscores allowed
      between digits, as `int()` accepts them. */
  predicate ValidDigitGroups(d: string) {
    |d| > 0 && IsDigit(d[0]) && IsDigit(d[|d| - 1])
    && (forall i :: 0 <= i < |d| ==> IsDigit(d[i]) || d[i] == '_')
    && (forall i :: 0 <= i < |d| - 1 ==> !(d[i] == '_' && d[i + 1] == '_'))
  }

  function RemoveUnderscores(d: string): (r: string)
    requires forall i :: 0 <= i < |d| ==> IsDigit(d[i]) || d[i] == '_'
    ensures forall i :: 0 <= i < |r| ==> IsDigit(r[i])
    ensures (forall i :: 0 <= i < |d| ==> IsDigit(d[i])) ==> r == d
  {
    if |d| == 0 then []
    else (if d[0] == '_' then [] else [d[0]]) + RemoveUnderscores(d[1..])
  }

  /** `int(s)` for base 10: surrounding whitespace, an optional sign, ASCII digits
      with single underscores between them; anything else raises (None). */
  function ParseInt(s: string): (r: Option<int>)
  {
    var t := Strip(s);
    if |t| > 0 && (t[0] == '-' || t[0] == '+') then
      var d := t[1..];
      if ValidDigitGroups(d) then
        var v: int := DigitsValue(RemoveUnderscores(d));
        Some(if t[0] == '-' then -v else v)
      else None
    else if ValidDigitGroups(t) then Some(DigitsValue(RemoveUnderscores(t)))
    else None
  }

  /** `int(str(n)) == n` */
  lemma ParseIntOfNatToString(n: nat)
    ensures ParseInt(NatToString(n)) == Some(n)
  {
    var s := NatToString(n);
    assert IsDigit(s[0]) && s[0] != '-' && s[0] != '+';
    assert !IsSpace(s[0]) && !IsSpace(s[|s| - 1]);
    StripFixed(s);
    assert ValidDigitGroups(s);
    assert RemoveUnderscores(s) == s;
    DigitsValueOfNatToString(n);
  }
}
