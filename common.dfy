/** Shared helpers: optional values, order-preserving filtering, JavaScript string
    primitives (`includes`, `split`, `trim`, ASCII case mapping, whitespace class),
    integer/decimal-string conversion and the rounded percentage used everywhere a
    completion rate is shown. */
module Common {

  datatype Option<T> = None | Some(value: T)

  /** A value or the error the source would throw or return instead. */
  datatype Result<T, E> = Ok(value: T) | Err(error: E)

  // ---------------------------------------------------------------------------
  // Sequences

  /** `xs.filter(p)`: the elements satisfying `p`, in their original order. */
  function Filter<T(==)>(s: seq<T>, p: T -> bool): (r: seq<T>)
    ensures |r| <= |s|
  {
    if s == [] then []
    else Filter(s[..|s| - 1], p) + (if p(s[|s| - 1]) then [s[|s| - 1]] else [])
  }

  /** What `Filter` keeps: elements of `s` satisfying `p`, and all of them. */
  lemma {:induction false} FilterMembers<T>(s: seq<T>, p: T -> bool)
    ensures forall i :: 0 <= i < |Filter(s, p)| ==> Filter(s, p)[i] in s && p(Filter(s, p)[i])
    ensures forall i :: 0 <= i < |s| && p(s[i]) ==> s[i] in Filter(s, p)
  {
    if s != [] {
      var s', x := s[..|s| - 1], s[|s| - 1];
      FilterMembers(s', p);
      assert s == s' + [x];
      var f := Filter(s', p);
      assert Filter(s, p) == f + (if p(x) then [x] else []);
      forall i | 0 <= i < |s| && p(s[i]) ensures s[i] in Filter(s, p) {
        if i < |s'| { assert s[i] == s'[i]; }
      }
    }
  }

  lemma {:induction false} FilterConcat<T>(a: seq<T>, b: seq<T>, p: T -> bool)
    ensures Filter(a + b, p) == Filter(a, p) + Filter(b, p)
    decreases |b|
  {
    if b != [] {
      var b', x := b[..|b| - 1], b[|b| - 1];
      FilterConcat(a, b', p);
      assert a + b == (a + b') + [x];
      FilterAppend(a + b', x, p);
      assert b == b' + [x];
      FilterAppend(b', x, p);
    } else {
      assert a + b == a;
    }
  }

  /** Filtering a sequence with one element spliced in. */
  lemma FilterSplice<T>(front: seq<T>, y: T, back: seq<T>, p: T -> bool)
    ensures Filter(front + [y] + back, p) == Filter(front, p) + (if p(y) then [y] else []) + Filter(back, p)
  {
    FilterConcat(front + [y], back, p);
    FilterAppend(front, y, p);
  }

  /** Nothing is kept when no element satisfies `p`. */
  lemma {:induction false} FilterNone<T>(s: seq<T>, p: T -> bool)
    requires forall i :: 0 <= i < |s| ==> !p(s[i])
    ensures Filter(s, p) == []
  {
    if s != [] {
      FilterNone(s[..|s| - 1], p);
    }
  }

  /** `a` can be obtained from `b` by deleting elements (order kept). */
  predicate IsSubsequence<T(==)>(a: seq<T>, b: seq<T>)
    decreases |b|
  {
    if a == [] then true
    else if b == [] then false
    else if a[|a| - 1] == b[|b| - 1] then IsSubsequence(a[..|a| - 1], b[..|b| - 1])
    else IsSubsequence(a, b[..|b| - 1])
  }

  lemma {:induction false} FilterIsSubsequence<T>(s: seq<T>, p: T -> bool)
    ensures IsSubsequence(Filter(s, p), s)
  {
    if s != [] {
      var s', x := s[..|s| - 1], s[|s| - 1];
      FilterIsSubsequence(s', p);
      var f := Filter(s', p);
      if p(x) {
        assert Filter(s, p) == f + [x];
        assert (f + [x])[..|f|] == f;
      } else {
        assert Filter(s, p) == f;
        FilterMembers(s', p);
        assert x !in f;
      }
    }
  }

  lemma {:induction false} FilterAppend<T>(s: seq<T>, x: T, p: T -> bool)
    ensures Filter(s + [x], p) == Filter(s, p) + (if p(x) then [x] else [])
  {
    assert (s + [x])[..|s|] == s;
  }

  /** `s.filter(p)` and `s.filter(x => !p(x))` split `s`: their sizes add up and
      together they hold exactly the elements of `s`. */
  lemma {:induction false} FilterPartition<T>(s: seq<T>, p: T -> bool, q: T -> bool)
    requires forall x :: q(x) == !p(x)
    ensures |Filter(s, p)| + |Filter(s, q)| == |s|
    ensures multiset(Filter(s, p)) + multiset(Filter(s, q)) == multiset(s)
  {
    FilterPartitionMultiset(s, p, q);
    assert |multiset(Filter(s, p)) + multiset(Filter(s, q))| == |multiset(s)|;
  }

  lemma {:induction false} FilterPartitionMultiset<T>(s: seq<T>, p: T -> bool, q: T -> bool)
    requires forall x :: q(x) == !p(x)
    ensures multiset(Filter(s, p)) + multiset(Filter(s, q)) == multiset(s)
  {
    if s != [] {
      var s', x := s[..|s| - 1], s[|s| - 1];
      FilterPartitionMultiset(s', p, q);
      assert s == s' + [x];
      assert multiset(s) == multiset(s') + multiset{x};
      FilterAppend(s', x, p);
      FilterAppend(s', x, q);
    }
  }

  /** Filtering by a stronger predicate keeps no more elements. */
  lemma {:induction false} FilterStronger<T>(s: seq<T>, p: T -> bool, q: T -> bool)
    requires forall x :: q(x) ==> p(x)
    ensures |Filter(s, q)| <= |Filter(s, p)|
  {
    if s != [] {
      FilterStronger(s[..|s| - 1], p, q);
    }
  }

  /** Three predicates no element satisfies two of at once select, together, no
      more elements than there are. */
  lemma {:induction false} FilterDisjoint3<T>(s: seq<T>, p: T -> bool, q: T -> bool, r: T -> bool)
    requires forall x :: !(p(x) && q(x)) && !(p(x) && r(x)) && !(q(x) && r(x))
    ensures |Filter(s, p)| + |Filter(s, q)| + |Filter(s, r)| <= |s|
  {
    if s != [] {
      FilterDisjoint3(s[..|s| - 1], p, q, r);
    }
  }

  /** `xs.find(p)`: the first element satisfying `p`. */
  function FirstWhere<T>(s: seq<T>, p: T -> bool): (r: Option<T>)
    ensures r.None? <==> forall i :: 0 <= i < |s| ==> !p(s[i])
    ensures r.Some? ==> r.value in s && p(r.value)
  {
    if s == [] then None else if p(s[0]) then Some(s[0]) else FirstWhere(s[1..], p)
  }

  /** `find` returns the element at the first index that satisfies `p`. */
  lemma {:induction false} FirstWhereIsFirst<T>(s: seq<T>, p: T -> bool, i: int)
    requires 0 <= i < |s| && p(s[i])
    requires forall j :: 0 <= j < i ==> !p(s[j])
    ensures FirstWhere(s, p) == Some(s[i])
  {
    if i > 0 {
      FirstWhereIsFirst(s[1..], p, i - 1);
    }
  }

  /** The first `Some` that `f` gives along `s`. */
  function FirstSome<E, C>(s: seq<E>, f: E -> Option<C>): Option<C>
  {
    if s == [] then None else if f(s[0]).Some? then f(s[0]) else FirstSome(s[1..], f)
  }

  /** `FirstSome` is `None` exactly when every `f` is, and otherwise the value
      at the first index where `f` is `Some`. */
  lemma {:induction false} FirstSomeMeaning<E, C>(s: seq<E>, f: E -> Option<C>)
    ensures FirstSome(s, f).None? <==> forall t :: 0 <= t < |s| ==> f(s[t]).None?
    ensures FirstSome(s, f).Some? ==>
      (exists t :: 0 <= t < |s| && FirstSome(s, f) == f(s[t]) && (forall u :: 0 <= u < t ==> f(s[u]).None?))
  {
    if s != [] {
      FirstSomeMeaning(s[1..], f);
      if f(s[0]).None? {
        assert forall t :: 1 <= t < |s| ==> s[t] == s[1..][t - 1];
        if FirstSome(s, f).Some? {
          var t :| 0 <= t < |s[1..]| && FirstSome(s[1..], f) == f(s[1..][t])
                   && (forall u :: 0 <= u < t ==> f(s[1..][u]).None?);
          assert FirstSome(s, f) == f(s[t + 1]);
          forall u | 0 <= u < t + 1 ensures f(s[u]).None? {
            if u > 0 {
              assert s[u] == s[1..][u - 1];
            }
          }
        }
      } else {
        assert FirstSome(s, f) == f(s[0]);
      }
    }
  }

  /** Largest `n` not exceeding either argument. */
  function Min(a: int, b: int): int { if a <= b then a else b }

  /** `xs.slice(0, n)` */
  function Take<T>(s: seq<T>, n: nat): (r: seq<T>)
    ensures |r| == Min(|s|, n)
    ensures r == s[..|r|]
  {
    if |s| <= n then s else s[..n]
  }

  // ---------------------------------------------------------------------------
  // Strings

  /** `t` occurs in `s` starting at index `i`. */
  predicate OccursAt(s: string, t: string, i: int)
  {
    0 <= i && i + |t| <= |s| && s[i..i + |t|] == t
  }

  /** `a || b` on an optional string: the empty string is falsy. */
  function OrElse(a: Option<string>, b: string): string
  {
    if a.Some? && a.value != "" then a.value else b
  }

  /** `error instanceof Error ? error.message : fallback`, with `None` for a
      thrown value that is not an `Error`. */
  function ErrorText(message: Option<string>, fallback: string): string
  {
    if message.Some? then message.value else fallback
  }

  /** `s.includes(t)` */
  predicate Contains(s: string, t: string)
  {
    exists i | 0 <= i <= |s| :: OccursAt(s, t, i)
  }

  /** Every string contains itself and the empty string. */
  lemma ContainsSelf(s: string)
    ensures Contains(s, s) && Contains(s, "")
  {
    assert OccursAt(s, s, 0);
    assert OccursAt(s, "", 0);
  }

  /** A string containing `t` also contains it once a character is appended. */
  lemma ContainsAppend(s: string, t: string, c: char)
    requires Contains(s, t)
    ensures Contains(s + [c], t)
  {
    var i :| 0 <= i <= |s| && OccursAt(s, t, i);
    assert s[i..i + |t|] == t;
    assert (s + [c])[i..i + |t|] == s[i..i + |t|];
    assert OccursAt(s + [c], t, i);
  }

  /** String.prototype.toLowerCase, restricted to the ASCII letters. */
  function LowerChar(c: char): char
  {
    if 'A' <= c <= 'Z' then (c as int + 32) as char else c
  }

  function UpperChar(c: char): char
  {
    if 'a' <= c <= 'z' then (c as int - 32) as char else c
  }

  function Lower(s: string): (r: string)
    ensures |r| == |s|
    ensures forall i :: 0 <= i < |s| ==> r[i] == LowerChar(s[i])
  {
    if s == [] then [] else [LowerChar(s[0])] + Lower(s[1..])
  }

  function Upper(s: string): (r: string)
    ensures |r| == |s|
    ensures forall i :: 0 <= i < |s| ==> r[i] == UpperChar(s[i])
  {
    if s == [] then [] else [UpperChar(s[0])] + Upper(s[1..])
  }

  /** Lower-casing twice is lower-casing once. */
  lemma LowerTwice(s: string)
    ensures Lower(Lower(s)) == Lower(s)
  {
    assert forall i :: 0 <= i < |s| ==> Lower(Lower(s))[i] == Lower(s)[i];
  }

  /** Lower-casing forgets an upper-casing done before it. */
  lemma LowerOfUpper(s: string)
    ensures Lower(Upper(s)) == Lower(s)
  {
    assert forall i :: 0 <= i < |s| ==> Lower(Upper(s))[i] == Lower(s)[i];
  }

  /** The characters matched by the regular-expression class `\s` and removed by
      `String.prototype.trim` (WhiteSpace and LineTerminator of ECMAScript). */
  predicate IsSpace(c: char)
  {
    c == '\t' || c == '\n' || c == '\U{000B}' || c == '\U{000C}' || c == '\r' || c == ' '
    || c == '\U{00A0}' || c == '\U{1680}' || ('\U{2000}' <= c <= '\U{200A}')
    || c == '\U{2028}' || c == '\U{2029}' || c == '\U{202F}' || c == '\U{205F}'
    || c == '\U{3000}' || c == '\U{FEFF}'
  }

  function TrimStart(s: string): (r: string)
    ensures |r| <= |s|
    ensures r == s[|s| - |r|..]
    ensures r != [] ==> !IsSpace(r[0])
    ensures forall i :: 0 <= i < |s| - |r| ==> IsSpace(s[i])
  {
    if s != [] && IsSpace(s[0]) then TrimStart(s[1..]) else s
  }

  function TrimEnd(s: string): (r: string)
    ensures |r| <= |s|
    ensures r == s[..|r|]
    ensures r != [] ==> !IsSpace(r[|r| - 1])
    ensures forall i :: |r| <= i < |s| ==> IsSpace(s[i])
  {
    if s != [] && IsSpace(s[|s| - 1]) then TrimEnd(s[..|s| - 1]) else s
  }

  /** `s.trim()` */
  function Trim(s: string): (r: string)
    ensures |r| <= |s|
    ensures r != [] ==> !IsSpace(r[0]) && !IsSpace(r[|r| - 1])
  {
    TrimEnd(TrimStart(s))
  }

  predicate NotSpace(c: char) { !IsSpace(c) }

  /** Trimming removes only whitespace: the other characters stay, in order. */
  lemma TrimStartKeepsText(s: string)
    ensures Filter(TrimStart(s), NotSpace) == Filter(s, NotSpace)
  {
    var r := TrimStart(s);
    var k := |s| - |r|;
    var front := s[..k];
    assert s == front + r;
    assert forall i :: 0 <= i < |front| ==> !NotSpace(front[i]);
    FilterConcat(front, r, NotSpace);
    FilterNone(front, NotSpace);
  }

  lemma TrimEndKeepsText(s: string)
    ensures Filter(TrimEnd(s), NotSpace) == Filter(s, NotSpace)
  {
    var r := TrimEnd(s);
    assert s == r + s[|r|..];
    FilterConcat(r, s[|r|..], NotSpace);
    FilterNone(s[|r|..], NotSpace);
  }

  lemma TrimKeepsText(s: string)
    ensures Filter(Trim(s), NotSpace) == Filter(s, NotSpace)
  {
    TrimStartKeepsText(s);
    TrimEndKeepsText(TrimStart(s));
  }

  /** A string made only of whitespace trims to the empty string, and only such a
      string does. */
  lemma TrimEmptyIffAllSpace(s: string)
    ensures Trim(s) == [] <==> forall i :: 0 <= i < |s| ==> IsSpace(s[i])
  {
    if forall i :: 0 <= i < |s| ==> IsSpace(s[i]) {
      AllSpaceTrimStart(s);
    } else {
      var k :| 0 <= k < |s| && !IsSpace(s[k]);
      NonSpaceSurvives(s, k);
    }
  }

  lemma {:induction false} AllSpaceTrimStart(s: string)
    requires forall i :: 0 <= i < |s| ==> IsSpace(s[i])
    ensures TrimStart(s) == []
  {
    if s != [] {
      assert IsSpace(s[0]);
      AllSpaceTrimStart(s[1..]);
    }
  }

  lemma NonSpaceSurvives(s: string, k: int)
    requires 0 <= k < |s| && !IsSpace(s[k])
    ensures Trim(s) != []
  {
    var t := TrimStart(s);
    var j := k - (|s| - |t|);
    assert 0 <= j < |t| && t[j] == s[k];
    assert j < |TrimEnd(t)|;
  }

  /** `s.split(sep)`: the pieces between occurrences of `sep`; never empty. */
  function Split(s: string, sep: char): (r: seq<string>)
    ensures |r| >= 1
    ensures forall i :: 0 <= i < |r| ==> sep !in r[i]
  {
    if s == [] then [""]
    else
      var rest := Split(s[1..], sep);
      if s[0] == sep then [""] + rest
      else [[s[0]] + rest[0]] + rest[1..]
  }

  /** `pieces.join(sep)` */
  function Join(pieces: seq<string>, sep: char): string
  {
    if |pieces| == 0 then ""
    else if |pieces| == 1 then pieces[0]
    else pieces[0] + [sep] + Join(pieces[1..], sep)
  }

  /** Splitting and re-joining gives back the string: `split` loses nothing. */
  lemma {:induction false} JoinSplit(s: string, sep: char)
    ensures Join(Split(s, sep), sep) == s
  {
    if s != [] {
      var rest := Split(s[1..], sep);
      JoinSplit(s[1..], sep);
      if s[0] != sep {
        var r := Split(s, sep);
        assert r[0] == [s[0]] + rest[0];
        assert r[1..] == rest[1..];
        if |rest| == 1 {
          assert Join(r, sep) == [s[0]] + rest[0];
        } else {
          assert Join(r, sep) == [s[0]] + rest[0] + [sep] + Join(rest[1..], sep);
          assert Join(rest, sep) == rest[0] + [sep] + Join(rest[1..], sep);
        }
        assert s == [s[0]] + s[1..];
      } else {
        assert Split(s, sep) == [""] + rest;
        assert s == [sep] + s[1..];
      }
    }
  }

  /** Splitting a string with no separator in it gives that string alone, and
      splitting `a + [sep] + b` gives `a` followed by the pieces of `b`. */
  lemma {:induction false} SplitConcat(a: string, b: string, sep: char)
    requires sep !in a
    ensures Split(a + [sep] + b, sep) == [a] + Split(b, sep)
    ensures Split(a, sep) == [a]
  {
    if a == [] {
      assert a + [sep] + b == [sep] + b;
      assert ([sep] + b)[1..] == b;
    } else {
      SplitConcat(a[1..], b, sep);
      assert (a + [sep] + b)[1..] == a[1..] + [sep] + b;
      assert [a[0]] + a[1..] == a;
    }
  }

  /** The first piece of `s.split(sep)` is the longest prefix of `s` without
      `sep`: it is followed by the end of `s` or by `sep`. */
  lemma {:induction false} SplitHead(s: string, sep: char)
    ensures var h := Split(s, sep)[0];
      |h| <= |s| && s[..|h|] == h && (|h| == |s| || s[|h|] == sep)
  {
    if s != [] && s[0] != sep {
      SplitHead(s[1..], sep);
    }
  }

  // ---------------------------------------------------------------------------
  // Numbers and decimal strings

  predicate IsDigit(c: char) { '0' <= c <= '9' }

  function DigitValue(c: char): nat
    requires IsDigit(c)
  {
    c as int - '0' as int
  }

  function DigitChar(d: nat): (c: char)
    requires d < 10
    ensures IsDigit(c) && DigitValue(c) == d
  {
    ('0' as int + d) as char
  }

  /** The value of a string of decimal digits (most significant first). */
  function DigitsValue(s: string): nat
    requires forall i :: 0 <= i < |s| ==> IsDigit(s[i])
  {
    if s == [] then 0 else 10 * DigitsValue(s[..|s| - 1]) + DigitValue(s[|s| - 1])
  }

  /** `n.toString()` for a natural number. */
  function NatToString(n: nat): (r: string)
    ensures |r| >= 1
    ensures forall i :: 0 <= i < |r| ==> IsDigit(r[i])
    ensures DigitsValue(r) == n
  {
    if n < 10 then [DigitChar(n)]
    else
      var p := NatToString(n / 10);
      var r := p + [DigitChar(n % 10)];
      assert r[..|r| - 1] == p;
      r
  }

  /** `n.toString()` for an integer: a '-' sign before the digits of |n|. */
  function IntToString(n: int): (r: string)
    ensures |r| >= 1
  {
    if n < 0 then "-" + NatToString(-n) else NatToString(n)
  }

  /** The longest prefix of `s` made of decimal digits. */
  function LeadingDigits(s: string): (r: string)
    ensures |r| <= |s| && r == s[..|r|]
    ensures forall i :: 0 <= i < |r| ==> IsDigit(r[i])
    ensures forall i :: 0 <= i < |r| ==> IsDigit(s[i])
    ensures |r| < |s| ==> !IsDigit(s[|r|])
  {
    if s != [] && IsDigit(s[0]) then [s[0]] + LeadingDigits(s[1..]) else []
  }

  /** `parseInt(s, 10)`: skip leading whitespace, accept one sign, then read the
      longest run of decimal digits; `None` stands for NaN (no digit at all). */
  function ParseInt(s: string): (r: Option<int>)
    ensures r.None? <==> LeadingDigits(OptionalSign(TrimStart(s)).1) == []
  {
    var (negative, rest) := OptionalSign(TrimStart(s));
    var digits := LeadingDigits(rest);
    if digits == [] then None
    else Some(if negative then -(DigitsValue(digits) as int) else DigitsValue(digits) as int)
  }

  function OptionalSign(s: string): (bool, string)
  {
    if s != [] && s[0] == '-' then (true, s[1..])
    else if s != [] && s[0] == '+' then (false, s[1..])
    else (false, s)
  }

  /** Digits followed by a non-digit: the leading digits are exactly those. */
  lemma {:induction false} LeadingDigitsStop(d: string, c: char, rest: string)
    requires forall i :: 0 <= i < |d| ==> IsDigit(d[i])
    requires !IsDigit(c)
    ensures LeadingDigits(d + [c] + rest) == d
  {
    if d != [] {
      LeadingDigitsStop(d[1..], c, rest);
      assert (d + [c] + rest)[1..] == d[1..] + [c] + rest;
    }
  }

  /** `parseInt(n.toString())` gives back `n`. */
  lemma IntToStringRoundTrip(n: int)
    ensures ParseInt(IntToString(n)) == Some(n)
  {
    var m: nat := if n < 0 then -n else n;
    var digits := NatToString(m);
    AllDigitsLeading(digits);
    if n < 0 {
      SignedDigitsParse(digits);
    } else {
      UnsignedDigitsParse(digits);
    }
  }

  lemma UnsignedDigitsParse(d: string)
    requires |d| >= 1 && forall i :: 0 <= i < |d| ==> IsDigit(d[i])
    ensures ParseInt(d) == Some(DigitsValue(d) as int)
  {
    UnsignedSteps(d);
    AllDigitsLeading(d);
    ParseIntSteps(d, false, d);
  }

  lemma UnsignedSteps(d: string)
    requires |d| >= 1 && IsDigit(d[0])
    ensures TrimStart(d) == d && OptionalSign(d) == (false, d)
  {
  }

  lemma SignedDigitsParse(d: string)
    requires |d| >= 1 && LeadingDigits(d) == d
    ensures ParseInt("-" + d) == Some(-(DigitsValue(d) as int))
  {
    var s := "-" + d;
    assert s[0] == '-' && !IsSpace(s[0]);
    assert TrimStart(s) == s;
    assert s[1..] == d;
    assert OptionalSign(s) == (true, d);
    ParseIntSteps(s, true, d);
  }

  /** `parseInt` of a string with no leading whitespace whose sign is followed
      by digits only. */
  lemma ParseIntSteps(s: string, negative: bool, rest: string)
    requires TrimStart(s) == s && OptionalSign(s) == (negative, rest)
    requires rest != [] && LeadingDigits(rest) == rest
    ensures ParseInt(s) == Some(if negative then -(DigitsValue(rest) as int) else DigitsValue(rest) as int)
  {
  }

  lemma {:induction false} AllDigitsLeading(s: string)
    requires forall i :: 0 <= i < |s| ==> IsDigit(s[i])
    ensures LeadingDigits(s) == s
  {
    if s != [] {
      AllDigitsLeading(s[1..]);
    }
  }

  // ---------------------------------------------------------------------------
  // Percentages

  /** `total > 0 ? Math.round((part / total) * 100) : 0` in exact arithmetic:
      100·part/total rounded half up, and 0 for an empty group. */
  function RoundPercent(part: nat, total: nat): (r: nat)
    ensures total == 0 ==> r == 0
    ensures part == 0 ==> r == 0
    ensures part == total > 0 ==> r == 100
    ensures part <= total ==> r <= 100
  {
    if total == 0 then 0
    else
      QuotientFacts(part, total);
      (200 * part + total) / (2 * total)
  }

  /** `RoundPercent` is the nearest integer to `100 * part / total`, halves
      rounded up as `Math.round` does. */
  lemma RoundPercentNearest(part: nat, total: nat)
    requires total > 0
    ensures var r := RoundPercent(part, total);
      2 * total * r <= 200 * part + total < 2 * total * (r + 1)
  {
    QuotientFacts(part, total);
  }

  lemma QuotientFacts(part: nat, total: nat)
    requires total > 0
    ensures var q := (200 * part + total) / (2 * total);
      2 * total * q <= 200 * part + total < 2 * total * (q + 1)
      && (part <= total ==> q <= 100)
      && (part == 0 ==> q == 0)
      && (part == total ==> q == 100)
  {
    if part == 0 {
      DivUpper(total, 2 * total, 1);
    }
    if part == total {
      assert 200 * part + total == 2 * total * 100 + total;
      DivPlus(2 * total, 100, total);
    }
    DivBounds(200 * part + total, 2 * total);
    if part <= total {
      assert 200 * part + total < 2 * total * 101;
      DivUpper(200 * part + total, 2 * total, 101);
    }
  }

  lemma DivBounds(a: nat, b: nat)
    requires b > 0
    ensures b * (a / b) <= a < b * (a / b + 1)
  {
  }

  lemma DivUpper(a: nat, b: nat, k: nat)
    requires b > 0 && a < b * k
    ensures a / b < k
  {
    if a / b >= k {
      assert b * (a / b) >= b * k by {
        MulMono(b, k, a / b);
      }
      DivBounds(a, b);
    }
  }

  lemma DivPlus(b: nat, k: nat, c: nat)
    requires 0 <= c < b
    ensures (b * k + c) / b == k
  {
    var q := (b * k + c) / b;
    DivBounds(b * k + c, b);
    if q < k {
      MulMono(b, q + 1, k);
    } else if q > k {
      MulMono(b, k + 1, q);
    }
  }

  lemma MulMono(b: nat, x: nat, y: nat)
    requires x <= y
    ensures b * x <= b * y
  {
  }
}
