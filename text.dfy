/**
 * The string operations converter.py relies on, written out over
 * `seq<char>`: `str.replace(c, '')`, `' '.join`, `str.startswith`,
 * `str.partition`, the search `re.search('on Location (\d+)', line)` with
 * `int()` of its group, and the decimal formatting of an int in an f-string.
 */
module Text {

  import opened Wrappers

  /** `str.replace(c, '')`: every occurrence of `c` is dropped, the rest is kept in order. */
  function RemoveAll(s: string, c: char): (r: string)
    ensures c !in r
    ensures forall x :: x in r ==> x in s
    ensures c !in s ==> r == s
    ensures |r| <= |s|
  {
    if s == [] then []
    else (if s[0] == c then [] else [s[0]]) + RemoveAll(s[1..], c)
  }

  lemma {:induction false} RemoveAllAppend(a: string, b: string, c: char)
    ensures RemoveAll(a + b, c) == RemoveAll(a, c) + RemoveAll(b, c)
  {
    if a == [] {
      assert a + b == b;
    } else {
      assert (a + b)[1..] == a[1..] + b;
      RemoveAllAppend(a[1..], b, c);
    }
  }

  /** `RemoveAll(s, c)` is empty exactly when `s` holds nothing but `c`. */
  lemma {:induction false} RemoveAllEmpty(s: string, c: char)
    ensures RemoveAll(s, c) == [] <==> forall i :: 0 <= i < |s| ==> s[i] == c
  {
    if s != [] {
      RemoveAllEmpty(s[1..], c);
      assert forall i :: 1 <= i < |s| ==> s[i] == s[1..][i - 1];
    }
  }

  /** The byte-order mark the clippings file may carry. */
  const ByteOrderMark: char := '\U{FEFF}'

  /** `line.replace('﻿', '').replace('\n', '')` (converter.py:175-176). */
  function Clean(line: string): (r: string)
    ensures ByteOrderMark !in r && '\n' !in r
    ensures ByteOrderMark !in line && '\n' !in line ==> r == line
  {
    RemoveAll(RemoveAll(line, ByteOrderMark), '\n')
  }

  /** Cleaning is idempotent, and it works piecewise on a concatenation. */
  lemma CleanProperties(a: string, b: string)
    ensures Clean(Clean(a)) == Clean(a)
    ensures Clean(a + b) == Clean(a) + Clean(b)
  {
    RemoveAllAppend(a, b, ByteOrderMark);
    RemoveAllAppend(RemoveAll(a, ByteOrderMark), RemoveAll(b, ByteOrderMark), '\n');
  }

  /** A line cleans to the empty string exactly when it consists of byte-order marks and newlines only. */
  lemma CleanEmpty(line: string)
    ensures Clean(line) == [] <==> forall i :: 0 <= i < |line| ==> line[i] == ByteOrderMark || line[i] == '\n'
  {
    var once := RemoveAll(line, ByteOrderMark);
    RemoveAllEmpty(once, '\n');
    RemoveAllEmpty(line, ByteOrderMark);
    if Clean(line) == [] {
      forall i | 0 <= i < |line| ensures line[i] == ByteOrderMark || line[i] == '\n' {
        if line[i] != ByteOrderMark {
          KeptChar(line, ByteOrderMark, i);
        }
      }
    } else {
      var k :| 0 <= k < |once| && once[k] != '\n';
      var i := SourceOf(line, ByteOrderMark, k);
    }
  }

  /** A character other than `c` survives `RemoveAll`. */
  lemma {:induction false} KeptChar(s: string, c: char, i: nat)
    requires i < |s| && s[i] != c
    ensures s[i] in RemoveAll(s, c)
  {
    if i > 0 {
      KeptChar(s[1..], c, i - 1);
    }
  }

  /** Every character of `RemoveAll(s, c)` comes from `s`. */
  lemma {:induction false} SourceOf(s: string, c: char, k: nat) returns (i: nat)
    requires k < |RemoveAll(s, c)|
    ensures i < |s| && s[i] != c && s[i] == RemoveAll(s, c)[k]
  {
    if s[0] != c && k == 0 {
      i := 0;
    } else {
      var j := SourceOf(s[1..], c, if s[0] == c then k else k - 1);
      i := j + 1;
    }
  }

  /** `sep.join(parts)`. */
  function Join(parts: seq<string>, sep: string): (r: string)
    ensures parts == [] ==> r == ""
    ensures |parts| == 1 ==> r == parts[0]
  {
    if |parts| <= 1 then (if parts == [] then "" else parts[0])
    else Join(parts[..|parts| - 1], sep) + sep + parts[|parts| - 1]
  }

  /** Joining two non-empty runs of parts puts exactly one separator between their joins. */
  lemma {:induction false} JoinAppend(a: seq<string>, b: seq<string>, sep: string)
    requires a != [] && b != []
    ensures Join(a + b, sep) == Join(a, sep) + sep + Join(b, sep)
    decreases |b|
  {
    var ab := a + b;
    var front := b[..|b| - 1];
    var last := b[|b| - 1];
    assert ab[..|ab| - 1] == a + front;
    assert ab[|ab| - 1] == last;
    if front == [] {
      assert a + front == a;
    } else {
      JoinAppend(a, front, sep);
      assert Join(b, sep) == Join(front, sep) + sep + last;
    }
  }

  /** The length of a join: the parts' lengths and one separator between each two neighbours. */
  lemma {:induction false} JoinLength(parts: seq<string>, sep: string)
    requires parts != []
    ensures |Join(parts, sep)| == (|parts| - 1) * |sep| + SumOfLengths(parts)
  {
    if |parts| > 1 {
      JoinLength(parts[..|parts| - 1], sep);
      assert parts[..|parts| - 1] + [parts[|parts| - 1]] == parts;
      SumOfLengthsAppend(parts[..|parts| - 1], parts[|parts| - 1]);
    }
  }

  function SumOfLengths(parts: seq<string>): nat
  {
    if parts == [] then 0 else |parts[0]| + SumOfLengths(parts[1..])
  }

  lemma {:induction false} SumOfLengthsAppend(parts: seq<string>, p: string)
    ensures SumOfLengths(parts + [p]) == SumOfLengths(parts) + |p|
  {
    if parts != [] {
      assert (parts + [p])[1..] == parts[1..] + [p];
      SumOfLengthsAppend(parts[1..], p);
    }
  }

  /** `s.startswith(prefix)`. */
  predicate StartsWith(s: string, prefix: string)
  {
    |prefix| <= |s| && s[..|prefix|] == prefix
  }

  /** `sep` occurs in `s` at index `i`. */
  predicate OccursAt(s: string, sep: string, i: nat)
  {
    i + |sep| <= |s| && s[i..i + |sep|] == sep
  }

  /** The least index at or after `from` where `sep` occurs in `s`, as `str.find` searches. */
  function FindFrom(s: string, sep: string, from: nat): (r: Option<nat>)
    requires from <= |s|
    ensures r.Some? ==> from <= r.value <= |s| && OccursAt(s, sep, r.value)
    ensures r.Some? ==> forall i :: from <= i < r.value ==> !OccursAt(s, sep, i)
    ensures r.None? ==> forall i :: from <= i <= |s| ==> !OccursAt(s, sep, i)
    decreases |s| - from
  {
    if OccursAt(s, sep, from) then Some(from)
    else if from == |s| then None
    else FindFrom(s, sep, from + 1)
  }

  /**
   * `s.partition(sep)[2]`: what follows the first occurrence of `sep`, or
   * `''` when there is none. `PartitionTailAfter` states the case with an
   * occurrence.
   */
  function PartitionTail(s: string, sep: string): (r: string)
    ensures (forall i :: 0 <= i <= |s| ==> !OccursAt(s, sep, i)) ==> r == ""
  {
    match FindFrom(s, sep, 0)
    case None => ""
    case Some(i) => s[i + |sep|..]
  }

  /** When the first character of `sep` does not occur in `p`, the tail after `sep` in `p + sep + q` is `q`. */
  lemma PartitionTailAfter(p: string, sep: string, q: string)
    requires sep != [] && sep[0] !in p
    ensures PartitionTail(p + sep + q, sep) == q
  {
    var s := p + sep + q;
    assert OccursAt(s, sep, |p|) by {
      assert s[|p|..|p| + |sep|] == sep;
    }
    forall i | 0 <= i < |p| ensures !OccursAt(s, sep, i) {
      assert s[i] == p[i] != sep[0];
      if i + |sep| <= |s| {
        assert s[i..i + |sep|][0] == s[i];
      }
    }
    var r := FindFrom(s, sep, 0);
    assert r == Some(|p|);
    assert s[|p| + |sep|..] == q;
  }

  predicate IsDigit(c: char)
  {
    '0' <= c <= '9'
  }

  function DigitValue(c: char): nat
    requires IsDigit(c)
  {
    (c as int) - ('0' as int)
  }

  predicate AllDigits(s: string)
  {
    forall i :: 0 <= i < |s| ==> IsDigit(s[i])
  }

  /** The longest prefix of `s` made of digits: what the greedy `\d+` consumes. */
  function DigitPrefix(s: string): (r: string)
    ensures StartsWith(s, r) && AllDigits(r)
    ensures |r| < |s| ==> !IsDigit(s[|r|])
  {
    if s != [] && IsDigit(s[0]) then [s[0]] + DigitPrefix(s[1..]) else []
  }

  /** `int(digits)` for a string of decimal digits. */
  function DigitsValue(digits: string): nat
    requires AllDigits(digits)
  {
    if digits == [] then 0
    else DigitsValue(digits[..|digits| - 1]) * 10 + DigitValue(digits[|digits| - 1])
  }

  /** The decimal digits of `n`, most significant first, without leading zeros. */
  function Decimal(n: nat): (r: string)
    ensures r != [] && AllDigits(r)
    ensures DigitsValue(r) == n
    ensures r[0] == '0' ==> n == 0
    ensures |r| > 1 ==> r[0] != '0'
  {
    var last := [('0' as int + n % 10) as char];
    if n < 10 then last
    else
      var prefix := Decimal(n / 10);
      assert (prefix + last)[..|prefix + last| - 1] == prefix;
      assert (prefix + last)[0] == prefix[0];
      prefix + last
  }

  /** An int as an f-string prints it (converter.py:249-255). */
  function IntToString(i: int): string
  {
    if i < 0 then "-" + Decimal(-i) else Decimal(i)
  }

  /** The literal part of `'on Location (\d+)'`. */
  const LocationMarker := "on Location "

  /** The pattern `on Location \d+` matches in `line` starting at index `i`. */
  predicate LocationMatchAt(line: string, i: nat)
  {
    OccursAt(line, LocationMarker, i) && i + |LocationMarker| < |line| && IsDigit(line[i + |LocationMarker|])
  }

  /** `re.search('on Location (\d+)', line)` from index `from`: the start of the leftmost match. */
  function SearchLocation(line: string, from: nat): (r: Option<nat>)
    requires from <= |line|
    ensures r.Some? ==> from <= r.value < |line| && LocationMatchAt(line, r.value)
    ensures r.Some? ==> forall i :: from <= i < r.value ==> !LocationMatchAt(line, i)
    ensures r.None? ==> forall i :: from <= i <= |line| ==> !LocationMatchAt(line, i)
    decreases |line| - from
  {
    if LocationMatchAt(line, from) then Some(from)
    else if from == |line| then None
    else SearchLocation(line, from + 1)
  }

  /**
   * `int(re.search('on Location (\d+)', line).group(1))` (converter.py:203-204):
   * None where the search finds no match and `.group` would raise.
   */
  function ParseLocation(line: string): (r: Option<nat>)
    ensures r.None? <==> forall i :: 0 <= i <= |line| ==> !LocationMatchAt(line, i)
  {
    match SearchLocation(line, 0)
    case None => None
    case Some(i) => Some(DigitsValue(DigitPrefix(line[i + |LocationMarker|..])))
  }

  lemma {:induction false} DigitPrefixOfDecimal(n: nat, q: string)
    requires q == [] || !IsDigit(q[0])
    ensures DigitPrefix(Decimal(n) + q) == Decimal(n)
  {
    DigitPrefixOfDigits(Decimal(n), q);
  }

  lemma {:induction false} DigitPrefixOfDigits(d: string, q: string)
    requires AllDigits(d)
    requires q == [] || !IsDigit(q[0])
    ensures DigitPrefix(d + q) == d
  {
    if d != [] {
      assert (d + q)[1..] == d[1..] + q;
      DigitPrefixOfDigits(d[1..], q);
    } else {
      assert d + q == q;
    }
  }

  /**
   * Formatting and searching are inverse: the location printed after the
   * marker is read back, provided nothing before the marker can start a
   * match (every match needs an `n` as its second character).
   */
  lemma LocationRoundTrip(p: string, n: nat, q: string)
    requires 'n' !in p
    requires q == [] || !IsDigit(q[0])
    ensures ParseLocation(p + LocationMarker + Decimal(n) + q) == Some(n)
  {
    var rest := Decimal(n) + q;
    var line := p + LocationMarker + rest;
    assert line == p + LocationMarker + Decimal(n) + q;
    assert line == p + (LocationMarker + rest);
    assert StartsWith(LocationMarker + rest, "on") by {
      assert (LocationMarker + rest)[..2] == LocationMarker[..2] == "on";
    }
    NoLocationMatchBefore(p, LocationMarker + rest);
    LocationMatchAfter(p, rest);
    var r := SearchLocation(line, 0);
    assert r.Some?;
    assert r.value == |p|;
    assert line[|p| + |LocationMarker|..] == rest;
    DigitPrefixOfDecimal(n, q);
  }

  /** No match of the pattern starts inside a prefix without the letter `n`. */
  lemma NoLocationMatchBefore(p: string, rest: string)
    requires 'n' !in p
    requires StartsWith(rest, "on")
    ensures forall i :: 0 <= i < |p| ==> !LocationMatchAt(p + rest, i)
  {
    var line := p + rest;
    forall i | 0 <= i < |p| ensures !LocationMatchAt(line, i) {
      if i + 1 < |p| {
        assert line[i + 1] == p[i + 1];
      } else {
        assert line[i + 1] == rest[0] == 'o';
      }
      if i + |LocationMarker| <= |line| {
        assert line[i..i + |LocationMarker|][1] == line[i + 1];
      }
    }
  }

  lemma LocationMatchAfter(p: string, rest: string)
    requires rest != [] && IsDigit(rest[0])
    ensures LocationMatchAt(p + LocationMarker + rest, |p|)
  {
    var line := p + LocationMarker + rest;
    assert line[|p|..|p| + |LocationMarker|] == LocationMarker;
    assert line[|p| + |LocationMarker|] == rest[0];
  }
}
