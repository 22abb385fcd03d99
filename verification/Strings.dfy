/** The pieces of `std::string` and `std::string_view` that the service names are built from and
    taken apart with: decimal printing, searching, and the lexicographic order. */
module Strings {
  import opened Wrappers

  // ----- Searching ---------------------------------------------------------------------------

  predicate OccursAt(s: string, pattern: string, i: nat) {
    i + |pattern| <= |s| && s[i..i + |pattern|] == pattern
  }

  /** `std::string_view::find`: the least position at which `pattern` occurs. */
  function Find(s: string, pattern: string): (r: Option<nat>)
    ensures r.Some? ==> OccursAt(s, pattern, r.value)
    ensures forall i: nat :: OccursAt(s, pattern, i) ==> r.Some? && r.value <= i
  {
    FindFrom(s, pattern, 0)
  }

  function FindFrom(s: string, pattern: string, from: nat): (r: Option<nat>)
    ensures r.Some? ==> from <= r.value && OccursAt(s, pattern, r.value)
    ensures forall i: nat :: from <= i && OccursAt(s, pattern, i) ==> r.Some? && r.value <= i
    decreases |s| - from
  {
    if OccursAt(s, pattern, from) then Some(from)
    else if |s| <= from then None
    else FindFrom(s, pattern, from + 1)
  }

  /** `std::string_view::find_last_of` for one character: the greatest position that holds it. */
  function FindLastOf(s: string, c: char): (r: Option<nat>)
    ensures r.Some? ==> r.value < |s| && s[r.value] == c
    ensures forall i :: 0 <= i < |s| && s[i] == c ==> r.Some? && i <= r.value
  {
    if s == [] then None
    else if s[|s| - 1] == c then Some(|s| - 1)
    else FindLastOf(s[..|s| - 1], c)
  }

  // ----- Decimal printing --------------------------------------------------------------------

  predicate IsDigit(c: char) {
    '0' <= c <= '9'
  }

  function Digit(d: nat): (c: char)
    requires d < 10
    ensures IsDigit(c)
  {
    '0' + d as char
  }

  function DigitValue(c: char): nat
    requires IsDigit(c)
  {
    c as int - '0' as int
  }

  /** `std::to_string` of an unsigned integer. */
  function Decimal(n: nat): (s: string)
    ensures s != [] && forall i :: 0 <= i < |s| ==> IsDigit(s[i])
  {
    if n < 10 then [Digit(n)] else Decimal(n / 10) + [Digit(n % 10)]
  }

  /** The number that a string of digits denotes. */
  function DecimalValue(s: string): nat
    requires forall i :: 0 <= i < |s| ==> IsDigit(s[i])
  {
    if s == [] then 0
    else 10 * DecimalValue(s[..|s| - 1]) + DigitValue(s[|s| - 1])
  }

  lemma {:induction false} DecimalDenotes(n: nat)
    ensures DecimalValue(Decimal(n)) == n
  {
    if 10 <= n {
      DecimalDenotes(n / 10);
      assert Decimal(n)[..|Decimal(n)| - 1] == Decimal(n / 10);
    }
  }

  predicate NoLeadingDigit(s: string) {
    s != [] ==> !IsDigit(s[0])
  }

  /** The length of the longest prefix of digits. */
  function DigitCount(s: string): nat {
    if s != [] && IsDigit(s[0]) then 1 + DigitCount(s[1..]) else 0
  }

  lemma {:induction false} DigitCountOf(digits: string, rest: string)
    requires forall i :: 0 <= i < |digits| ==> IsDigit(digits[i])
    requires NoLeadingDigit(rest)
    ensures DigitCount(digits + rest) == |digits|
  {
    if digits == [] {
      assert digits + rest == rest;
    } else {
      DigitCountOf(digits[1..], rest);
      assert (digits + rest)[1..] == digits[1..] + rest;
    }
  }

  /** A decimal number is read back unambiguously as long as what follows it is not a digit. */
  lemma DecimalPrefixUnique(a: nat, x: string, b: nat, y: string)
    requires NoLeadingDigit(x) && NoLeadingDigit(y)
    requires Decimal(a) + x == Decimal(b) + y
    ensures a == b && x == y
  {
    var s, t := Decimal(a), Decimal(b);
    DigitCountOf(s, x);
    DigitCountOf(t, y);
    assert s == (s + x)[..|s|] && t == (t + y)[..|t|];
    assert x == (s + x)[|s|..] && y == (t + y)[|t|..];
    DecimalDenotes(a);
    DecimalDenotes(b);
  }

  // ----- Order -------------------------------------------------------------------------------

  /** `std::string::operator<`: the first differing character decides, and a proper prefix is less. */
  predicate Less(a: string, b: string) {
    b != [] && (a == [] || a[0] < b[0] || (a[0] == b[0] && Less(a[1..], b[1..])))
  }

  lemma LessIrreflexive(a: string)
    ensures !Less(a, a)
  {
  }

  lemma {:induction false} LessTransitive(a: string, b: string, c: string)
    requires Less(a, b) && Less(b, c)
    ensures Less(a, c)
  {
    if a != [] && a[0] == b[0] && b[0] == c[0] {
      LessTransitive(a[1..], b[1..], c[1..]);
    }
  }

  lemma {:induction false} LessTotal(a: string, b: string)
    ensures Less(a, b) || a == b || Less(b, a)
  {
    if a != [] && b != [] && a[0] == b[0] {
      LessTotal(a[1..], b[1..]);
      assert a == [a[0]] + a[1..] && b == [b[0]] + b[1..];
    }
  }

  /** The strings first differ at `k`, or the shorter one ends there. */
  predicate DecidedAt(a: string, b: string, k: nat) {
    k <= |a| && k < |b| && a[..k] == b[..k] && (k == |a| || a[k] < b[k])
  }

  /** The order is the lexicographic one: one string is less exactly if it has the smaller character where they
      first differ, or is a proper prefix. */
  lemma {:induction false} LessIsLexicographic(a: string, b: string)
    ensures Less(a, b) <==> exists k: nat :: DecidedAt(a, b, k)
  {
    if b != [] {
      if a == [] || a[0] < b[0] {
        assert DecidedAt(a, b, 0);
      } else if a[0] == b[0] {
        LessIsLexicographic(a[1..], b[1..]);
        if k: nat :| DecidedAt(a[1..], b[1..], k) {
          DecidedLater(a, b, k + 1);
        }
        if k: nat :| DecidedAt(a, b, k) {
          DecidedLater(a, b, k);
        }
      } else if k: nat :| DecidedAt(a, b, k) {
        FirstCharacterDecides(a, b, k);
      }
    }
  }

  lemma FirstCharacterDecides(a: string, b: string, k: nat)
    requires a != [] && b != []
    ensures DecidedAt(a, b, k) ==> a[0] <= b[0]
  {
    if 0 < k <= |a| && k < |b| && a[..k] == b[..k] {
      assert a[..k][0] == a[0] && b[..k][0] == b[0];
    }
  }

  lemma DecidedLater(a: string, b: string, k: nat)
    requires a != [] && b != [] && a[0] == b[0] && k > 0
    ensures DecidedAt(a, b, k) <==> DecidedAt(a[1..], b[1..], k - 1)
  {
    if k <= |a| && k < |b| {
      assert a[..k] == [a[0]] + a[1..][..k - 1] && b[..k] == [b[0]] + b[1..][..k - 1];
      assert a[..k][1..] == a[1..][..k - 1] && b[..k][1..] == b[1..][..k - 1];
    }
  }

  /** Decimal numbers have no leading zero. */
  lemma {:induction false} DecimalHasNoLeadingZero(n: nat)
    ensures Decimal(n)[0] == '0' <==> n == 0
  {
    if 10 <= n {
      DecimalHasNoLeadingZero(n / 10);
    }
  }
}
