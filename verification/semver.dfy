/**
 Version precedence as Semantic Versioning 2.0.0, section 11, defines it, stated
 without reference to any comparator: by the first position at which two
 versions differ. Build metadata is not part of this model, as no pattern in the
 repository admits it.
 */
module Semver {
  import opened Wrappers

  datatype Identifier = Numeric(number: nat) | Alphanumeric(text: string)

  datatype Version = Version(core: seq<nat>, prerelease: Option<seq<Identifier>>)

  // ---------------------------------------------------------------------
  // Lexical order over any strict order of elements.
  // ---------------------------------------------------------------------

  /** x and y agree before position k and x is smaller there, or ends there. */
  ghost predicate LessAt<T(!new)>(less: (T, T) -> bool, x: seq<T>, y: seq<T>, k: nat) {
    && k <= |x| && k < |y|
    && x[..k] == y[..k]
    && (k == |x| || less(x[k], y[k]))
  }

  ghost predicate LexLess<T(!new)>(less: (T, T) -> bool, x: seq<T>, y: seq<T>) {
    exists k: nat :: LessAt(less, x, y, k)
  }

  ghost predicate StrictOrder<T(!new)>(less: (T, T) -> bool) {
    && (forall a :: !less(a, a))
    && (forall a, b :: less(a, b) ==> !less(b, a))
    && (forall a, b, c :: less(a, b) && less(b, c) ==> less(a, c))
    && (forall a, b :: less(a, b) || a == b || less(b, a))
  }

  lemma LexTransitive<T(!new)>(less: (T, T) -> bool, x: seq<T>, y: seq<T>, z: seq<T>)
    requires StrictOrder(less) && LexLess(less, x, y) && LexLess(less, y, z)
    ensures LexLess(less, x, z)
  {
    var i: nat :| LessAt(less, x, y, i);
    var j: nat :| LessAt(less, y, z, j);
    var k := if i < j then i else j;
    assert x[..k] == x[..i][..k] == y[..k] == y[..j][..k] == z[..k];
    if i < j {
      assert y[i] == y[..j][i] == z[i];
    } else if j < i {
      assert x[j] == x[..i][j] == y[j];
    }
    assert LessAt(less, x, z, k);
  }

  /** Compared head by head, as every comparator here does. */
  lemma LexUnfold<T(!new)>(less: (T, T) -> bool, x: seq<T>, y: seq<T>)
    requires StrictOrder(less) && x != [] && y != []
    ensures LexLess(less, x, y) <==> less(x[0], y[0]) || (x[0] == y[0] && LexLess(less, x[1..], y[1..]))
  {
    if k: nat :| LessAt(less, x, y, k) {
      if k > 0 {
        assert x[0] == x[..k][0] == y[..k][0] == y[0];
        assert x[1..][..k - 1] == x[..k][1..] == y[..k][1..] == y[1..][..k - 1];
        assert LessAt(less, x[1..], y[1..], k - 1);
      }
    }
    if less(x[0], y[0]) {
      assert LessAt(less, x, y, 0);
    }
    if x[0] == y[0] && LexLess(less, x[1..], y[1..]) {
      var k: nat :| LessAt(less, x[1..], y[1..], k);
      assert x[..k + 1] == [x[0]] + x[1..][..k];
      assert y[..k + 1] == [y[0]] + y[1..][..k];
      assert LessAt(less, x, y, k + 1);
    }
  }

  lemma LexEnds<T(!new)>(less: (T, T) -> bool, x: seq<T>, y: seq<T>)
    requires x == [] || y == []
    ensures LexLess(less, x, y) <==> x == [] && y != []
  {
    if x == [] && y != [] {
      assert LessAt(less, x, y, 0);
    }
  }

  lemma {:induction false} LexTrichotomy<T(!new)>(less: (T, T) -> bool, x: seq<T>, y: seq<T>)
    requires StrictOrder(less)
    ensures LexLess(less, x, y) || x == y || LexLess(less, y, x)
    ensures LexLess(less, x, y) ==> x != y && !LexLess(less, y, x)
  {
    if x == [] || y == [] {
      LexEnds(less, x, y);
      LexEnds(less, y, x);
    } else {
      LexUnfold(less, x, y);
      LexUnfold(less, y, x);
      LexTrichotomy(less, x[1..], y[1..]);
      assert x == [x[0]] + x[1..] && y == [y[0]] + y[1..];
    }
  }

  // ---------------------------------------------------------------------
  // Section 11.
  // ---------------------------------------------------------------------

  predicate CharLess(a: char, b: char) {
    a < b
  }

  predicate NumberLess(a: nat, b: nat) {
    a < b
  }

  ghost predicate TextLess(a: string, b: string) {
    LexLess(CharLess, a, b)
  }

  /** Section 11.4: numbers by value, words in ASCII order, numbers before words. */
  ghost predicate IdentifierLess(a: Identifier, b: Identifier) {
    match (a, b)
    case (Numeric(m), Numeric(n)) => m < n
    case (Numeric(_), Alphanumeric(_)) => true
    case (Alphanumeric(_), Numeric(_)) => false
    case (Alphanumeric(s), Alphanumeric(t)) => TextLess(s, t)
  }

  /** Sections 11.2 to 11.4. */
  ghost predicate Precedes(a: Version, b: Version) {
    || LexLess(NumberLess, a.core, b.core)
    || (a.core == b.core && a.prerelease.Some? && b.prerelease.None?)
    || (a.core == b.core && a.prerelease.Some? && b.prerelease.Some?
        && LexLess(IdentifierLess, a.prerelease.value, b.prerelease.value))
  }

  lemma CharsOrdered()
    ensures StrictOrder(CharLess)
  {
  }

  lemma NumbersOrdered()
    ensures StrictOrder(NumberLess)
  {
  }

  lemma IdentifiersOrdered()
    ensures StrictOrder(IdentifierLess)
  {
    CharsOrdered();
    forall a: string, b: string ensures TextLess(a, b) || a == b || TextLess(b, a)
                                ensures TextLess(a, b) ==> a != b && !TextLess(b, a) {
      LexTrichotomy(CharLess, a, b);
    }
    forall a: string, b: string, c: string | TextLess(a, b) && TextLess(b, c) ensures TextLess(a, c) {
      LexTransitive(CharLess, a, b, c);
    }
  }

  /** Precedence is a strict total order on versions. */
  lemma PrecedenceTotal(a: Version, b: Version)
    ensures Precedes(a, b) || a == b || Precedes(b, a)
    ensures Precedes(a, b) ==> a != b && !Precedes(b, a)
  {
    NumbersOrdered();
    IdentifiersOrdered();
    LexTrichotomy(NumberLess, a.core, b.core);
    if a.prerelease.Some? && b.prerelease.Some? {
      LexTrichotomy(IdentifierLess, a.prerelease.value, b.prerelease.value);
    }
  }

  lemma PrecedenceTransitive(a: Version, b: Version, c: Version)
    requires Precedes(a, b) && Precedes(b, c)
    ensures Precedes(a, c)
  {
    NumbersOrdered();
    IdentifiersOrdered();
    if LexLess(NumberLess, a.core, b.core) && LexLess(NumberLess, b.core, c.core) {
      LexTransitive(NumberLess, a.core, b.core, c.core);
    }
    if a.core == b.core == c.core && b.prerelease.Some? && c.prerelease.Some? {
      LexTransitive(IdentifierLess, a.prerelease.value, b.prerelease.value, c.prerelease.value);
    }
  }

  // ---------------------------------------------------------------------
  // The text of a version.
  // ---------------------------------------------------------------------

  /** Where `separator` first occurs; the length when it does not. */
  function Find(text: string, separator: char): (i: nat)
    ensures i <= |text|
    ensures i < |text| ==> text[i] == separator
    ensures forall j | 0 <= j < i :: text[j] != separator
  {
    if text == "" || text[0] == separator then 0 else 1 + Find(text[1..], separator)
  }

  /** What strings.Cut and str.partition return: before, after, and whether the separator occurs. */
  function Cut(text: string, separator: char): (string, string, bool) {
    var i := Find(text, separator);
    if i == |text| then (text, "", false) else (text[..i], text[i + 1..], true)
  }

  function Split(text: string, separator: char): (fields: seq<string>)
    ensures fields != []
    decreases |text|
  {
    var i := Find(text, separator);
    if i == |text| then [text] else [text[..i]] + Split(text[i + 1..], separator)
  }

  predicate IsDigit(c: char) {
    '0' <= c <= '9'
  }

  predicate AllDigits(s: string) {
    s != "" && forall i | 0 <= i < |s| :: IsDigit(s[i])
  }

  /** 0 or a digit string without a leading zero. */
  predicate CanonicalNumber(s: string) {
    AllDigits(s) && (|s| > 1 ==> s[0] != '0')
  }

  predicate IdentifierChar(c: char) {
    IsDigit(c) || 'a' <= c <= 'z' || 'A' <= c <= 'Z' || c == '-'
  }

  predicate StrictIdentifier(s: string) {
    && s != ""
    && (forall i | 0 <= i < |s| :: IdentifierChar(s[i]))
    && (AllDigits(s) ==> CanonicalNumber(s))
  }

  /** What a pattern sees: three numbers and, after the first hyphen, the rest. */
  predicate CoreValid(text: string) {
    var fields := Split(Cut(text, '-').0, '.');
    |fields| == 3 && forall i | 0 <= i < 3 :: CanonicalNumber(fields[i])
  }

  /** The versions of section 2 and 9: what both Python parsers accept. */
  predicate StrictSemver(text: string) {
    && CoreValid(text)
    && (Cut(text, '-').2 ==>
          forall i | 0 <= i < |Split(Cut(text, '-').1, '.')| :: StrictIdentifier(Split(Cut(text, '-').1, '.')[i]))
  }

  function DigitValue(c: char): nat
    requires IsDigit(c)
  {
    (c - '0') as nat
  }

  /** The value of s read after digits worth n. */
  function ValueAfter(s: string, n: nat): nat {
    if s == "" then n
    else ValueAfter(s[1..], 10 * n + (if IsDigit(s[0]) then DigitValue(s[0]) else 0))
  }

  function Value(s: string): nat {
    ValueAfter(s, 0)
  }

  function ToIdentifier(s: string): Identifier {
    if AllDigits(s) then Numeric(Value(s)) else Alphanumeric(s)
  }

  function Values(fields: seq<string>): (r: seq<nat>)
    ensures |r| == |fields| && forall i | 0 <= i < |fields| :: r[i] == Value(fields[i])
  {
    seq(|fields|, i requires 0 <= i < |fields| => Value(fields[i]))
  }

  function Identifiers(fields: seq<string>): (r: seq<Identifier>)
    ensures |r| == |fields| && forall i | 0 <= i < |fields| :: r[i] == ToIdentifier(fields[i])
  {
    seq(|fields|, i requires 0 <= i < |fields| => ToIdentifier(fields[i]))
  }

  /** The version a text denotes. */
  function Meaning(text: string): Version {
    var parts := Cut(text, '-');
    Version(Values(Split(parts.0, '.')),
            if parts.2 then Some(Identifiers(Split(parts.1, '.'))) else None)
  }

  // ---------------------------------------------------------------------
  // Decimal numbers.
  // ---------------------------------------------------------------------

  function Power(n: nat): nat {
    if n == 0 then 1 else 10 * Power(n - 1)
  }

  lemma ShiftDigit(n: nat, d: nat, p: nat)
    requires d <= 9
    ensures (10 * n + d) * p == n * (10 * p) + d * p
    ensures d * p <= 9 * p
  {
  }

  lemma {:induction false} HigherDigit(c: nat, d: nat, u: nat, v: nat, p: nat)
    requires c < d && u < p
    ensures c * p + u < d * p + v
    decreases d
  {
    assert d * p == (d - 1) * p + p;
    if c < d - 1 {
      HigherDigit(c, d - 1, u, v, p);
    }
  }

  lemma {:induction false} ValueSplits(s: string, n: nat)
    requires forall i | 0 <= i < |s| :: IsDigit(s[i])
    ensures ValueAfter(s, n) == n * Power(|s|) + Value(s)
    ensures Value(s) < Power(|s|)
    decreases |s|
  {
    if s != "" {
      var d, p, rest := DigitValue(s[0]), Power(|s| - 1), Value(s[1..]);
      var m := 10 * n + d;
      ValueSplits(s[1..], m);
      ValueSplits(s[1..], d);
      ShiftDigit(n, d, p);
      assert ValueAfter(s, n) == ValueAfter(s[1..], m);
      assert Value(s) == ValueAfter(s[1..], d);
      hide ValueAfter, Value;
    }
  }

  /** Without leading zeros a longer number is larger. */
  lemma LongerIsLarger(a: string, b: string)
    requires CanonicalNumber(a) && CanonicalNumber(b) && |a| < |b|
    ensures Value(a) < Value(b)
  {
    ValueSplits(a, 0);
    LeadingDigit(b);
    PowerMonotone(|a|, |b| - 1);
    HigherDigit(0, DigitValue(b[0]), Value(a), Value(b[1..]), Power(|b| - 1));
  }

  lemma {:induction false} PowerMonotone(m: nat, n: nat)
    requires m <= n
    ensures Power(m) <= Power(n)
  {
    if m < n {
      PowerMonotone(m, n - 1);
    }
  }

  /** Among numbers of one length, value order is text order. */
  lemma {:induction false} SameLengthOrder(a: string, b: string)
    requires |a| == |b|
    requires forall i | 0 <= i < |a| :: IsDigit(a[i]) && IsDigit(b[i])
    ensures Value(a) < Value(b) <==> TextLess(a, b)
    ensures Value(a) == Value(b) <==> a == b
    decreases |a|
  {
    CharsOrdered();
    if a == "" {
      LexEnds(CharLess, a, b);
    } else {
      LexUnfold(CharLess, a, b);
      SameLengthOrder(a[1..], b[1..]);
      LeadingDigit(a);
      LeadingDigit(b);
      assert a == [a[0]] + a[1..] && b == [b[0]] + b[1..];
      hide ValueAfter, Value, LexLess;
      var c, d, p := DigitValue(a[0]), DigitValue(b[0]), Power(|a| - 1);
      if c < d {
        HigherDigit(c, d, Value(a[1..]), Value(b[1..]), p);
      } else if d < c {
        HigherDigit(d, c, Value(b[1..]), Value(a[1..]), p);
      }
    }
  }

  lemma LeadingDigit(s: string)
    requires s != "" && forall i | 0 <= i < |s| :: IsDigit(s[i])
    ensures Value(s) == DigitValue(s[0]) * Power(|s| - 1) + Value(s[1..])
    ensures Value(s[1..]) < Power(|s| - 1)
  {
    ValueSplits(s[1..], DigitValue(s[0]));
  }

  lemma CanonicalUnique(a: string, b: string)
    requires CanonicalNumber(a) && CanonicalNumber(b)
    ensures Value(a) == Value(b) <==> a == b
  {
    if |a| < |b| {
      LongerIsLarger(a, b);
    } else if |b| < |a| {
      LongerIsLarger(b, a);
    } else {
      SameLengthOrder(a, b);
    }
  }
}
