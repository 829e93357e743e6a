/**
 The three version comparators: the installer's `compareVersions` (Go) and the
 two Python ones, each in the form it has in its file, and what they agree on.
*/
module Versions {
  import opened Semver
  import opened Wrappers

  // ---------------------------------------------------------------------
  // internal/providersync/check.go
  // ---------------------------------------------------------------------

  const MAXIMUM_UINT64: nat := 0xFFFF_FFFF_FFFF_FFFF

  datatype Parsed = Parsed(ok: bool, value: nat)

  /** strconv.ParseUint in base 10, 64 bits: the value it returns beside an error matters. */
  function ParseUint(s: string): Parsed {
    if s == "" then Parsed(false, 0) else ParseDigits(s, 0)
  }

  function ParseDigits(s: string, n: nat): Parsed
    requires n <= MAXIMUM_UINT64
  {
    if s == "" then Parsed(true, n)
    else if !IsDigit(s[0]) then Parsed(false, 0)
    else if 10 * n + DigitValue(s[0]) > MAXIMUM_UINT64 then Parsed(false, MAXIMUM_UINT64)
    else ParseDigits(s[1..], 10 * n + DigitValue(s[0]))
  }

  /** strings.Compare. */
  function CompareStrings(a: string, b: string): int {
    if a == "" || b == "" then (if a == b then 0 else if a == "" then -1 else 1)
    else if a[0] != b[0] then (if a[0] < b[0] then -1 else 1)
    else CompareStrings(a[1..], b[1..])
  }

  /** One turn of the loop; zero lets the loop go on. */
  function FieldOrder(left: string, right: string, numeric: bool): int {
    var l, r := ParseUint(left), ParseUint(right);
    if (numeric || (l.ok && r.ok)) && l.value != r.value then (if l.value < r.value then -1 else 1)
    else if !numeric && l.ok != r.ok then (if l.ok then -1 else 1)
    else if left != right && (!l.ok || !r.ok) then CompareStrings(left, right)
    else 0
  }

  function FieldsOrder(left: seq<string>, right: seq<string>, numeric: bool): int {
    if left == [] || right == [] then |left| - |right|
    else
      var order := FieldOrder(left[0], right[0], numeric);
      if order != 0 then order else FieldsOrder(left[1..], right[1..], numeric)
  }

  method CompareFields(left: seq<string>, right: seq<string>, numeric: bool) returns (order: int)
    ensures order == FieldsOrder(left, right, numeric)
  {
    var index := 0;
    while index < |left| && index < |right|
      invariant index <= |left| && index <= |right|
      invariant FieldsOrder(left[index..], right[index..], numeric) == FieldsOrder(left, right, numeric)
    {
      var l, r := ParseUint(left[index]), ParseUint(right[index]);
      if (numeric || (l.ok && r.ok)) && l.value != r.value {
        return if l.value < r.value then -1 else 1;
      } else if !numeric && l.ok != r.ok {
        return if l.ok then -1 else 1;
      } else if left[index] != right[index] && (!l.ok || !r.ok) {
        CompareEqual(left[index], right[index]);
        return CompareStrings(left[index], right[index]);
      }
      assert left[index..][1..] == left[index + 1..] && right[index..][1..] == right[index + 1..];
      index := index + 1;
    }
    return |left| - |right|;
  }

  function CompareVersions(left: string, right: string): int {
    var l, r := Cut(left, '-'), Cut(right, '-');
    var order := FieldsOrder(Split(l.0, '.'), Split(r.0, '.'), true);
    if order != 0 then order
    else if l.1 == r.1 then 0
    else if l.1 == "" then 1
    else if r.1 == "" then -1
    else FieldsOrder(Split(l.1, '.'), Split(r.1, '.'), false)
  }

  // ---------------------------------------------------------------------
  // scripts/runtime_providers.py
  // ---------------------------------------------------------------------

  datatype Result<+T> = Ok(value: T) | Failure(code: string)

  /** int tuples, compared as Python compares them. */
  function CompareNumbers(a: seq<nat>, b: seq<nat>): int {
    if a == [] || b == [] then (if |a| == |b| then 0 else if a == [] then -1 else 1)
    else if a[0] != b[0] then (if a[0] < b[0] then -1 else 1)
    else CompareNumbers(a[1..], b[1..])
  }

  function ProviderPartOrder(left: string, right: string): int {
    if left == right then 0
    else if AllDigits(left) && AllDigits(right) then (if Value(left) > Value(right) then 1 else -1)
    else if AllDigits(left) != AllDigits(right) then (if AllDigits(left) then -1 else 1)
    else if CompareStrings(left, right) > 0 then 1 else -1
  }

  function ProviderPartsOrder(left: seq<string>, right: seq<string>): int {
    if left == [] || right == [] then (if |left| > |right| then 1 else if |left| < |right| then -1 else 0)
    else
      var order := ProviderPartOrder(left[0], right[0]);
      if order != 0 then order else ProviderPartsOrder(left[1..], right[1..])
  }

  function ProviderOrder(left: string, right: string): int {
    var l, r := Cut(left, '-'), Cut(right, '-');
    var core := CompareNumbers(Values(Split(l.0, '.')), Values(Split(r.0, '.')));
    if core != 0 then core
    else if !l.2 || !r.2 then (if l.2 == r.2 then 0 else if !l.2 then 1 else -1)
    else ProviderPartsOrder(Split(l.1, '.'), Split(r.1, '.'))
  }

  /** `_compare_semver`; the pattern is StrictSemver. */
  method CompareProviderVersions(left: string, right: string) returns (order: Result<int>)
    ensures order.Ok? <==> StrictSemver(left) && StrictSemver(right)
    ensures order.Ok? ==> order.value == ProviderOrder(left, right)
  {
    if !StrictSemver(left) || !StrictSemver(right) {
      return Failure("RUNTIME_PROVIDER_ACTIVE_INVALID");
    }
    var l, r := Cut(left, '-'), Cut(right, '-');
    var core := CompareNumbers(Values(Split(l.0, '.')), Values(Split(r.0, '.')));
    if core != 0 {
      return Ok(core);
    }
    if !l.2 || !r.2 {
      return Ok(if l.2 == r.2 then 0 else if !l.2 then 1 else -1);
    }
    var leftParts, rightParts := Split(l.1, '.'), Split(r.1, '.');
    var i := 0;
    while i < |leftParts| && i < |rightParts|
      invariant i <= |leftParts| && i <= |rightParts|
      invariant ProviderPartsOrder(leftParts[i..], rightParts[i..]) == ProviderPartsOrder(leftParts, rightParts)
    {
      var part := ProviderPartOrder(leftParts[i], rightParts[i]);
      if part != 0 {
        return Ok(part);
      }
      assert leftParts[i..][1..] == leftParts[i + 1..] && rightParts[i..][1..] == rightParts[i + 1..];
      i := i + 1;
    }
    return Ok(if |leftParts| > |rightParts| then 1 else if |leftParts| < |rightParts| then -1 else 0);
  }

  // ---------------------------------------------------------------------
  // scripts/dependencies.py
  // ---------------------------------------------------------------------

  /** The pattern there: identifiers may still have leading zeros. */
  predicate LooseSemver(text: string) {
    && CoreValid(text)
    && (Cut(text, '-').2 ==>
          forall i | 0 <= i < |Split(Cut(text, '-').1, '.')| :: LooseIdentifier(Split(Cut(text, '-').1, '.')[i]))
  }

  predicate LooseIdentifier(s: string) {
    s != "" && forall i | 0 <= i < |s| :: IdentifierChar(s[i])
  }

  /** `parse_semver` accepts exactly the strict versions and returns what they denote. */
  method ParseSemver(value: string) returns (parsed: Result<Version>)
    ensures parsed.Ok? <==> StrictSemver(value)
    ensures parsed.Ok? ==> parsed.value == Meaning(value)
  {
    if !LooseSemver(value) {
      return Failure("DEPENDENCY_VERSION_INVALID");
    }
    var parts := Cut(value, '-');
    var identifiers: Option<seq<Identifier>> := None;
    if parts.2 {
      var fields := Split(parts.1, '.');
      var result: seq<Identifier> := [];
      for i := 0 to |fields|
        invariant |result| == i && forall j | 0 <= j < i :: result[j] == ToIdentifier(fields[j])
        invariant forall j | 0 <= j < i :: StrictIdentifier(fields[j])
      {
        if AllDigits(fields[i]) {
          if |fields[i]| > 1 && fields[i][0] == '0' {
            return Failure("DEPENDENCY_VERSION_INVALID");
          }
          result := result + [Numeric(Value(fields[i]))];
        } else {
          result := result + [Alphanumeric(fields[i])];
        }
      }
      assert result == Identifiers(fields);
      identifiers := Some(result);
    }
    return Ok(Version(Values(Split(parts.0, '.')), identifiers));
  }

  /** (0, number) before (1, text), then by the second component. */
  function CompareIdentifiers(a: Identifier, b: Identifier): int {
    match (a, b)
    case (Numeric(m), Numeric(n)) => if m == n then 0 else if m < n then -1 else 1
    case (Numeric(_), Alphanumeric(_)) => -1
    case (Alphanumeric(_), Numeric(_)) => 1
    case (Alphanumeric(s), Alphanumeric(t)) => CompareStrings(s, t)
  }

  function CompareIdentifierTuples(a: seq<Identifier>, b: seq<Identifier>): int {
    if a == [] || b == [] then (if |a| == |b| then 0 else if a == [] then -1 else 1)
    else if a[0] != b[0] then CompareIdentifiers(a[0], b[0])
    else CompareIdentifierTuples(a[1..], b[1..])
  }

  function DependencyOrder(left: Version, right: Version): int {
    if left.core != right.core then (if CompareNumbers(left.core, right.core) < 0 then -1 else 1)
    else if left.prerelease == right.prerelease then 0
    else if left.prerelease.None? then 1
    else if right.prerelease.None? then -1
    else if CompareIdentifierTuples(left.prerelease.value, right.prerelease.value) < 0 then -1 else 1
  }

  // ---------------------------------------------------------------------
  // Each is section 11.
  // ---------------------------------------------------------------------

  /** What a comparator must return for versions a and b. */
  ghost predicate IsPrecedence(order: int, a: Version, b: Version) {
    (order < 0 <==> Precedes(a, b)) && (order == 0 <==> a == b) && (order > 0 <==> Precedes(b, a))
  }

  ghost predicate IsTextOrder(order: int, a: string, b: string) {
    (order < 0 <==> TextLess(a, b)) && (order == 0 <==> a == b) && (order > 0 <==> TextLess(b, a))
  }

  lemma {:induction false} CompareStringsIsTextOrder(a: string, b: string)
    ensures IsTextOrder(CompareStrings(a, b), a, b)
  {
    CharsOrdered();
    if a == "" || b == "" {
      LexEnds(CharLess, a, b);
      LexEnds(CharLess, b, a);
    } else {
      LexUnfold(CharLess, a, b);
      LexUnfold(CharLess, b, a);
      CompareStringsIsTextOrder(a[1..], b[1..]);
      assert a == [a[0]] + a[1..] && b == [b[0]] + b[1..];
    }
  }

  lemma CompareEqual(a: string, b: string)
    ensures CompareStrings(a, b) == 0 <==> a == b
  {
    CompareStringsIsTextOrder(a, b);
  }

  lemma {:induction false} CompareNumbersIsLexical(a: seq<nat>, b: seq<nat>)
    ensures CompareNumbers(a, b) < 0 <==> LexLess(NumberLess, a, b)
    ensures CompareNumbers(a, b) == 0 <==> a == b
    ensures CompareNumbers(a, b) > 0 <==> LexLess(NumberLess, b, a)
  {
    NumbersOrdered();
    if a == [] || b == [] {
      LexEnds(NumberLess, a, b);
      LexEnds(NumberLess, b, a);
    } else {
      LexUnfold(NumberLess, a, b);
      LexUnfold(NumberLess, b, a);
      CompareNumbersIsLexical(a[1..], b[1..]);
      assert a == [a[0]] + a[1..] && b == [b[0]] + b[1..];
    }
  }

  lemma NumberOrderLaws(x: seq<nat>, y: seq<nat>, z: seq<nat>)
    ensures CompareNumbers(x, y) < 0 <==> CompareNumbers(y, x) > 0
    ensures CompareNumbers(x, y) == 0 <==> x == y
    ensures CompareNumbers(x, y) < 0 && CompareNumbers(y, z) < 0 ==> CompareNumbers(x, z) < 0
  {
    NumbersOrdered();
    CompareNumbersIsLexical(x, y);
    CompareNumbersIsLexical(y, x);
    CompareNumbersIsLexical(y, z);
    CompareNumbersIsLexical(x, z);
    if LexLess(NumberLess, x, y) && LexLess(NumberLess, y, z) {
      LexTransitive(NumberLess, x, y, z);
    }
  }

  lemma {:induction false} TuplesAreLexical(a: seq<Identifier>, b: seq<Identifier>)
    ensures CompareIdentifierTuples(a, b) < 0 <==> LexLess(IdentifierLess, a, b)
    ensures CompareIdentifierTuples(a, b) == 0 <==> a == b
    ensures CompareIdentifierTuples(a, b) > 0 <==> LexLess(IdentifierLess, b, a)
  {
    IdentifiersOrdered();
    if a == [] || b == [] {
      LexEnds(IdentifierLess, a, b);
      LexEnds(IdentifierLess, b, a);
    } else {
      LexUnfold(IdentifierLess, a, b);
      LexUnfold(IdentifierLess, b, a);
      if a[0].Alphanumeric? && b[0].Alphanumeric? {
        CompareStringsIsTextOrder(a[0].text, b[0].text);
      }
      TuplesAreLexical(a[1..], b[1..]);
      assert a == [a[0]] + a[1..] && b == [b[0]] + b[1..];
    }
  }

  /** `compare_semver` is section 11 precedence, on all parsed versions. */
  lemma DependencyOrderIsPrecedence(left: Version, right: Version)
    ensures IsPrecedence(DependencyOrder(left, right), left, right)
  {
    PrecedenceTotal(left, right);
    CompareNumbersIsLexical(left.core, right.core);
    if left.prerelease.Some? && right.prerelease.Some? {
      TuplesAreLexical(left.prerelease.value, right.prerelease.value);
    }
  }
}
