/** What the three comparators agree on, and where the installer's leaves section 11. */
module VersionLaws {
  import opened Semver
  import opened Wrappers
  import opened Versions

  // ---------------------------------------------------------------------
  // ParseUint.
  // ---------------------------------------------------------------------

  lemma {:induction false} ValueGrows(s: string, n: nat)
    ensures ValueAfter(s, n) >= n
    decreases |s|
  {
    if s != "" {
      ValueGrows(s[1..], 10 * n + (if IsDigit(s[0]) then DigitValue(s[0]) else 0));
    }
  }

  lemma {:induction false} ParseDigitsValue(s: string, n: nat)
    requires n <= MAXIMUM_UINT64
    requires forall i | 0 <= i < |s| :: IsDigit(s[i])
    ensures ParseDigits(s, n) == if ValueAfter(s, n) <= MAXIMUM_UINT64 then Parsed(true, ValueAfter(s, n))
                                 else Parsed(false, MAXIMUM_UINT64)
    decreases |s|
  {
    if s != "" {
      var m := 10 * n + DigitValue(s[0]);
      ValueGrows(s[1..], m);
      if m <= MAXIMUM_UINT64 {
        ParseDigitsValue(s[1..], m);
      }
    }
  }

  lemma {:induction false} ParseDigitsFails(s: string, n: nat)
    requires n <= MAXIMUM_UINT64 && exists i :: 0 <= i < |s| && !IsDigit(s[i])
    ensures !ParseDigits(s, n).ok
    decreases |s|
  {
    if IsDigit(s[0]) && 10 * n + DigitValue(s[0]) <= MAXIMUM_UINT64 {
      var i :| 0 <= i < |s| && !IsDigit(s[i]);
      assert s[1..][i - 1] == s[i];
      ParseDigitsFails(s[1..], 10 * n + DigitValue(s[0]));
    }
  }

  lemma ParseUintValue(s: string)
    ensures AllDigits(s) ==> ParseUint(s) == if Value(s) <= MAXIMUM_UINT64 then Parsed(true, Value(s))
                                             else Parsed(false, MAXIMUM_UINT64)
    ensures !AllDigits(s) ==> !ParseUint(s).ok
  {
    if AllDigits(s) {
      ParseDigitsValue(s, 0);
    } else if s != "" {
      ParseDigitsFails(s, 0);
    }
  }

  // ---------------------------------------------------------------------
  // On the versions the installer's own pattern admits, compareVersions is a
  // total preorder. Fields are ranked by keys; keys are strictly ordered.
  // ---------------------------------------------------------------------

  datatype Key = Key(group: nat, number: nat, text: string)

  ghost predicate KeyLess(a: Key, b: Key) {
    a.group < b.group
    || (a.group == b.group && a.number < b.number)
    || (a.group == b.group && a.number == b.number && TextLess(a.text, b.text))
  }

  lemma KeysOrdered()
    ensures StrictOrder(KeyLess)
  {
    CharsOrdered();
    forall a: string, b: string ensures TextLess(a, b) || a == b || TextLess(b, a)
                                ensures TextLess(a, b) ==> a != b && !TextLess(b, a) {
      LexTrichotomy(CharLess, a, b);
    }
    forall a: string, b: string, c: string | TextLess(a, b) && TextLess(b, c) ensures TextLess(a, c) {
      LexTransitive(CharLess, a, b, c);
    }
  }

  function FieldKey(s: string, numeric: bool): Key {
    var parsed := ParseUint(s);
    if numeric then Key(0, parsed.value, s)
    else if parsed.ok then Key(0, parsed.value, "")
    else Key(1, 0, s)
  }

  function Keys(fields: seq<string>, numeric: bool): (r: seq<Key>)
    ensures |r| == |fields| && forall i | 0 <= i < |fields| :: r[i] == FieldKey(fields[i], numeric)
  {
    seq(|fields|, i requires 0 <= i < |fields| => FieldKey(fields[i], numeric))
  }

  ghost predicate Rankable(fields: seq<string>, numeric: bool) {
    numeric ==> forall i | 0 <= i < |fields| :: CanonicalNumber(fields[i])
  }

  lemma FieldOrderIsKeyOrder(left: string, right: string, numeric: bool)
    requires numeric ==> CanonicalNumber(left) && CanonicalNumber(right)
    ensures FieldOrder(left, right, numeric) < 0 <==> KeyLess(FieldKey(left, numeric), FieldKey(right, numeric))
    ensures FieldOrder(left, right, numeric) > 0 <==> KeyLess(FieldKey(right, numeric), FieldKey(left, numeric))
    ensures FieldOrder(left, right, numeric) == 0 <==> FieldKey(left, numeric) == FieldKey(right, numeric)
  {
    CompareStringsIsTextOrder(left, right);
    CharsOrdered();
    LexTrichotomy(CharLess, left, right);
    LexTrichotomy(CharLess, "", "");
    if numeric {
      ParseUintValue(left);
      ParseUintValue(right);
      CanonicalUnique(left, right);
    }
  }

  lemma {:induction false} FieldsOrderIsLexical(left: seq<string>, right: seq<string>, numeric: bool)
    requires Rankable(left, numeric) && Rankable(right, numeric)
    ensures FieldsOrder(left, right, numeric) < 0 <==> LexLess(KeyLess, Keys(left, numeric), Keys(right, numeric))
    ensures FieldsOrder(left, right, numeric) > 0 <==> LexLess(KeyLess, Keys(right, numeric), Keys(left, numeric))
    ensures FieldsOrder(left, right, numeric) == 0 <==> Keys(left, numeric) == Keys(right, numeric)
    decreases |left|
  {
    hide LexLess, StrictOrder, FieldOrder, FieldKey, CanonicalNumber;
    KeysOrdered();
    var l, r := Keys(left, numeric), Keys(right, numeric);
    if left == [] || right == [] {
      LexEnds(KeyLess, l, r);
      LexEnds(KeyLess, r, l);
    } else {
      LexUnfold(KeyLess, l, r);
      LexUnfold(KeyLess, r, l);
      FieldOrderIsKeyOrder(left[0], right[0], numeric);
      assert l[1..] == Keys(left[1..], numeric) && r[1..] == Keys(right[1..], numeric);
      FieldsOrderIsLexical(left[1..], right[1..], numeric);
      assert l == [l[0]] + l[1..] && r == [r[0]] + r[1..];
    }
  }

  /** The versions `inputs.go` lets through: identifiers may be empty or have leading zeros. */
  predicate InstallerSemver(text: string) {
    CoreValid(text) && (Cut(text, '-').2 ==> Cut(text, '-').1 != "")
  }

  datatype Rank = Rank(core: seq<Key>, prerelease: Option<seq<Key>>)

  function RankOf(text: string): Rank {
    var parts := Cut(text, '-');
    Rank(Keys(Split(parts.0, '.'), true), if parts.2 then Some(Keys(Split(parts.1, '.'), false)) else None)
  }

  ghost predicate RankLess(a: Rank, b: Rank) {
    || LexLess(KeyLess, a.core, b.core)
    || (a.core == b.core && a.prerelease.Some? && b.prerelease.None?)
    || (a.core == b.core && a.prerelease.Some? && b.prerelease.Some?
        && LexLess(KeyLess, a.prerelease.value, b.prerelease.value))
  }

  lemma CompareVersionsRanks(left: string, right: string)
    requires InstallerSemver(left) && InstallerSemver(right)
    ensures CompareVersions(left, right) < 0 <==> RankLess(RankOf(left), RankOf(right))
    ensures CompareVersions(left, right) > 0 <==> RankLess(RankOf(right), RankOf(left))
    ensures CompareVersions(left, right) == 0 <==> RankOf(left) == RankOf(right)
  {
    var l, r := Cut(left, '-'), Cut(right, '-');
    KeysOrdered();
    FieldsOrderIsLexical(Split(l.0, '.'), Split(r.0, '.'), true);
    LexTrichotomy(KeyLess, RankOf(left).core, RankOf(right).core);
    if l.2 && r.2 {
      FieldsOrderIsLexical(Split(l.1, '.'), Split(r.1, '.'), false);
      LexTrichotomy(KeyLess, RankOf(left).prerelease.value, RankOf(right).prerelease.value);
    }
  }

  /** compareVersions is reflexive and its sign flips with its arguments. */
  lemma CompareVersionsSymmetry(a: string, b: string)
    requires InstallerSemver(a) && InstallerSemver(b)
    ensures CompareVersions(a, a) == 0
    ensures CompareVersions(a, b) < 0 <==> CompareVersions(b, a) > 0
    ensures CompareVersions(a, b) == 0 <==> CompareVersions(b, a) == 0
  {
    CompareVersionsRanks(a, a);
    CompareVersionsRanks(a, b);
    CompareVersionsRanks(b, a);
  }

  lemma RankTransitive(a: Rank, b: Rank, c: Rank)
    requires RankLess(a, b) && RankLess(b, c)
    ensures RankLess(a, c)
  {
    KeysOrdered();
    if LexLess(KeyLess, a.core, b.core) && LexLess(KeyLess, b.core, c.core) {
      LexTransitive(KeyLess, a.core, b.core, c.core);
    }
    if a.core == b.core == c.core && b.prerelease.Some? && c.prerelease.Some? {
      LexTransitive(KeyLess, a.prerelease.value, b.prerelease.value, c.prerelease.value);
    }
  }

  /** compareVersions is transitive, and equality of precedence is a congruence. */
  lemma CompareVersionsTransitive(a: string, b: string, c: string)
    requires InstallerSemver(a) && InstallerSemver(b) && InstallerSemver(c)
    requires CompareVersions(a, b) <= 0 && CompareVersions(b, c) <= 0
    ensures CompareVersions(a, c) <= 0
    ensures CompareVersions(a, c) == 0 ==> CompareVersions(a, b) == 0 && CompareVersions(b, c) == 0
  {
    CompareVersionsRanks(a, b);
    CompareVersionsRanks(b, c);
    CompareVersionsRanks(a, c);
    CompareVersionsSymmetry(a, b);
    CompareVersionsSymmetry(b, c);
    CompareVersionsSymmetry(a, c);
    if RankLess(RankOf(a), RankOf(b)) && RankLess(RankOf(b), RankOf(c)) {
      RankTransitive(RankOf(a), RankOf(b), RankOf(c));
    }
  }

  /** The pattern is needed for that: on other texts the order is not transitive. */
  lemma NotTransitiveOnAllTexts()
    ensures CompareVersions("0+", "00") < 0 && CompareVersions("00", "0") == 0 && CompareVersions("0+", "0") > 0
    ensures !InstallerSemver("0+") && !InstallerSemver("00") && !InstallerSemver("0")
  {
    assert Find("0+", '-') == 2 && Find("00", '-') == 2 && Find("0", '-') == 1;
    assert Split("0+", '.') == ["0+"] && Split("00", '.') == ["00"] && Split("0", '.') == ["0"];
    assert ParseUint("0+") == Parsed(false, 0) && ParseUint("00") == Parsed(true, 0) && ParseUint("0") == Parsed(true, 0);
    assert CompareStrings("0+", "00") == -1 && CompareStrings("0+", "0") == 1;
    assert FieldOrder("00", "0", true) == 0 && FieldsOrder([], [], true) == 0;
    assert FieldsOrder(["00"], ["0"], true) == 0;
  }

  // ---------------------------------------------------------------------
  // Section 11: met exactly when the first field that differs is ordered rightly.
  // ---------------------------------------------------------------------

  /** Text order puts the shorter of two numbers first, where their lengths differ. */
  predicate ShorterFirst(left: string, right: string) {
    |left| == |right| || (|left| < |right| <==> CompareStrings(left, right) < 0)
  }

  /** A number ParseUint refuses. */
  predicate Oversized(s: string) {
    AllDigits(s) && Value(s) > MAXIMUM_UINT64
  }

  /**
   One pair of fields on which compareFields is right. In the core both numbers
   have to reach the largest uint64 to be compared as text; in a prerelease a
   number that does not fit is taken for a word.
  */
  predicate FieldFits(left: string, right: string, numeric: bool) {
    if numeric then Value(left) < MAXIMUM_UINT64 || Value(right) < MAXIMUM_UINT64 || ShorterFirst(left, right)
    else
      && (Oversized(left) && Oversized(right) ==> ShorterFirst(left, right))
      && (Oversized(left) && !AllDigits(right) ==> CompareStrings(left, right) < 0)
      && (!AllDigits(left) && Oversized(right) ==> CompareStrings(right, left) < 0)
  }

  /** The first pair of different fields is one of those, or there is none. */
  predicate FieldsFit(left: seq<string>, right: seq<string>, numeric: bool) {
    || left == [] || right == []
    || (if left[0] == right[0] then FieldsFit(left[1..], right[1..], numeric) else FieldFits(left[0], right[0], numeric))
  }

  predicate VersionsFit(left: string, right: string) {
    var l, r := Cut(left, '-'), Cut(right, '-');
    var a, b := Split(l.0, '.'), Split(r.0, '.');
    if a != b then FieldsFit(a, b, true)
    else l.2 && r.2 ==> FieldsFit(Split(l.1, '.'), Split(r.1, '.'), false)
  }

  ghost predicate SameSign(order: int, less: bool, more: bool) {
    (order < 0 <==> less) && (order > 0 <==> more)
  }

  /** Longer is larger, and at one length text order is number order. */
  lemma TextOrderOfNumbers(left: string, right: string)
    requires CanonicalNumber(left) && CanonicalNumber(right)
    ensures SameSign(CompareStrings(left, right), Value(left) < Value(right), Value(right) < Value(left))
       <==> ShorterFirst(left, right)
    ensures CompareStrings(left, right) == 0 <==> Value(left) == Value(right)
  {
    CanonicalUnique(left, right);
    CompareStringsIsTextOrder(left, right);
    CharsOrdered();
    LexTrichotomy(CharLess, left, right);
    if |left| < |right| {
      LongerIsLarger(left, right);
    } else if |right| < |left| {
      LongerIsLarger(right, left);
    } else {
      SameLengthOrder(left, right);
      SameLengthOrder(right, left);
    }
  }

  lemma CoreFieldExactly(left: string, right: string)
    requires CanonicalNumber(left) && CanonicalNumber(right)
    ensures SameSign(FieldOrder(left, right, true), Value(left) < Value(right), Value(right) < Value(left))
       <==> FieldFits(left, right, true)
    ensures FieldOrder(left, right, true) == 0 <==> left == right
  {
    hide CompareStrings, ParseUint, Value;
    ParseUintValue(left);
    ParseUintValue(right);
    CanonicalUnique(left, right);
    TextOrderOfNumbers(left, right);
  }

  lemma PrereleaseFieldExactly(left: string, right: string)
    requires StrictIdentifier(left) && StrictIdentifier(right)
    ensures SameSign(FieldOrder(left, right, false), IdentifierLess(ToIdentifier(left), ToIdentifier(right)),
                     IdentifierLess(ToIdentifier(right), ToIdentifier(left)))
       <==> FieldFits(left, right, false)
    ensures FieldOrder(left, right, false) == 0 <==> left == right
  {
    hide CompareStrings, ParseUint, Value;
    ParseUintValue(left);
    ParseUintValue(right);
    CompareStringsIsTextOrder(left, right);
    CompareStringsIsTextOrder(right, left);
    CharsOrdered();
    LexTrichotomy(CharLess, left, right);
    if AllDigits(left) && AllDigits(right) {
      CanonicalUnique(left, right);
      TextOrderOfNumbers(left, right);
    }
  }

  lemma {:induction false} CoreFieldsExactly(left: seq<string>, right: seq<string>)
    requires forall i | 0 <= i < |left| :: CanonicalNumber(left[i])
    requires forall i | 0 <= i < |right| :: CanonicalNumber(right[i])
    ensures SameSign(FieldsOrder(left, right, true), LexLess(NumberLess, Values(left), Values(right)),
                     LexLess(NumberLess, Values(right), Values(left)))
       <==> FieldsFit(left, right, true)
    ensures FieldsOrder(left, right, true) == 0 <==> left == right
    ensures Values(left) == Values(right) <==> left == right
    decreases |left|
  {
    hide FieldOrder, FieldFits, LexLess, Value, CanonicalNumber;
    NumbersOrdered();
    var l, r := Values(left), Values(right);
    if left == [] || right == [] {
      LexEnds(NumberLess, l, r);
      LexEnds(NumberLess, r, l);
    } else {
      LexUnfold(NumberLess, l, r);
      LexUnfold(NumberLess, r, l);
      CoreFieldExactly(left[0], right[0]);
      CanonicalUnique(left[0], right[0]);
      assert l[1..] == Values(left[1..]) && r[1..] == Values(right[1..]);
      CoreFieldsExactly(left[1..], right[1..]);
      assert left == [left[0]] + left[1..] && right == [right[0]] + right[1..];
    }
  }

  lemma IdentifierUnique(left: string, right: string)
    requires StrictIdentifier(left) && StrictIdentifier(right)
    ensures ToIdentifier(left) == ToIdentifier(right) <==> left == right
    ensures left != right ==>
      IdentifierLess(ToIdentifier(left), ToIdentifier(right)) || IdentifierLess(ToIdentifier(right), ToIdentifier(left))
  {
    hide Value;
    IdentifiersOrdered();
    if AllDigits(left) && AllDigits(right) {
      CanonicalUnique(left, right);
    }
  }

  lemma {:induction false} PrereleaseFieldsExactly(left: seq<string>, right: seq<string>)
    requires forall i | 0 <= i < |left| :: StrictIdentifier(left[i])
    requires forall i | 0 <= i < |right| :: StrictIdentifier(right[i])
    ensures SameSign(FieldsOrder(left, right, false), LexLess(IdentifierLess, Identifiers(left), Identifiers(right)),
                     LexLess(IdentifierLess, Identifiers(right), Identifiers(left)))
       <==> FieldsFit(left, right, false)
    ensures FieldsOrder(left, right, false) == 0 <==> left == right
    ensures Identifiers(left) == Identifiers(right) <==> left == right
    decreases |left|
  {
    hide FieldOrder, FieldFits, LexLess, ToIdentifier, StrictIdentifier;
    IdentifiersOrdered();
    var l, r := Identifiers(left), Identifiers(right);
    if left == [] || right == [] {
      LexEnds(IdentifierLess, l, r);
      LexEnds(IdentifierLess, r, l);
    } else {
      LexUnfold(IdentifierLess, l, r);
      LexUnfold(IdentifierLess, r, l);
      PrereleaseFieldExactly(left[0], right[0]);
      IdentifierUnique(left[0], right[0]);
      assert l[1..] == Identifiers(left[1..]) && r[1..] == Identifiers(right[1..]);
      PrereleaseFieldsExactly(left[1..], right[1..]);
      assert left == [left[0]] + left[1..] && right == [right[0]] + right[1..];
    }
  }

  /** A strict version has text after its hyphen. */
  lemma PrereleaseNotEmpty(text: string)
    requires StrictSemver(text)
    ensures Cut(text, '-').2 <==> Cut(text, '-').1 != ""
  {
    assert Split("", '.') == [""];
    if Cut(text, '-').2 {
      assert StrictIdentifier(Split(Cut(text, '-').1, '.')[0]);
    }
  }

  function Rejoin(fields: seq<string>, separator: char): string {
    if fields == [] then "" else if |fields| == 1 then fields[0] else fields[0] + [separator] + Rejoin(fields[1..], separator)
  }

  lemma {:induction false} SplitRejoins(text: string, separator: char)
    ensures Rejoin(Split(text, separator), separator) == text
    decreases |text|
  {
    var i := Find(text, separator);
    if i < |text| {
      var rest := Split(text[i + 1..], separator);
      SplitRejoins(text[i + 1..], separator);
      assert ([text[..i]] + rest)[1..] == rest;
    }
  }

  lemma SplitUnique(a: string, b: string, separator: char)
    ensures Split(a, separator) == Split(b, separator) <==> a == b
  {
    SplitRejoins(a, separator);
    SplitRejoins(b, separator);
  }

  /**
   On strict versions compareVersions is section 11 precedence exactly when it is
   right on the first field that differs.
  */
  lemma CompareVersionsExactly(left: string, right: string)
    requires StrictSemver(left) && StrictSemver(right)
    ensures IsPrecedence(CompareVersions(left, right), Meaning(left), Meaning(right)) <==> VersionsFit(left, right)
  {
    hide FieldsOrder, FieldsFit, Values, Identifiers, StrictIdentifier, CanonicalNumber, LexLess;
    var l, r := Cut(left, '-'), Cut(right, '-');
    var a, b := Meaning(left), Meaning(right);
    PrecedenceTotal(a, b);
    PrereleaseNotEmpty(left);
    PrereleaseNotEmpty(right);
    NumbersOrdered();
    LexTrichotomy(NumberLess, a.core, b.core);
    LexTrichotomy(NumberLess, a.core, a.core);
    CoreFieldsExactly(Split(l.0, '.'), Split(r.0, '.'));
    if l.2 && r.2 {
      IdentifiersOrdered();
      LexTrichotomy(IdentifierLess, a.prerelease.value, b.prerelease.value);
      PrereleaseFieldsExactly(Split(l.1, '.'), Split(r.1, '.'));
      SplitUnique(l.1, r.1, '.');
    }
  }

  // ---------------------------------------------------------------------
  // In particular for numbers below 2^64.
  // ---------------------------------------------------------------------

  predicate SmallField(s: string) {
    AllDigits(s) ==> Value(s) <= MAXIMUM_UINT64
  }

  predicate SmallNumbers(text: string) {
    var parts := Cut(text, '-');
    && (forall i | 0 <= i < |Split(parts.0, '.')| :: SmallField(Split(parts.0, '.')[i]))
    && (parts.2 ==> forall i | 0 <= i < |Split(parts.1, '.')| :: SmallField(Split(parts.1, '.')[i]))
  }

  lemma {:induction false} SmallFieldsFit(left: seq<string>, right: seq<string>, numeric: bool)
    requires forall i | 0 <= i < |left| :: SmallField(left[i]) && (numeric ==> CanonicalNumber(left[i]))
    requires forall i | 0 <= i < |right| :: SmallField(right[i]) && (numeric ==> CanonicalNumber(right[i]))
    ensures FieldsFit(left, right, numeric)
    decreases |left|
  {
    hide Value;
    if left != [] && right != [] {
      if left[0] == right[0] {
        SmallFieldsFit(left[1..], right[1..], numeric);
      } else if numeric {
        CanonicalUnique(left[0], right[0]);
      }
    }
  }

  /** compareVersions is section 11 precedence on strict versions with numbers below 2^64. */
  lemma CompareVersionsIsPrecedence(left: string, right: string)
    requires StrictSemver(left) && StrictSemver(right) && SmallNumbers(left) && SmallNumbers(right)
    ensures IsPrecedence(CompareVersions(left, right), Meaning(left), Meaning(right))
  {
    var l, r := Cut(left, '-'), Cut(right, '-');
    SmallFieldsFit(Split(l.0, '.'), Split(r.0, '.'), true);
    if l.2 && r.2 {
      SmallFieldsFit(Split(l.1, '.'), Split(r.1, '.'), false);
    }
    CompareVersionsExactly(left, right);
  }

  // ---------------------------------------------------------------------
  // `_compare_semver` has no such bound.
  // ---------------------------------------------------------------------

  lemma PartOrder(left: string, right: string)
    requires StrictIdentifier(left) && StrictIdentifier(right)
    ensures ProviderPartOrder(left, right) < 0 <==> IdentifierLess(ToIdentifier(left), ToIdentifier(right))
    ensures ProviderPartOrder(left, right) > 0 <==> IdentifierLess(ToIdentifier(right), ToIdentifier(left))
  {
    CompareStringsIsTextOrder(left, right);
    CharsOrdered();
    LexTrichotomy(CharLess, left, right);
    if AllDigits(left) && AllDigits(right) {
      CanonicalUnique(left, right);
    }
  }

  lemma {:induction false} PartsOrder(left: seq<string>, right: seq<string>)
    requires forall i | 0 <= i < |left| :: StrictIdentifier(left[i])
    requires forall i | 0 <= i < |right| :: StrictIdentifier(right[i])
    ensures ProviderPartsOrder(left, right) < 0 <==> LexLess(IdentifierLess, Identifiers(left), Identifiers(right))
    ensures ProviderPartsOrder(left, right) > 0 <==> LexLess(IdentifierLess, Identifiers(right), Identifiers(left))
    decreases |left|
  {
    IdentifiersOrdered();
    var l, r := Identifiers(left), Identifiers(right);
    if left == [] || right == [] {
      LexEnds(IdentifierLess, l, r);
      LexEnds(IdentifierLess, r, l);
    } else {
      LexUnfold(IdentifierLess, l, r);
      LexUnfold(IdentifierLess, r, l);
      PartOrder(left[0], right[0]);
      assert l[1..] == Identifiers(left[1..]) && r[1..] == Identifiers(right[1..]);
      PartsOrder(left[1..], right[1..]);
    }
  }

  lemma ProviderOrderIsPrecedence(left: string, right: string)
    requires StrictSemver(left) && StrictSemver(right)
    ensures IsPrecedence(ProviderOrder(left, right), Meaning(left), Meaning(right))
  {
    var l, r := Cut(left, '-'), Cut(right, '-');
    var a, b := Meaning(left), Meaning(right);
    PrecedenceTotal(a, b);
    CompareNumbersIsLexical(a.core, b.core);
    if l.2 && r.2 {
      IdentifiersOrdered();
      LexTrichotomy(IdentifierLess, a.prerelease.value, b.prerelease.value);
      PartsOrder(Split(l.1, '.'), Split(r.1, '.'));
    }
  }

  /** All three comparators give the same answer. */
  lemma ComparatorsAgree(left: string, right: string)
    requires StrictSemver(left) && StrictSemver(right)
    ensures ProviderOrder(left, right) < 0 <==> DependencyOrder(Meaning(left), Meaning(right)) < 0
    ensures ProviderOrder(left, right) == 0 <==> DependencyOrder(Meaning(left), Meaning(right)) == 0
    ensures SmallNumbers(left) && SmallNumbers(right) ==>
              (CompareVersions(left, right) < 0 <==> ProviderOrder(left, right) < 0) &&
              (CompareVersions(left, right) == 0 <==> ProviderOrder(left, right) == 0)
  {
    ProviderOrderIsPrecedence(left, right);
    DependencyOrderIsPrecedence(Meaning(left), Meaning(right));
    if SmallNumbers(left) && SmallNumbers(right) {
      CompareVersionsIsPrecedence(left, right);
    }
  }

  // ---------------------------------------------------------------------
  // From 2^64 on the digits are compared as text, and with words.
  // ---------------------------------------------------------------------

  const LARGE := "20000000000000000000"
  const LARGER := "100000000000000000000"

  lemma {:induction false} PowerAdd(m: nat, n: nat)
    ensures Power(m + n) == Power(m) * Power(n)
  {
    if m > 0 {
      PowerAdd(m - 1, n);
      assert 10 * (Power(m - 1) * Power(n)) == (10 * Power(m - 1)) * Power(n);
    }
  }

  lemma PowerNineteen()
    ensures Power(19) == 10_000_000_000_000_000_000
  {
    assert Power(1) == 10 && Power(2) == 100 && Power(3) == 1000;
    PowerAdd(2, 2);
    PowerAdd(4, 4);
    PowerAdd(8, 8);
    PowerAdd(16, 3);
  }

  lemma AboveUint64(s: string)
    requires CanonicalNumber(s) && |s| == 20 && s[0] == '2'
    ensures Value(s) > MAXIMUM_UINT64
  {
    LeadingDigit(s);
    PowerNineteen();
  }

  lemma FirstDiffers(a: string, b: string)
    requires a != "" && b != "" && a[0] < b[0]
    ensures CompareStrings(a, b) < 0 && CompareStrings(b, a) > 0
  {
  }

  lemma LargeTexts()
    ensures CanonicalNumber(LARGE) && |LARGE| == 20 && LARGE[0] == '2'
    ensures CanonicalNumber(LARGER) && |LARGER| == 21 && LARGER[0] == '1'
  {
  }

  lemma {:induction false} SplitFirst(field: string, rest: string, separator: char)
    requires separator !in field
    ensures Find(field + [separator] + rest, separator) == |field|
    ensures Split(field + [separator] + rest, separator) == [field] + Split(rest, separator)
  {
    var text := field + [separator] + rest;
    assert text[|field|] == separator;
    assert forall i | 0 <= i < |field| :: text[i] == field[i];
    assert text[..|field|] == field && text[|field| + 1..] == rest;
  }

  lemma SplitWhole(field: string, separator: char)
    requires separator !in field
    ensures Find(field, separator) == |field| && Split(field, separator) == [field]
  {
  }

  /** `number`.0.0 */
  lemma CoreText(number: string)
    requires CanonicalNumber(number)
    ensures var text := number + ".0.0"; Cut(text, '-') == (text, "", false) && Split(text, '.') == [number, "0", "0"]
    ensures StrictSemver(number + ".0.0")
  {
    var text := number + ".0.0";
    assert '-' !in number && '.' !in number by {
      assert forall i | 0 <= i < |number| :: IsDigit(number[i]);
    }
    assert text == number + ['.'] + "0.0" && "0.0" == "0" + ['.'] + "0";
    SplitWhole(text, '-');
    SplitWhole("0", '.');
    SplitFirst("0", "0", '.');
    SplitFirst(number, "0.0", '.');
  }

  /** 1.0.0-`identifier` */
  lemma PrereleaseText(identifier: string)
    requires StrictIdentifier(identifier)
    ensures var text := "1.0.0-" + identifier;
            && Cut(text, '-') == ("1.0.0", identifier, true) && Split("1.0.0", '.') == ["1", "0", "0"]
            && Split(identifier, '.') == [identifier] && StrictSemver(text)
  {
    hide Find, Split, Value;
    var text := "1.0.0-" + identifier;
    assert '.' !in identifier by {
      assert forall i | 0 <= i < |identifier| :: IdentifierChar(identifier[i]);
    }
    CoreText("1");
    assert "1.0.0" == "1" + ".0.0" && text == "1.0.0" + ['-'] + identifier;
    SplitFirst("1.0.0", identifier, '-');
    SplitWhole(identifier, '.');
    assert text[..5] == "1.0.0" && text[6..] == identifier;
  }

  /** 2 * 10^19 is below 10^20, and the installer puts it after it, in the core and in a prerelease. */
  lemma LargeNumbersMisordered()
    ensures var a, b := LARGE + ".0.0", LARGER + ".0.0";
            && StrictSemver(a) && StrictSemver(b)
            && Precedes(Meaning(a), Meaning(b)) && CompareVersions(a, b) > 0
    ensures var a, b := "1.0.0-" + LARGE, "1.0.0-" + LARGER;
            && StrictSemver(a) && StrictSemver(b)
            && Precedes(Meaning(a), Meaning(b)) && CompareVersions(a, b) > 0
  {
    LargeTexts();
    MisorderedCore(LARGE, LARGER);
    MisorderedPrerelease(LARGE, LARGER);
  }

  /** A number comes before a word, and the installer puts 2 * 10^19 after `0a`. */
  lemma LargeNumberAfterWord()
    ensures var a, b := "1.0.0-" + LARGE, "1.0.0-0a";
            && StrictSemver(a) && StrictSemver(b)
            && Precedes(Meaning(a), Meaning(b)) && CompareVersions(a, b) > 0
  {
    LargeTexts();
    assert "1.0.0-0a" == "1.0.0-" + "0a";
    assert StrictIdentifier("0a") && !AllDigits("0a") by {
      assert !IsDigit("0a"[1]);
    }
    AfterWord(LARGE, "0a");
  }

  lemma FirstFieldDecides(x: string, y: string)
    requires CanonicalNumber(x) && CanonicalNumber(y) && FieldOrder(x, y, true) > 0
    ensures CompareVersions(x + ".0.0", y + ".0.0") > 0
  {
    hide Split, Find, FieldOrder, StrictSemver, CanonicalNumber;
    CoreText(x);
    CoreText(y);
  }

  lemma MisorderedCore(large: string, larger: string)
    requires CanonicalNumber(large) && |large| == 20 && large[0] == '2'
    requires CanonicalNumber(larger) && |larger| == 21 && larger[0] == '1'
    ensures var a, b := large + ".0.0", larger + ".0.0";
            && StrictSemver(a) && StrictSemver(b)
            && Precedes(Meaning(a), Meaning(b)) && CompareVersions(a, b) > 0
  {
    hide Value, Split, Find, CompareStrings, ParseUint, StrictSemver;
    CoreText(large);
    CoreText(larger);
    LongerIsLarger(large, larger);
    AboveUint64(large);
    ParseUintValue(large);
    ParseUintValue(larger);
    FirstDiffers(larger, large);
    var a, b := Meaning(large + ".0.0"), Meaning(larger + ".0.0");
    assert LessAt(NumberLess, a.core, b.core, 0);
    FirstFieldDecides(large, larger);
  }

  lemma MisorderedPrerelease(large: string, larger: string)
    requires CanonicalNumber(large) && |large| == 20 && large[0] == '2'
    requires CanonicalNumber(larger) && |larger| == 21 && larger[0] == '1'
    ensures var a, b := "1.0.0-" + large, "1.0.0-" + larger;
            && StrictSemver(a) && StrictSemver(b)
            && Precedes(Meaning(a), Meaning(b)) && CompareVersions(a, b) > 0
  {
    hide Value, CompareStrings, ParseUint;
    LongerIsLarger(large, larger);
    AboveUint64(large);
    ParseUintValue(large);
    ParseUintValue(larger);
    FirstDiffers(larger, large);
    assert FieldOrder(large, larger, false) > 0;
    OneIdentifier(large, larger);
  }

  lemma AfterWord(large: string, word: string)
    requires CanonicalNumber(large) && |large| == 20 && large[0] == '2'
    requires StrictIdentifier(word) && !AllDigits(word) && word[0] < '2'
    ensures var a, b := "1.0.0-" + large, "1.0.0-" + word;
            && StrictSemver(a) && StrictSemver(b)
            && Precedes(Meaning(a), Meaning(b)) && CompareVersions(a, b) > 0
  {
    hide Value, CompareStrings, ParseUint;
    AboveUint64(large);
    ParseUintValue(large);
    ParseUintValue(word);
    FirstDiffers(word, large);
    assert FieldOrder(large, word, false) > 0;
    OneIdentifier(large, word);
  }

  lemma OneIdentifier(x: string, y: string)
    requires StrictIdentifier(x) && StrictIdentifier(y) && FieldOrder(x, y, false) > 0
    requires IdentifierLess(ToIdentifier(x), ToIdentifier(y))
    ensures var a, b := "1.0.0-" + x, "1.0.0-" + y;
            && StrictSemver(a) && StrictSemver(b)
            && Precedes(Meaning(a), Meaning(b)) && CompareVersions(a, b) > 0
  {
    hide Split, Find, FieldOrder, StrictSemver, ToIdentifier, IdentifierLess;
    PrereleaseText(x);
    PrereleaseText(y);
    IdentifiersOrdered();
    var a, b := Meaning("1.0.0-" + x), Meaning("1.0.0-" + y);
    assert LessAt(IdentifierLess, a.prerelease.value, b.prerelease.value, 0);
    FieldsEqual(["1", "0", "0"]);
    assert x != "" && y != "" && x != y;
    assert FieldsOrder([x], [y], false) > 0;
  }

  lemma {:induction false} FieldsEqual(fields: seq<string>)
    ensures FieldsOrder(fields, fields, true) == 0
  {
    if fields != [] {
      FieldsEqual(fields[1..]);
    }
  }

  // ---------------------------------------------------------------------
  // parse_versions: adjacent checks order the whole list.
  // ---------------------------------------------------------------------

  /** The ASCII characters str.strip removes. */
  predicate IsSpace(c: char) {
    c == ' ' || '\t' <= c <= '\r' || '\U{1C}' <= c <= '\U{1F}'
  }

  predicate Stripped(value: string) {
    value != "" && !IsSpace(value[0]) && !IsSpace(value[|value| - 1])
  }

  ghost predicate Increasing(versions: seq<string>) {
    forall i, j | 0 <= i < j < |versions| :: Precedes(Meaning(versions[i]), Meaning(versions[j]))
  }

  lemma FirstOfSplit(text: string, separator: char)
    ensures Split(text, separator)[0] != "" ==> text != "" && text[0] == Split(text, separator)[0][0]
  {
  }

  lemma {:induction false} LastOfSplit(text: string, separator: char)
    ensures var last := Split(text, separator)[|Split(text, separator)| - 1];
            last != "" ==> text != "" && text[|text| - 1] == last[|last| - 1]
    decreases |text|
  {
    var i := Find(text, separator);
    if i < |text| {
      LastOfSplit(text[i + 1..], separator);
      var rest := Split(text[i + 1..], separator);
      assert Split(text, separator)[|rest|] == rest[|rest| - 1];
    }
  }

  /** A strict version starts and ends with a character no strip removes. */
  lemma StrictIsStripped(text: string)
    requires StrictSemver(text)
    ensures Stripped(text)
  {
    var parts := Cut(text, '-');
    var core := Split(parts.0, '.');
    assert CanonicalNumber(core[0]) && CanonicalNumber(core[2]);
    LastOfSplit(parts.0, '.');
    if parts.2 {
      var rest := Split(parts.1, '.');
      assert StrictIdentifier(rest[|rest| - 1]);
      LastOfSplit(parts.1, '.');
    }
    FirstOfSplit(parts.0, '.');
    assert text[0] == parts.0[0];
  }

  lemma {:induction false} AdjacentIsPairwise(versions: seq<string>, i: nat, j: nat)
    requires i < j < |versions|
    requires forall k | 0 < k < |versions| :: Precedes(Meaning(versions[k - 1]), Meaning(versions[k]))
    ensures Precedes(Meaning(versions[i]), Meaning(versions[j]))
    decreases j
  {
    if i < j - 1 {
      AdjacentIsPairwise(versions, i, j - 1);
      PrecedenceTransitive(Meaning(versions[i]), Meaning(versions[j - 1]), Meaning(versions[j]));
    }
  }

  /** Strict versions in strictly increasing precedence. */
  ghost predicate Acceptable(versions: seq<string>) {
    (forall i | 0 <= i < |versions| :: StrictSemver(versions[i])) && Increasing(versions)
  }

  /** None of the earlier checks refuses an acceptable list. */
  lemma AcceptablePasses(raw: string)
    requires Acceptable(Split(raw, ','))
    ensures raw != ""
    ensures forall i | 0 <= i < |Split(raw, ',')| :: Stripped(Split(raw, ',')[i])
    ensures |(set v | v in Split(raw, ','))| == |Split(raw, ',')|
  {
    hide StrictSemver, Stripped;
    var versions := Split(raw, ',');
    forall i | 0 <= i < |versions| ensures Stripped(versions[i]) {
      StrictIsStripped(versions[i]);
    }
    IncreasingIsDistinct(versions);
    NotEmptyText(raw);
  }

  lemma NotEmptyText(raw: string)
    requires Stripped(Split(raw, ',')[0])
    ensures raw != ""
  {
    FirstOfSplit(raw, ',');
  }

  /** It accepts exactly the acceptable lists. */
  method ParseVersions(raw: string) returns (result: Result<seq<string>>)
    ensures result.Ok? <==> Acceptable(Split(raw, ','))
    ensures result.Ok? ==> result.value == Split(raw, ',')
  {
    hide StrictSemver, Stripped, Precedes, Meaning, DependencyOrder;
    var versions := Split(raw, ',');
    if Acceptable(versions) {
      AcceptablePasses(raw);
    }
    if raw == "" || exists i | 0 <= i < |versions| :: !Stripped(versions[i]) {
      return Failure("DEPENDENCY_VERSION_LIST_INVALID");
    }
    if |(set v | v in versions)| != |versions| {
      return Failure("DEPENDENCY_VERSION_LIST_DUPLICATE");
    }
    var parsed: seq<Version> := [];
    for i := 0 to |versions|
      invariant |parsed| == i
      invariant forall j | 0 <= j < i :: StrictSemver(versions[j]) && parsed[j] == Meaning(versions[j])
    {
      var one := ParseSemver(versions[i]);
      if one.Failure? {
        return Failure(one.code);
      }
      parsed := parsed + [one.value];
    }
    for index := 1 to |versions|
      invariant forall k | 0 < k < index :: Precedes(Meaning(versions[k - 1]), Meaning(versions[k]))
    {
      PairOrder(parsed[index - 1], parsed[index]);
      if DependencyOrder(parsed[index - 1], parsed[index]) >= 0 {
        return Failure("DEPENDENCY_VERSION_LIST_NOT_SORTED");
      }
    }
    forall i, j | 0 <= i < j < |versions| ensures Precedes(Meaning(versions[i]), Meaning(versions[j])) {
      AdjacentIsPairwise(versions, i, j);
    }
    return Ok(versions);
  }

  lemma PairOrder(a: Version, b: Version)
    ensures DependencyOrder(a, b) < 0 <==> Precedes(a, b)
  {
    DependencyOrderIsPrecedence(a, b);
  }

  lemma {:induction false} DistinctSize(versions: seq<string>)
    requires forall i, j | 0 <= i < j < |versions| :: versions[i] != versions[j]
    ensures |(set v | v in versions)| == |versions|
    decreases |versions|
  {
    if versions == [] {
      assert (set v | v in versions) == {};
    } else {
      var n := |versions| - 1;
      var before := versions[..n];
      DistinctSize(before);
      assert (set v | v in versions) == (set v | v in before) + {versions[n]};
      assert versions[n] !in before;
    }
  }

  lemma IncreasingIsDistinct(versions: seq<string>)
    requires Increasing(versions)
    ensures |(set v | v in versions)| == |versions|
  {
    forall i, j | 0 <= i < j < |versions| ensures versions[i] != versions[j] {
      PrecedenceTotal(Meaning(versions[i]), Meaning(versions[j]));
    }
    DistinctSize(versions);
  }
}
