/**
 What the two checks on relative paths accept: `safeRelative` of the installer
 (`internal/providersync/inputs.go`) looks at each part, `SafeContentPath` of the
 packages (`internal/model/content_validation.go`) cleans the whole.
*/
module PathChecks {
  import opened Semver
  import opened RelativePaths
  import opened CanonicalText
  import ProviderInputs
  import Content
  import Package

  // ---------------------------------------------------------------------
  // Texts: splitting at the first slash again and again is splitting at all.
  // ---------------------------------------------------------------------

  lemma {:induction false} SplitIsParts(text: string, separator: char)
    ensures Split(text, separator) == Parts(text, separator)
    decreases |text|
  {
    var i := Find(text, separator);
    if i == |text| {
      PartsPrefix(text, [], separator);
    } else {
      SplitIsParts(text[i + 1..], separator);
      PartsPrefix(text[..i], text[i + 1..], separator);
      assert text == text[..i] + [separator] + text[i + 1..];
    }
  }

  /**
   safeRelative accepts exactly the clean relative paths below where they start,
   of characters other than a backslash and NUL.
  */
  lemma SafeRelativeExactly(path: string)
    ensures ProviderInputs.SafeRelative(path) <==>
      && path != "" && path != "." && path != ".." && path[0] != '/' && !("../" <= path)
      && Clean(path, '/', '.') == path
      && forall i | 0 <= i < |path| :: path[i] != '\\' && path[i] != '\0'
  {
    SplitIsParts(path, '/');
    CleanExactly(path, '/', '.');
    FirstPart(path, '/', '.');
    var parts := Parts(path, '/');
    assert "." == ['.'] && ".." == ['.', '.'] && "../" == ['.', '.', '/'];
    if AllDownward(parts, '.') {
      forall part | part in parts ensures Downward(part, '.') {
      }
    }
    if ProviderInputs.SafeRelative(path) {
      forall i | 0 <= i < |parts| ensures Downward(parts[i], '.') {
        assert parts[i] in parts;
      }
    }
  }

  // ---------------------------------------------------------------------
  // Names of package members.
  // ---------------------------------------------------------------------

  lemma Sextets(w: nat, x: nat, y: nat, z: nat)
    requires x < 0x40 && y < 0x40 && z < 0x40
    ensures var c := w * 0x40000 + x * 0x1000 + y * 0x40 + z;
            && c % 0x40 == z && c / 0x40 == w * 0x1000 + x * 0x40 + y && c / 0x40 % 0x40 == y
            && c / 0x1000 == w * 0x40 + x && c / 0x1000 % 0x40 == x && c / 0x40000 == w
  {
    var c := w * 0x40000 + x * 0x1000 + y * 0x40 + z;
    assert c / 0x40 == w * 0x1000 + x * 0x40 + y;
    assert c / 0x40 / 0x40 == c / 0x1000 && c / 0x1000 / 0x40 == c / 0x40000;
  }

  /** The character whose encoding the bytes are. */
  lemma OfBytes(b: Package.Name) returns (c: CodePoint)
    requires OneCharacter(b)
    ensures !Surrogate(c) && Utf8(c) == b
  {
    if |b| == 1 {
      c := b[0];
    } else if |b| == 2 {
      Sextets(0, 0, b[0] as int - 0xC0, b[1] as int - 0x80);
      c := (b[0] as int - 0xC0) * 0x40 + (b[1] as int - 0x80);
    } else if |b| == 3 {
      Sextets(0, b[0] as int - 0xE0, b[1] as int - 0x80, b[2] as int - 0x80);
      c := (b[0] as int - 0xE0) * 0x1000 + (b[1] as int - 0x80) * 0x40 + (b[2] as int - 0x80);
    } else {
      Sextets(b[0] as int - 0xF0, b[1] as int - 0x80, b[2] as int - 0x80, b[3] as int - 0x80);
      c := (b[0] as int - 0xF0) * 0x40000 + (b[1] as int - 0x80) * 0x1000 + (b[2] as int - 0x80) * 0x40
           + (b[3] as int - 0x80);
    }
  }

  /** A valid text starts with one character. */
  lemma FirstBytes(s: Package.Name) returns (n: nat)
    requires s != [] && Package.Utf8Valid(s)
    ensures 0 < n <= |s| && OneCharacter(s[..n]) && Package.Utf8Valid(s[n..])
  {
    n := if s[0] < 0x80 then 1 else if s[0] < 0xE0 then 2 else if s[0] < 0xF0 then 3 else 4;
  }

  lemma {:induction false} Utf8Decodes(s: Package.Name) returns (text: Text)
    requires Package.Utf8Valid(s)
    ensures SurrogateFree(text) && Utf8All(text) == s
    decreases |s|
  {
    text := [];
    if s != [] {
      var n := FirstBytes(s);
      var c := OfBytes(s[..n]);
      var rest := Utf8Decodes(s[n..]);
      text := [c] + rest;
      assert text[1..] == rest && s == s[..n] + s[n..];
    }
  }

  /** Bytes of one character, by their ranges (section 4 of RFC 3629). */
  ghost predicate OneCharacter(b: seq<nat>) {
    || (|b| == 1 && b[0] < 0x80)
    || (|b| == 2 && 0xC2 <= b[0] < 0xE0 && 0x80 <= b[1] < 0xC0)
    || (|b| == 3 && 0xE0 <= b[0] < 0xF0 && 0x80 <= b[1] < 0xC0 && 0x80 <= b[2] < 0xC0
        && (b[0] == 0xE0 ==> b[1] >= 0xA0) && (b[0] == 0xED ==> b[1] < 0xA0))
    || (|b| == 4 && 0xF0 <= b[0] < 0xF5 && 0x80 <= b[1] < 0xC0 && 0x80 <= b[2] < 0xC0 && 0x80 <= b[3] < 0xC0
        && (b[0] == 0xF0 ==> b[1] >= 0x90) && (b[0] == 0xF4 ==> b[1] < 0x90))
  }

  lemma CharacterBytes(c: CodePoint)
    requires !Surrogate(c)
    ensures OneCharacter(Utf8(c))
  {
    if 0x800 <= c < 0x10000 {
      assert c / 0x40 / 0x40 == c / 0x1000;
    } else if c >= 0x10000 {
      assert c / 0x1000 / 0x40 == c / 0x40000;
    }
  }

  lemma FirstIsValid(b: Package.Name, rest: Package.Name)
    requires OneCharacter(b) && Package.Utf8Valid(rest)
    ensures Package.Utf8Valid(b + rest)
  {
    var s := b + rest;
    assert s[|b|..] == rest;
    assert forall i | 0 <= i < |b| :: s[i] == b[i];
  }

  lemma {:induction false} Utf8IsValid(text: Text)
    requires SurrogateFree(text)
    ensures forall i | 0 <= i < |Utf8All(text)| :: Utf8All(text)[i] < 256
    ensures Package.Utf8Valid(Utf8All(text))
  {
    if text != [] {
      assert text == [text[0]] + text[1..];
      SurrogateFreeAppend([text[0]], text[1..]);
      assert !Surrogate([text[0]][0]);
      Utf8IsValid(text[1..]);
      CharacterBytes(text[0]);
      FirstIsValid(Utf8(text[0]), Utf8All(text[1..]));
    }
  }

  /** A byte string is valid UTF-8 exactly when it encodes a text without surrogates. */
  lemma Utf8ValidExactly(s: Package.Name)
    ensures Package.Utf8Valid(s) <==> exists text :: SurrogateFree(text) && Utf8All(text) == s
  {
    if Package.Utf8Valid(s) {
      var text := Utf8Decodes(s);
    }
    forall text | SurrogateFree(text) && Utf8All(text) == s ensures Package.Utf8Valid(s) {
      Utf8IsValid(text);
    }
  }

  /**
   SafeContentPath accepts exactly the texts of 1 to 1024 bytes without control
   characters or backslashes whose parts between slashes each go down by a name.
  */
  lemma SafeContentPathExactly(s: Package.Name)
    ensures Package.SafeContentPath(s) <==>
      && 1 <= |s| <= 1024 && (exists text :: SurrogateFree(text) && Utf8All(text) == s)
      && (forall i | 0 <= i < |s| :: s[i] >= 0x20 && s[i] != 0x7F && s[i] != 0x5C)
      && forall i | 0 <= i < |Parts(s, 0x2F)| ::
           Parts(s, 0x2F)[i] != [] && Parts(s, 0x2F)[i] != [0x2E] && Parts(s, 0x2F)[i] != [0x2E, 0x2E]
  {
    hide Utf8All, Package.Utf8Valid;
    CleanExactly(s, Package.SLASH, Package.DOT);
    Utf8ValidExactly(s);
  }
}
