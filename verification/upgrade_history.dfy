/**
 Production synchronizations of one root with any pins, each cut off anywhere:
 what the no-downgrade rule (`internal/providersync/sync.go:356-387`) makes of
 the versions written to active.json.
*/
module UpgradeHistory {
  import opened Semver
  import opened Versions
  import opened VersionLaws
  import opened ProviderInputs
  import opened Bundles
  import opened Moves
  import opened InstallInvariants
  import opened InstallTraces
  import opened InstallHistory

  /** Every step is one of a production run on this root. */
  ghost predicate Production(steps: seq<Step>, root: string) {
    forall i | 0 <= i < |steps| :: steps[i].c.root == root && steps[i].c.production && PinValid(steps[i].c.pin)
  }

  predicate Lists(inputs: Inputs, id: string) {
    exists record :: record in inputs.providers && record.providerId == id
  }

  /** No step leaves the Provider out of its pin. */
  ghost predicate AlwaysListed(steps: seq<Step>, id: string) {
    forall i | 0 <= i < |steps| :: Lists(steps[i].c.pin.inputs, id)
  }

  /** Each Provider at most once, with a version the pattern admits. */
  ghost predicate EntriesValid(entries: seq<ActiveProvider>) {
    && (forall e | e in entries :: InstallerSemver(e.providerVersion))
    && (forall a, b | a in entries && b in entries && a.providerId == b.providerId :: a == b)
  }

  ghost predicate Installs(files: Files, root: string, entry: ActiveProvider) {
    entry in ActiveEntries(files, root)
  }

  /** The newer of two entries has at least the precedence of the older, and at the same precedence the same bundle. */
  ghost predicate Upgrades(older: ActiveProvider, newer: ActiveProvider) {
    && CompareVersions(newer.providerVersion, older.providerVersion) >= 0
    && (CompareVersions(newer.providerVersion, older.providerVersion) == 0 ==> newer.bundleSha256 == older.bundleSha256)
  }

  lemma ActiveAfter(c: Context, a: Files, move: Move)
    requires Allowed(c, a, move)
    ensures !move.WriteActive? ==> ActiveEntries(Effect(c, a, move), c.root) == ActiveEntries(a, c.root)
    ensures move.WriteActive? ==>
      ActiveEntries(Effect(c, a, move), c.root) == SortEntries(EntriesOf(c.pin.inputs.providers))
  {
    hide Exact, Linked, VersionsAllow, Pinned, Describe, ChunkDamaged, MarkerAt, MarkerFor, EntryOf, SortEntries;
    PathsDiffer();
    if move.Cleanup? {
      CleanupSpares(c, a, move.path);
    }
  }

  lemma WrittenEntry(pin: Pin, entry: ActiveProvider) returns (record: ProviderRecord)
    requires PinValid(pin) && entry in SortEntries(EntriesOf(pin.inputs.providers))
    ensures record in pin.inputs.providers && entry == EntryOf(record) && RecordValid(record)
  {
    hide SortEntries, EntryOf;
    SortedMember(EntriesOf(pin.inputs.providers), entry);
    var i :| 0 <= i < |pin.inputs.providers| && EntriesOf(pin.inputs.providers)[i] == entry;
    record := pin.inputs.providers[i];
  }

  lemma WrittenValid(pin: Pin)
    requires PinValid(pin)
    ensures EntriesValid(SortEntries(EntriesOf(pin.inputs.providers)))
  {
    hide SortEntries, EntriesOf, InstallerSemver, VersionChar, EntryOf;
    var entries := SortEntries(EntriesOf(pin.inputs.providers));
    forall e | e in entries ensures InstallerSemver(e.providerVersion) {
      var record := WrittenEntry(pin, e);
    }
    forall a, b | a in entries && b in entries && a.providerId == b.providerId ensures a == b {
      var r := WrittenEntry(pin, a);
      var s := WrittenEntry(pin, b);
      var i :| 0 <= i < |pin.inputs.providers| && pin.inputs.providers[i] == r;
      var j :| 0 <= j < |pin.inputs.providers| && pin.inputs.providers[j] == s;
      SameRecord(pin, i, j);
    }
  }

  lemma ValidKept(c: Context, a: Files, move: Move)
    requires PinValid(c.pin) && Allowed(c, a, move) && EntriesValid(ActiveEntries(a, c.root))
    ensures EntriesValid(ActiveEntries(Effect(c, a, move), c.root))
  {
    hide EntriesValid, ActiveEntries, Allowed, Effect, PinValid;
    ActiveAfter(c, a, move);
    if move.WriteActive? {
      WrittenValid(c.pin);
    }
  }

  lemma {:induction false} AlwaysValid(states: seq<Files>, steps: seq<Step>, root: string, i: nat)
    requires History(states, steps) && Production(steps, root) && EntriesValid(ActiveEntries(states[0], root))
    requires i < |states|
    ensures EntriesValid(ActiveEntries(states[i], root))
  {
    hide EntriesValid, ActiveEntries, Allowed, Effect, PinValid;
    if i > 0 {
      AlwaysValid(states, steps, root, i - 1);
      assert Taken(steps[i - 1].c, states[i - 1], steps[i - 1].move, states[i]);
      ValidKept(steps[i - 1].c, states[i - 1], steps[i - 1].move);
    }
  }

  lemma UpgradesItself(entries: seq<ActiveProvider>, entry: ActiveProvider)
    requires EntriesValid(entries) && entry in entries
    ensures Upgrades(entry, entry)
  {
    CompareVersionsSymmetry(entry.providerVersion, entry.providerVersion);
  }

  lemma UpgradesTransitive(a: ActiveProvider, b: ActiveProvider, d: ActiveProvider)
    requires InstallerSemver(a.providerVersion) && InstallerSemver(b.providerVersion)
    requires InstallerSemver(d.providerVersion) && Upgrades(a, b) && Upgrades(b, d)
    ensures Upgrades(a, d)
  {
    hide InstallerSemver, CompareVersions;
    var x, y, z := a.providerVersion, b.providerVersion, d.providerVersion;
    CompareVersionsSymmetry(x, y);
    CompareVersionsSymmetry(y, z);
    CompareVersionsSymmetry(x, z);
    CompareVersionsTransitive(x, y, z);
  }

  /** What one step makes of an installed Provider its pin still lists. */
  lemma StepUpgrades(c: Context, a: Files, move: Move, older: ActiveProvider) returns (newer: ActiveProvider)
    requires c.production && Allowed(c, a, move) && Lists(c.pin.inputs, older.providerId)
    requires EntriesValid(ActiveEntries(a, c.root)) && older in ActiveEntries(a, c.root)
    ensures newer in ActiveEntries(Effect(c, a, move), c.root) && newer.providerId == older.providerId
    ensures Upgrades(older, newer)
  {
    hide ActiveEntries, CompareVersions, Effect, InstallerSemver, EntryOf, SortEntries;
    ActiveAfter(c, a, move);
    newer := older;
    if move.WriteActive? {
      var record := ListedRecord(c.pin.inputs, older.providerId);
      assert UpgradeAllowed(record, older);
      newer := EntryOf(record);
      WrittenMember(c.pin, record);
    } else {
      UpgradesItself(ActiveEntries(a, c.root), older);
    }
  }

  lemma ListedRecord(inputs: Inputs, id: string) returns (record: ProviderRecord)
    requires Lists(inputs, id)
    ensures record in inputs.providers && record.providerId == id
  {
    record :| record in inputs.providers && record.providerId == id;
  }

  lemma WrittenMember(pin: Pin, record: ProviderRecord)
    requires record in pin.inputs.providers
    ensures EntryOf(record) in SortEntries(EntriesOf(pin.inputs.providers))
  {
    hide SortEntries, EntryOf;
    var i :| 0 <= i < |pin.inputs.providers| && pin.inputs.providers[i] == record;
    assert EntriesOf(pin.inputs.providers)[i] == EntryOf(record);
    SortedMember(EntriesOf(pin.inputs.providers), EntryOf(record));
  }

  /** Once installed, a Provider that every pin lists stays installed and is only ever upgraded. */
  lemma {:induction false} StillInstalled(
    states: seq<Files>, steps: seq<Step>, root: string, i: nat, j: nat, older: ActiveProvider)
    returns (newer: ActiveProvider)
    requires History(states, steps) && Production(steps, root) && AlwaysListed(steps, older.providerId)
    requires EntriesValid(ActiveEntries(states[0], root)) && i <= j < |states|
    requires older in ActiveEntries(states[i], root)
    ensures newer in ActiveEntries(states[j], root) && newer.providerId == older.providerId
    ensures Upgrades(older, newer)
    decreases j
  {
    hide ActiveEntries, Allowed, Effect, PinValid, Upgrades, Lists, InstallerSemver;
    AlwaysValid(states, steps, root, i);
    AlwaysValid(states, steps, root, j);
    if i == j {
      newer := older;
      UpgradesItself(ActiveEntries(states[i], root), older);
    } else {
      var between := StillInstalled(states, steps, root, i, j - 1, older);
      AlwaysValid(states, steps, root, j - 1);
      assert Taken(steps[j - 1].c, states[j - 1], steps[j - 1].move, states[j]);
      newer := StepUpgrades(steps[j - 1].c, states[j - 1], steps[j - 1].move, between);
      UpgradesTransitive(older, between, newer);
    }
  }

  /**
   Over any production history, whatever the pins and wherever runs were cut off:
   for a Provider every pin lists, versions in active.json never decrease, and two
   entries of the same precedence, however far apart, carry the same bundle.
  */
  lemma VersionsNeverDecrease(
    states: seq<Files>, steps: seq<Step>, root: string, i: nat, j: nat, older: ActiveProvider, newer: ActiveProvider)
    requires History(states, steps) && Production(steps, root) && AlwaysListed(steps, older.providerId)
    requires EntriesValid(ActiveEntries(states[0], root)) && i <= j < |states|
    requires Installs(states[i], root, older) && Installs(states[j], root, newer)
    requires newer.providerId == older.providerId
    ensures Upgrades(older, newer)
  {
    hide ActiveEntries, Upgrades, History, Production, AlwaysListed;
    var found := StillInstalled(states, steps, root, i, j, older);
    AlwaysValid(states, steps, root, j);
    assert found == newer;
  }

  /** In the terms of section 11, where the numbers fit 64 bits. */
  lemma PrecedenceNeverDecreases(
    states: seq<Files>, steps: seq<Step>, root: string, i: nat, j: nat, older: ActiveProvider, newer: ActiveProvider)
    requires History(states, steps) && Production(steps, root) && AlwaysListed(steps, older.providerId)
    requires EntriesValid(ActiveEntries(states[0], root)) && i <= j < |states|
    requires Installs(states[i], root, older) && Installs(states[j], root, newer)
    requires newer.providerId == older.providerId
    requires StrictSemver(older.providerVersion) && SmallNumbers(older.providerVersion)
    requires StrictSemver(newer.providerVersion) && SmallNumbers(newer.providerVersion)
    ensures !Precedes(Semver.Meaning(newer.providerVersion), Semver.Meaning(older.providerVersion))
    ensures Semver.Meaning(newer.providerVersion) == Semver.Meaning(older.providerVersion) ==>
      newer.bundleSha256 == older.bundleSha256
  {
    hide ActiveEntries, History, Production, AlwaysListed, EntriesValid, StrictSemver, SmallNumbers, CompareVersions,
      Precedes;
    VersionsNeverDecrease(states, steps, root, i, j, older, newer);
    CompareVersionsIsPrecedence(newer.providerVersion, older.providerVersion);
    PrecedenceTotal(Semver.Meaning(newer.providerVersion), Semver.Meaning(older.providerVersion));
  }
}
