/** Schema upgrade with an automatic backup, a durable status file and recovery on the next open. */
module Migrations {
  import opened Basics

  /** The highest schema version this release understands. */
  const CURRENT: nat := 14

  /** What a SQLite file holds: the user's data, the migration ledger (if its table exists) and user_version. */
  datatype Image<D> = Image(data: D, table: Option<set<int>>, userVersion: int) {
    /** The recorded versions: none when the ledger table does not exist. */
    function ledger(): set<int> {
      if table.Some? then table.value else {}
    }

    /** CREATE TABLE IF NOT EXISTS */
    function WithTable(): Image<D> {
      this.(table := Some(ledger()))
    }
  }

  datatype DbFile<D> = Missing | Torn | Whole(image: Image<D>)

  datatype Status = InProgress | Complete | Failed | Recovered | Incompatible

  /** The status file beside the database; backup is the recovery image it names. */
  datatype StatusFile = StatusFile(status: Status, backup: Option<nat>)

  datatype Disk<D> = Disk(db: DbFile<D>, backups: map<nat, Image<D>>, status: Option<StatusFile>) {
    predicate Upgrading() {
      status.Some? && status.value.status.InProgress?
    }
  }

  /** apply(v, x): the data after migration v; created: the data of a database that SQLite creates on opening. */
  datatype Schema<!D> = Schema(apply: (int, D) -> D, created: D)

  function Upto(n: int): (s: set<int>)
    ensures forall v :: v in s <==> 1 <= v <= n
  {
    if n <= 0 then {} else Upto(n - 1) + {n}
  }

  /** Migrations from + 1 to upto, in order. */
  function ApplyRange<D>(schema: Schema<D>, data: D, from: int, upto: int): D
    requires from <= upto
    decreases upto - from
  {
    if from == upto then data else schema.apply(upto, ApplyRange(schema, data, from, upto - 1))
  }

  // ----- which version a database is at

  /** The version the ledger and user_version stand for, or None when they cannot be trusted. */
  ghost predicate IsVersion<D>(image: Image<D>, version: int) {
    if image.table.None? then version == 0
    else exists maximum: nat :: LedgerSays(image, maximum, version)
  }

  predicate LedgerSays<D>(image: Image<D>, maximum: nat, version: int) {
    && image.ledger() == Upto(maximum)
    && (image.userVersion == 0 || image.userVersion >= maximum)
    && version == if image.userVersion > maximum then image.userVersion else maximum
  }

  lemma UptoIsInjective(m: nat, n: nat)
    requires Upto(m) == Upto(n)
    ensures m == n
  {
    assert m > 0 ==> m in Upto(n);
    assert n > 0 ==> n in Upto(m);
  }

  lemma VersionIsUnique<D>(image: Image<D>, v: int, w: int)
    requires IsVersion(image, v) && IsVersion(image, w)
    ensures v == w
  {
    if image.table.Some? {
      var m: nat :| LedgerSays(image, m, v);
      var n: nat :| LedgerSays(image, n, w);
      UptoIsInjective(m, n);
    }
  }

  /** The largest of a set of positive versions. */
  method Maximum(ledger: set<int>) returns (maximum: nat, ok: bool)
    ensures ok ==> (forall v :: v in ledger ==> 1 <= v <= maximum) && (maximum == 0 || maximum in ledger)
    ensures !ok ==> exists v :: v in ledger && v <= 0
  {
    maximum, ok := 0, true;
    ghost var seen: set<int> := {};
    var rows := ledger;
    while rows != {}
      invariant maximum == 0 || maximum in ledger
      invariant rows + seen == ledger
      invariant forall v :: v in seen ==> 1 <= v <= maximum
      decreases |rows|
    {
      var v := Pick(rows);
      if v <= 0 {
        return maximum, false;
      }
      if v > maximum {
        maximum := v;
      }
      seen := seen + {v};
      rows := rows - {v};
    }
  }

  /** The largest recorded version, provided the ledger holds 1 to that version without a gap and nothing else. */
  method LedgerMaximum(ledger: set<int>) returns (maximum: nat, ok: bool)
    ensures ok ==> ledger == Upto(maximum)
    ensures !ok ==> forall n :: ledger != Upto(n)
  {
    maximum, ok := Maximum(ledger);
    if !ok {
      return;
    }
    for v := 1 to maximum + 1
      invariant forall w :: 1 <= w < v ==> w in ledger
    {
      if v !in ledger {
        return maximum, false;
      }
    }
  }

  /** The version of a database that has a ledger. */
  method LedgerVersion<D>(image: Image<D>) returns (version: Option<int>)
    requires image.table.Some?
    ensures version.Some? ==> IsVersion(image, version.value)
    ensures version.None? ==> forall v :: !IsVersion(image, v)
  {
    var maximum, ok := LedgerMaximum(image.table.value);
    if !ok {
      return None;
    }
    if image.userVersion != 0 && image.userVersion < maximum {
      forall m: nat, v | image.ledger() == Upto(m)
        ensures !LedgerSays(image, m, v)
      {
        UptoIsInjective(m, maximum);
      }
      return None;
    }
    var found := if image.userVersion > maximum then image.userVersion else maximum;
    assert LedgerSays(image, maximum, found);
    version := Some(found);
  }

  /** The database an upgrade from version `from` ends with. */
  function Finished<D>(schema: Schema<D>, image: Image<D>, from: int): Image<D>
    requires from <= CURRENT
  {
    Image(ApplyRange(schema, image.data, from, CURRENT), Some(image.ledger() + (Upto(CURRENT) - Upto(from))),
          if from == CURRENT then image.userVersion else CURRENT)
  }

  /** The first successful upgrade leaves a complete ledger if and only if user_version was 0 or already recorded,
      or there was no ledger table at all. */
  lemma LedgerCompleteExactlyWhen<D>(schema: Schema<D>, image: Image<D>, from: int)
    requires IsVersion(image, from) && from <= CURRENT
    ensures Finished(schema, image, from).ledger() == Upto(CURRENT)
        <==> image.table.None? || image.userVersion == 0 || image.userVersion in image.ledger()
  {
    if image.table.Some? {
      var m: nat :| LedgerSays(image, m, from);
      assert image.userVersion in image.ledger() <==> 1 <= image.userVersion <= m;
      assert from > m ==> from !in Finished(schema, image, from).ledger() && from in Upto(CURRENT);
    }
  }

  /** A database from before the ledger that carries a user_version: if its first upgrade is cut off right after the
      ledger table is created, the next one starts behind the gap and the one after that refuses to open. */
  lemma GapAfterInterruptedFirstUpgrade<D>(schema: Schema<D>, data: D)
    ensures var cut := Image(data, Some({}), 5);
      && IsVersion(Image(data, None, 5), 0) && IsVersion(cut, 5)
      && Finished(schema, cut, 5).ledger() != Upto(CURRENT)
      && forall v :: !IsVersion(Finished(schema, cut, 5), v)
  {
    var cut := Image(data, Some({}), 5);
    assert LedgerSays(cut, 0, 5);
    var ledger := Finished(schema, cut, 5).ledger();
    assert 1 !in ledger && 14 in ledger && 1 in Upto(CURRENT);
    forall m: nat
      ensures ledger != Upto(m)
    {
      assert 14 in Upto(m) ==> 1 in Upto(m);
    }
  }

  // ----- what a disk may look like at a crash

  /** The same database as far as its owner is concerned: an empty ledger table makes no difference. */
  predicate Same<D(==)>(image: Image<D>, original: Image<D>) {
    && image.data == original.data && image.ledger() == original.ledger() && image.userVersion == original.userVersion
    && (original.table.Some? ==> image.table.Some?)
  }

  /** A database this release can bring to the current version from version c. */
  predicate Upgradable<D>(image: Image<D>, c: nat) {
    && c <= CURRENT && image.ledger() == Upto(c) && (image.userVersion == 0 || image.userVersion == c)
    && (image.table.None? ==> c == 0)
  }

  /** Every missing migration applied once and in order, and recorded. */
  predicate Upgraded<D(==)>(schema: Schema<D>, original: Image<D>, c: nat, image: Image<D>)
    requires c <= CURRENT
  {
    && image.data == ApplyRange(schema, original.data, c, CURRENT)
    && image.table.Some? && image.ledger() == Upto(CURRENT)
    && image.userVersion == if c < CURRENT then CURRENT else original.userVersion
  }

  /** The original can still be recovered, is still there, or has been upgraded. */
  predicate Safe<D(==)>(schema: Schema<D>, original: Image<D>, c: nat, d: Disk<D>)
    requires c <= CURRENT
  {
    if d.Upgrading() then
      && d.status.value.backup.Some? && d.status.value.backup.value in d.backups
      && Same(d.backups[d.status.value.backup.value], original)
    else
      && d.db.Whole?
      && (Same(d.db.image, original) || Upgraded(schema, original, c, d.db.image))
  }

  /** The database file is gone or half copied and the status file does not ask for a recovery. */
  predicate Exposed<D>(d: Disk<D>) {
    !d.Upgrading() && !d.db.Whole?
  }

  /** A safe disk gives its owner the original or the upgraded database back, whatever happened in between. */
  lemma SafeDiskRecovers<D>(schema: Schema<D>, original: Image<D>, c: nat, d: Disk<D>)
    requires c <= CURRENT && Safe(schema, original, c, d)
    ensures AfterRecovery(d).db.Whole? && !AfterRecovery(d).Upgrading() && Safe(schema, original, c, AfterRecovery(d))
    ensures d.Upgrading() ==> Same(AfterRecovery(d).db.image, original)
  {
  }

  /** An exposed disk is beyond automatic recovery: the next open leaves it as it is. */
  lemma ExposedDiskIsLost<D>(d: Disk<D>)
    requires Exposed(d)
    ensures !AfterRecovery(d).db.Whole?
  {
  }

  /** What the next open makes of a disk before it looks at the schema. */
  function AfterRecovery<D>(d: Disk<D>): Disk<D> {
    if d.Upgrading() && d.status.value.backup.Some? && d.status.value.backup.value in d.backups then
      d.(db := Whole(d.backups[d.status.value.backup.value]), status := Some(StatusFile(Recovered, d.status.value.backup)))
    else d
  }

  /** The disk at each point of copying backup p over the database. */
  function RestoreSteps<D>(d: Disk<D>, p: nat): seq<Disk<D>>
    requires p in d.backups
  {
    [d.(db := Missing), d.(db := Torn), d.(db := Whole(d.backups[p]))]
  }

  /** Restoring can be interrupted anywhere without losing the original if and only if the status file on disk
      already says, when the restore begins, that this backup is to be recovered from. */
  lemma RestoreIsCrashSafe<D>(schema: Schema<D>, original: Image<D>, c: nat, d: Disk<D>, p: nat)
    requires c <= CURRENT && p in d.backups && Same(d.backups[p], original)
    requires d.Upgrading() ==> d.status.value.backup == Some(p)
    ensures (forall s :: s in RestoreSteps(d, p) ==> AfterRecovery(s).db.Whole? && Same(AfterRecovery(s).db.image, original))
        <==> d.Upgrading()
  {
    var steps := RestoreSteps(d, p);
    assert steps[0] in steps && steps[0].db == Missing;
    forall s | s in steps
      ensures s.status == d.status && s.backups == d.backups
    {
      assert s == steps[0] || s == steps[1] || s == steps[2];
    }
  }

  // ----- what may go wrong during one open

  /** Replacing the status file: in one step, not at all, or, where renaming over it is refused, by removing it first, after
      which the new one may or may not get into its place. */
  datatype StatusWrite = Replaced | Kept | Reinstated | Lost {
    predicate Ok() {
      Replaced? || Reinstated?
    }

    predicate Atomic() {
      Replaced? || Kept?
    }
  }

  function AfterWrite(status: Option<StatusFile>, state: StatusFile, w: StatusWrite): Option<StatusFile> {
    if w.Ok() then Some(state) else if w.Lost? then None else status
  }

  /** The disk at each point of such a write. */
  function WriteSteps<D>(d: Disk<D>, state: StatusFile, w: StatusWrite): seq<Disk<D>> {
    (if w.Atomic() then [] else [d.(status := None)]) + (if w.Ok() then [d.(status := Some(state))] else [])
  }

  /** One migration: its number is noted in the status file and in the database, its statements run (leaving the data
      anyhow in between), and it is recorded. */
  datatype StepFate<D> = StepFate(noted: StatusWrite, copied: bool, between: D, ran: bool, recorded: bool) {
    predicate Goes() {
      noted.Ok() && copied && ran && recorded
    }
  }

  /** What every operation of one open does: which reads and writes succeed, and how far a restore gets (3 is all the way). */
  datatype Fate<!D> = Fate(
    looks: bool,
    recovery: nat,
    recovered: StatusWrite,
    inspects: bool,
    backup: bool,
    table: bool,
    begun: StatusWrite,
    begunCopied: bool,
    steps: int -> StepFate<D>,
    done: StatusWrite,
    doneCopied: bool,
    rollback: nat,
    failed: StatusWrite)
  {
    predicate StepsGo(from: int) {
      GoesUpto(from, CURRENT)
    }

    predicate GoesUpto(from: int, upto: int) {
      forall v :: from < v <= upto ==> steps(v).Goes()
    }

    predicate Begins() {
      backup && table && begun.Ok() && begunCopied
    }

    predicate Finishes(from: int) {
      Begins() && StepsGo(from) && done.Ok() && doneCopied
    }

    /** No status file is removed before its successor is in place. */
    predicate Atomic(from: int) {
      begun.Atomic() && done.Atomic() && forall v :: from < v <= CURRENT ==> steps(v).noted.Atomic()
    }

    /** The upgrade is rolled back while the status file does not say that it is in progress: before it said so, or after it
        said that the upgrade is complete. */
    predicate Unguarded(from: int) {
      backup && (!table || begun.Kept? || (Begins() && StepsGo(from) && done.Ok() && !doneCopied))
    }

    predicate Restores() {
      recovery >= 3 && rollback >= 3
    }

    /** Nothing that is done fails: a database at the current version needs no backup and no status file. */
    predicate Perfect(from: int) {
      looks && recovery >= 3 && recovered.Ok() && inspects && table && (from < CURRENT ==> Finishes(from))
    }
  }

  /** One process that opens the database: what its operations do, and after how many changes to the disk it is killed, if
      it is. */
  datatype Life<!D> = Life(fate: Fate<D>, killed: Option<nat>) {
    /** Restores that are needed succeed, and a process that is killed was not rolling back unguarded. */
    predicate Gentle(from: int) {
      fate.Restores() && (killed.Some? ==> fate.Atomic(from) && !fate.Unguarded(from))
    }

    predicate Perfect(from: int) {
      fate.Perfect(from) && killed.None?
    }
  }

  // ----- every state an open goes through

  /** The disk after these changes. */
  function Last<D>(d: Disk<D>, steps: seq<Disk<D>>): Disk<D> {
    if steps == [] then d else steps[|steps| - 1]
  }

  function RestoreStepsUpto<D>(d: Disk<D>, p: nat, far: nat): seq<Disk<D>> {
    if p in d.backups then RestoreSteps(d, p)[..if far >= 3 then 3 else far] else []
  }

  /** Where renaming over the status file is refused, there is a moment without one. */
  lemma WriteStepsAre<D>(d: Disk<D>, state: StatusFile, w: StatusWrite)
    ensures WriteSteps(d, state, w) == match w
      case Replaced => [d.(status := Some(state))]
      case Kept => []
      case Reinstated => [d.(status := None), d.(status := Some(state))]
      case Lost => [d.(status := None)]
  {
  }

  /** A restore leaves no database, then half of one, then the backup. */
  lemma RestoreStepsAre<D>(d: Disk<D>, p: nat, far: nat)
    ensures p in d.backups && far >= 3 ==>
      RestoreStepsUpto(d, p, far) == [d.(db := Missing), d.(db := Torn), d.(db := Whole(d.backups[p]))]
    ensures p in d.backups && far == 2 ==> RestoreStepsUpto(d, p, far) == [d.(db := Missing), d.(db := Torn)]
    ensures p in d.backups && far == 1 ==> RestoreStepsUpto(d, p, far) == [d.(db := Missing)]
    ensures p !in d.backups || far == 0 ==> RestoreStepsUpto(d, p, far) == []
  {
  }

  function RecoverSteps<D>(d: Disk<D>, fate: Fate<D>): seq<Disk<D>> {
    if !fate.looks || !d.Upgrading() then []
    else
      var backup := d.status.value.backup;
      if backup.None? then WriteSteps(d, StatusFile(Failed, None), fate.failed)
      else
        var restore := RestoreStepsUpto(d, backup.value, fate.recovery);
        var restored := backup.value in d.backups && fate.recovery >= 3;
        restore + WriteSteps(Last(d, restore), StatusFile(if restored then Recovered else Failed, backup),
                             if restored then fate.recovered else fate.failed)
  }

  function RollbackSteps<D>(d: Disk<D>, p: nat, fate: Fate<D>): seq<Disk<D>> {
    var restore := RestoreStepsUpto(d, p, fate.rollback);
    restore + WriteSteps(Last(d, restore), StatusFile(Failed, Some(p)), fate.failed)
  }

  /** The statements of migration v, something in between, all of them, and its record. */
  function RunSteps<D>(schema: Schema<D>, d: Disk<D>, v: int, f: StepFate<D>): seq<Disk<D>> {
    if !d.db.Whole? then []
    else
      var before := d.db.image;
      var after := before.(data := schema.apply(v, before.data));
      [d.(db := Whole(before.(data := f.between)))]
      + (if f.ran then [d.(db := Whole(after))] else [])
      + (if f.ran && f.recorded then [d.(db := Whole(after.(table := Some(after.ledger() + {v}), userVersion := v)))] else [])
  }

  function MigrateOneSteps<D>(schema: Schema<D>, d: Disk<D>, p: nat, v: int, f: StepFate<D>): seq<Disk<D>> {
    var noted := WriteSteps(d, StatusFile(InProgress, Some(p)), f.noted);
    if f.noted.Ok() && f.copied then noted + RunSteps(schema, Last(d, noted), v, f) else noted
  }

  /** Migrations v to the current one, up to the first that fails. */
  function MigrateSteps<D>(schema: Schema<D>, d: Disk<D>, p: nat, v: int, fate: Fate<D>): seq<Disk<D>>
    decreases CURRENT - v
  {
    if v > CURRENT then []
    else
      var one := MigrateOneSteps(schema, d, p, v, fate.steps(v));
      if fate.steps(v).Goes() then one + MigrateSteps(schema, Last(d, one), p, v + 1, fate) else one
  }

  function EndSteps<D>(d: Disk<D>, p: nat, fate: Fate<D>): seq<Disk<D>> {
    var written := WriteSteps(d, StatusFile(Complete, Some(p)), fate.done);
    if fate.done.Ok() && fate.doneCopied then written else written + RollbackSteps(Last(d, written), p, fate)
  }

  function RunUpgradeSteps<D>(schema: Schema<D>, d: Disk<D>, p: nat, from: int, fate: Fate<D>): seq<Disk<D>> {
    var migrated := MigrateSteps(schema, d, p, from + 1, fate);
    migrated + if fate.StepsGo(from) then EndSteps(Last(d, migrated), p, fate) else RollbackSteps(Last(d, migrated), p, fate)
  }

  function BeginSteps<D>(schema: Schema<D>, d: Disk<D>, p: nat, from: int, fate: Fate<D>): seq<Disk<D>> {
    var written := WriteSteps(d, StatusFile(InProgress, Some(p)), fate.begun);
    written + if fate.begun.Ok() && fate.begunCopied then RunUpgradeSteps(schema, Last(d, written), p, from, fate)
              else RollbackSteps(Last(d, written), p, fate)
  }

  function UpgradeSteps<D>(schema: Schema<D>, d: Disk<D>, p: nat, from: int, fate: Fate<D>): seq<Disk<D>>
    requires d.db.Whole?
  {
    if !fate.backup then WriteSteps(d, StatusFile(Failed, None), fate.failed)
    else
      var backedUp := d.(backups := d.backups[p := d.db.image]);
      var tabled := backedUp.(db := Whole(d.db.image.WithTable()));
      [backedUp] + if fate.table then [tabled] + BeginSteps(schema, tabled, p, from, fate) else RollbackSteps(backedUp, p, fate)
  }

  /** The version a database stands at: too new by user_version, or what its ledger says, or None for a contradictory one. */
  ghost function StandsAt<D>(image: Image<D>): Option<int> {
    if image.userVersion > CURRENT then Some(image.userVersion)
    else if version :| IsVersion(image, version) then Some(version)
    else None
  }

  /** A ledger of 1 to m gives the larger of m and user_version, unless user_version says less than the ledger. */
  lemma VersionIs<D>(image: Image<D>, m: nat)
    requires image.userVersion <= 14 && image.table.Some? && forall v :: v in image.table.value <==> 1 <= v <= m
    ensures StandsAt(image) ==
      if image.userVersion != 0 && image.userVersion < m then None
      else if image.userVersion > m then Some(image.userVersion) else Some(m)
  {
    assert image.ledger() == Upto(m);
    forall v, n: nat | LedgerSays(image, n, v)
      ensures n == m
    {
      UptoIsInjective(n, m);
    }
    if image.userVersion == 0 || image.userVersion >= m {
      var v := if image.userVersion > m then image.userVersion else m;
      assert LedgerSays(image, m, v);
      assert IsVersion(image, v);
      VersionIsUnique(image, v, StandsAt(image).value);
    }
  }

  /** A ledger with a gap, or with a version that is not positive, gives none; without a ledger the version is 0, whatever
      user_version says; and a user_version above 14 is too new, whatever the ledger says. */
  lemma OtherVersions<D>(image: Image<D>, v: int, w: int)
    ensures image.userVersion > 14 ==> StandsAt(image) == Some(image.userVersion)
    ensures image.userVersion <= 14 && image.table.None? ==> StandsAt(image) == Some(0)
    ensures image.userVersion <= 14 && image.table.Some? && v in image.table.value ==>
      (v <= 0 || (1 <= w < v && w !in image.table.value) ==> StandsAt(image) == None)
  {
    if image.table.None? {
      assert IsVersion(image, 0);
    } else if v in image.table.value && (v <= 0 || (1 <= w < v && w !in image.table.value)) {
      forall n: nat
        ensures image.ledger() != Upto(n)
      {
        assert v in Upto(n) ==> 1 <= v <= n && (1 <= w < v ==> w in Upto(n));
      }
    }
  }

  ghost function DecideSteps<D>(schema: Schema<D>, d: Disk<D>, p: nat, fate: Fate<D>): seq<Disk<D>>
    requires d.db.Whole?
  {
    var version := StandsAt(d.db.image);
    if !fate.inspects || version.None? then WriteSteps(d, StatusFile(Failed, None), fate.failed)
    else if version.value > CURRENT then WriteSteps(d, StatusFile(Incompatible, None), fate.failed)
    else if version.value < CURRENT then UpgradeSteps(schema, d, p, version.value, fate)
    else if fate.table then [d.(db := Whole(d.db.image.WithTable()))]
    else WriteSteps(d, StatusFile(Failed, None), fate.failed)
  }

  ghost function DecideOutcome<D>(image: Image<D>, fate: Fate<D>): Outcome {
    var version := StandsAt(image);
    if !fate.inspects || version.None? || version.value > CURRENT then Refused
    else if version.value < CURRENT then UpgradeOutcome(fate, version.value)
    else if fate.table then Opened
    else Refused
  }

  predicate Recovers<D>(d: Disk<D>, fate: Fate<D>) {
    fate.looks && (d.Upgrading() ==> Recoverable(d) && fate.recovery >= 3 && fate.recovered.Ok())
  }

  /** The changes before the schema is looked at: recovery, and a new file where there is none. */
  function EnterSteps<D>(schema: Schema<D>, d: Disk<D>, fate: Fate<D>): seq<Disk<D>> {
    var recovery := RecoverSteps(d, fate);
    var recovered := Last(d, recovery);
    if Recovers(d, fate) && recovered.db.Missing? then recovery + [recovered.(db := Whole(Image(schema.created, None, 0)))]
    else recovery
  }

  /** Every state of the disk during one open, from the first change to the last. */
  ghost function OpenSteps<D>(schema: Schema<D>, d: Disk<D>, p: nat, fate: Fate<D>): seq<Disk<D>> {
    var entered := EnterSteps(schema, d, fate);
    if Recovers(d, fate) && Last(d, entered).db.Whole? then entered + DecideSteps(schema, Last(d, entered), p, fate) else entered
  }

  ghost function OpenOutcome<D>(schema: Schema<D>, d: Disk<D>, fate: Fate<D>): Outcome {
    var entered := Last(d, EnterSteps(schema, d, fate));
    if Recovers(d, fate) && entered.db.Whole? then DecideOutcome(entered.db.image, fate) else Refused
  }

  /** The disk that a process killed after `at` changes leaves behind; one killed later has made them all. */
  function KilledAt<D>(d: Disk<D>, steps: seq<Disk<D>>, at: nat): Disk<D> {
    Last(d, if at <= |steps| then steps[..at] else steps)
  }

  /** The disk that one open leaves behind. */
  ghost function BootDisk<D>(schema: Schema<D>, d: Disk<D>, p: nat, life: Life<D>): Disk<D> {
    var steps := OpenSteps(schema, d, p, life.fate);
    if life.killed.Some? then KilledAt(d, steps, life.killed.value) else Last(d, steps)
  }

  lemma LastOfBoth<D>(d: Disk<D>, a: seq<Disk<D>>, b: seq<Disk<D>>)
    ensures Last(d, a + b) == Last(Last(d, a), b)
  {
  }

  /** Two stretches of a trace in a row are one. */
  lemma GoOn<D>(d: Disk<D>, trace: seq<Disk<D>>, a: seq<Disk<D>>, b: seq<Disk<D>>)
    ensures trace + a + b == trace + (a + b) && Last(Last(d, a), b) == Last(d, a + b)
  {
    LastOfBoth(d, a, b);
  }

  // ----- the code

  datatype Outcome = Opened | Refused | RolledBack(restored: bool)

  /** How an upgrade from version `from` ends. */
  function UpgradeOutcome<D>(fate: Fate<D>, from: int): Outcome {
    if !fate.backup then Refused else if fate.Finishes(from) then Opened else RolledBack(fate.rollback >= 3)
  }

  /** An upgrade opens the database exactly when the backup is made, the ledger table exists, the status file and its copy say
      that it is in progress, every migration is noted, copied, run and recorded, and the status file and its copy say that it
      is complete. Without the backup nothing is tried, and everything else ends in a rollback. */
  lemma UpgradeOutcomeIs<D>(fate: Fate<D>, from: int)
    ensures UpgradeOutcome(fate, from).Opened? <==>
      && fate.backup && fate.table && (fate.begun.Replaced? || fate.begun.Reinstated?) && fate.begunCopied
      && (forall v :: from < v <= 14 ==>
            && (fate.steps(v).noted.Replaced? || fate.steps(v).noted.Reinstated?) && fate.steps(v).copied
            && fate.steps(v).ran && fate.steps(v).recorded)
      && (fate.done.Replaced? || fate.done.Reinstated?) && fate.doneCopied
    ensures UpgradeOutcome(fate, from).Refused? <==> !fate.backup
    ensures UpgradeOutcome(fate, from).RolledBack? ==> (UpgradeOutcome(fate, from).restored <==> fate.rollback >= 3)
  {
  }

  /** What the caller of an open may rely on: the disk it found was safe for this original. */
  datatype Given<D> = Nothing | Given(original: Image<D>, c: nat)

  /** The database directory. Every change to it is one element of trace, so a crash is a cut of the trace. */
  class Store<D(==,0)> {
    const schema: Schema<D>
    var disk: Disk<D>
    var trace: seq<Disk<D>>

    constructor (schema: Schema<D>, disk: Disk<D>)
      ensures this.schema == schema && this.disk == disk && trace == []
    {
      this.schema, this.disk, trace := schema, disk, [];
    }

    ghost predicate Ok(given: Given<D>, d: Disk<D>) {
      given.Given? ==> Upgradable(given.original, given.c) && Safe(schema, given.original, given.c, d)
    }

    /** Every disk state since `before` was safe. */
    ghost predicate OkSince(given: Given<D>, before: seq<Disk<D>>)
      reads this
    {
      AllOk(given, before, trace)
    }

    /** Some disk state since `before` was beyond recovery. */
    ghost predicate ExposedSince(before: seq<Disk<D>>)
      reads this
    {
      exists i :: |before| <= i < |trace| && Exposed(trace[i])
    }

    /** The disk has gone through exactly these states since it was d, and each of them is in the trace. */
    ghost predicate Went(d: Disk<D>, before: seq<Disk<D>>, steps: seq<Disk<D>>)
      reads this
    {
      trace == before + steps && disk == Last(d, steps)
    }

    method Put(d: Disk<D>)
      modifies this
      ensures disk == d && trace == old(trace) + [d]
    {
      disk := d;
      trace := trace + [d];
    }

    method WriteStatus(state: StatusFile, w: StatusWrite)
      modifies this
      ensures disk == old(disk).(status := AfterWrite(old(disk).status, state, w))
      ensures Went(old(disk), old(trace), WriteSteps(old(disk), state, w))
    {
      if !w.Atomic() {
        Put(disk.(status := None));
      }
      if w.Ok() {
        Put(disk.(status := Some(state)));
      }
    }

    /** Move the database aside and copy the backup into its place, as far as it gets. */
    method Restore(p: nat, far: nat) returns (ok: bool)
      modifies this
      ensures ok <==> p in old(disk).backups && far >= 3
      ensures disk == old(disk).(db := disk.db)
      ensures ok ==> disk.db == Whole(disk.backups[p])
      ensures p in old(disk).backups && 1 <= far < 3 ==> !disk.db.Whole?
      ensures Went(old(disk), old(trace), RestoreStepsUpto(old(disk), p, far))
    {
      if p !in disk.backups || far == 0 {
        return false;
      }
      ghost var d := disk;
      Put(disk.(db := Missing));
      if far == 1 {
        return false;
      }
      Put(disk.(db := Torn));
      if far == 2 {
        return false;
      }
      Put(disk.(db := Whole(disk.backups[p])));
      ok := true;
    }

    /** On open: an upgrade that was cut off is undone from the backup its status file names. */
    method Recover(fate: Fate<D>, ghost given: Given<D>) returns (ok: bool)
      requires Ok(given, disk)
      modifies this
      ensures ok <==> Recovers(old(disk), fate)
      ensures Went(old(disk), old(trace), RecoverSteps(old(disk), fate))
      ensures ok ==> disk == AfterRecovery(old(disk)) && !disk.Upgrading()
      ensures fate.recovery >= 3 ==> Ok(given, disk) && OkSince(given, old(trace))
      ensures old(trace) <= trace
    {
      if !fate.looks {
        return false;
      }
      if !disk.Upgrading() {
        return true;
      }
      var backup := disk.status.value.backup;
      if backup.None? {
        WriteStatus(StatusFile(Failed, None), fate.failed);
        return false;
      }
      var restored := Restore(backup.value, fate.recovery);
      ghost var d1 := disk;
      WriteStatus(StatusFile(if restored then Recovered else Failed, backup), if restored then fate.recovered else fate.failed);
      GoOn(old(disk), old(trace), RestoreStepsUpto(old(disk), backup.value, fate.recovery),
           WriteSteps(d1, StatusFile(if restored then Recovered else Failed, backup), if restored then fate.recovered else fate.failed));
      ok := restored && fate.recovered.Ok();
    }

    /** Put the backup back and record the failure. */
    method Rollback(p: nat, fate: Fate<D>, ghost given: Given<D>) returns (outcome: Outcome)
      requires p in disk.backups && (given.Given? ==> Upgradable(given.original, given.c) && Same(disk.backups[p], given.original))
      requires disk.Upgrading() ==> disk.status.value.backup == Some(p)
      modifies this
      ensures outcome == RolledBack(fate.rollback >= 3)
      ensures outcome.restored ==> Ok(given, disk) && disk.db == Whole(old(disk).backups[p])
      ensures outcome.restored && old(disk).Upgrading() ==> OkSince(given, old(trace))
      ensures outcome.restored && !old(disk).Upgrading() ==> ExposedSince(old(trace))
      ensures 1 <= fate.rollback < 3 && fate.failed.Ok() ==> Exposed(disk)
      ensures Went(old(disk), old(trace), RollbackSteps(old(disk), p, fate))
    {
      var restored := Restore(p, fate.rollback);
      ghost var d1 := disk;
      WriteStatus(StatusFile(Failed, Some(p)), fate.failed);
      GoOn(old(disk), old(trace), RestoreStepsUpto(old(disk), p, fate.rollback), WriteSteps(d1, StatusFile(Failed, Some(p)), fate.failed));
      assert restored && !old(disk).Upgrading() ==> Exposed(trace[|old(trace)|]);
      outcome := RolledBack(restored);
    }

    /** Report a failure that changed nothing in the database. */
    method Refuse(status: Status, fate: Fate<D>, ghost given: Given<D>) returns (outcome: Outcome)
      requires Ok(given, disk) && !disk.Upgrading() && !status.InProgress?
      modifies this
      ensures outcome.Refused? && Ok(given, disk) && OkSince(given, old(trace))
      ensures disk == old(disk).(status := disk.status) && !disk.Upgrading()
      ensures Went(old(disk), old(trace), WriteSteps(old(disk), StatusFile(status, None), fate.failed))
    {
      WriteStatus(StatusFile(status, None), fate.failed);
      outcome := Refused;
    }

    /** The backup being upgraded from, and what the database holds once versions from + 1 to `done` are in. */
    ghost predicate Between(p: nat, start: Image<D>, from: int, done: int)
      reads this
    {
      && from <= done
      && disk.status == Some(StatusFile(InProgress, Some(p))) && p in disk.backups && Same(start, disk.backups[p])
      && disk.db == Whole(Image(ApplyRange(schema, start.data, from, done), Some(start.ledger() + (Upto(done) - Upto(from))),
                                if done == from then start.userVersion else done))
    }

    /** One migration: note it, run its statements, record it. */
    method MigrateOne(v: int, p: nat, f: StepFate<D>, ghost start: Image<D>, ghost from: int, ghost given: Given<D>) returns (ok: bool)
      requires Between(p, start, from, v - 1) && v >= 1
      requires from >= 0 && forall w :: w in start.ledger() ==> w <= from
      requires given.Given? ==> Upgradable(given.original, given.c) && Same(disk.backups[p], given.original)
      modifies this
      ensures ok <==> f.Goes()
      ensures ok ==> Between(p, start, from, v)
      ensures disk.backups == old(disk).backups
      ensures Went(old(disk), old(trace), MigrateOneSteps(schema, old(disk), p, v, f))
      ensures disk.status == old(disk).status || (!ok && disk.status == None)
      ensures f.noted.Atomic() ==> disk.status == old(disk).status && OkSince(given, old(trace))
    {
      var before := disk.db.image;
      WriteStatus(StatusFile(InProgress, Some(p)), f.noted);
      if !f.noted.Ok() || !f.copied {
        return false;
      }
      assert start.ledger() + (Upto(v) - Upto(from)) == start.ledger() + (Upto(v - 1) - Upto(from)) + {v};
      ghost var d1 := disk;
      ok := RunOne(v, p, before, f, given);
      GoOn(old(disk), old(trace), WriteSteps(old(disk), StatusFile(InProgress, Some(p)), f.noted), RunSteps(schema, d1, v, f));
    }

    /** The statements of a migration and its record. */
    method RunOne(v: int, ghost p: nat, before: Image<D>, f: StepFate<D>, ghost given: Given<D>) returns (ok: bool)
      requires disk.db == Whole(before) && v !in before.ledger()
      requires disk.status == Some(StatusFile(InProgress, Some(p))) && p in disk.backups
      requires given.Given? ==> Upgradable(given.original, given.c) && Same(disk.backups[p], given.original)
      modifies this
      ensures ok <==> f.ran && f.recorded
      ensures ok ==> disk.db == Whole(Image(schema.apply(v, before.data), Some(before.ledger() + {v}), v))
      ensures disk == old(disk).(db := disk.db) && OkSince(given, old(trace))
      ensures Went(old(disk), old(trace), RunSteps(schema, old(disk), v, f))
    {
      Put(disk.(db := Whole(before.(data := f.between))));
      if !f.ran {
        return false;
      }
      var after := before.(data := schema.apply(v, before.data));
      Put(disk.(db := Whole(after)));
      if !f.recorded {
        return false;
      }
      Put(disk.(db := Whole(after.(table := Some(after.ledger() + {v}), userVersion := v))));
      ok := true;
    }

    /** Every missing migration in order. */
    method MigrateAll(from: int, p: nat, fate: Fate<D>, ghost start: Image<D>, ghost given: Given<D>) returns (ok: bool)
      requires 0 <= from < CURRENT && Between(p, start, from, from) && forall w :: w in start.ledger() ==> w <= from
      requires given.Given? ==> Upgradable(given.original, given.c) && Same(disk.backups[p], given.original)
      modifies this
      ensures ok <==> fate.StepsGo(from)
      ensures ok ==> Between(p, start, from, CURRENT)
      ensures disk.backups == old(disk).backups
      ensures Went(old(disk), old(trace), MigrateSteps(schema, old(disk), p, from + 1, fate))
      ensures disk.status == old(disk).status || (!ok && disk.status == None)
      ensures fate.Atomic(from) ==> disk.status == old(disk).status && OkSince(given, old(trace))
    {
      var v := from + 1;
      ghost var before, d0, so := trace, disk, [];
      ghost var all := MigrateSteps(schema, disk, p, from + 1, fate);
      AllOkToBegin(given, trace);
      while v <= CURRENT
        invariant Migrating(v, from, p, fate, start, given, d0, before, so, all)
      {
        ok, so := MigrateNext(v, from, p, fate, start, given, d0, before, so, all);
        if !ok {
          return;
        }
        v := v + 1;
      }
      NoMoreMigrations(from, p, fate, start, given, d0, before, so, all);
      ok := true;
    }

    /** The migrations before v are in and the disk has gone through `so` of the states of `all`. */
    ghost predicate Migrating(v: int, from: int, p: nat, fate: Fate<D>, start: Image<D>, given: Given<D>,
                              d0: Disk<D>, before: seq<Disk<D>>, so: seq<Disk<D>>, all: seq<Disk<D>>)
      reads this
    {
      && 0 <= from < v <= CURRENT + 1 && fate.GoesUpto(from, v - 1) && Between(p, start, from, v - 1)
      && (forall w :: w in start.ledger() ==> w <= from)
      && (given.Given? ==> Upgradable(given.original, given.c) && Same(disk.backups[p], given.original))
      && disk.status == d0.status && disk.backups == d0.backups
      && Went(d0, before, so) && all == so + MigrateSteps(schema, disk, p, v, fate)
      && (fate.Atomic(from) ==> AllOk(given, before, trace))
    }

    method MigrateNext(v: int, ghost from: int, p: nat, fate: Fate<D>, ghost start: Image<D>, ghost given: Given<D>,
                       ghost d0: Disk<D>, ghost before: seq<Disk<D>>, ghost so: seq<Disk<D>>, ghost all: seq<Disk<D>>)
        returns (ok: bool, ghost more: seq<Disk<D>>)
      requires v <= CURRENT && Migrating(v, from, p, fate, start, given, d0, before, so, all)
      modifies this
      ensures ok ==> Migrating(v + 1, from, p, fate, start, given, d0, before, more, all)
      ensures !ok ==> !fate.StepsGo(from) && disk.backups == d0.backups && Went(d0, before, all)
      ensures !ok ==> disk.status == d0.status || disk.status == None
      ensures !ok && fate.Atomic(from) ==> disk.status == d0.status && AllOk(given, before, trace)
    {
      OneMoreGoes(fate, from, v);
      ok := MigrateOne(v, p, fate.steps(v), start, from, given);
      more := OneMoreMigration(schema, d0, before, so, old(disk), p, v, fate, all);
      if fate.Atomic(from) {
        AllOkThen(given, before, old(trace), trace);
      }
    }

    lemma AllOkToBegin(given: Given<D>, trace: seq<Disk<D>>)
      ensures AllOk(given, trace, trace)
    {
    }

    lemma NoMoreMigrations(from: int, p: nat, fate: Fate<D>, start: Image<D>, given: Given<D>,
                           d0: Disk<D>, before: seq<Disk<D>>, so: seq<Disk<D>>, all: seq<Disk<D>>)
      requires Migrating(CURRENT + 1, from, p, fate, start, given, d0, before, so, all)
      ensures fate.StepsGo(from) && Between(p, start, from, CURRENT) && Went(d0, before, all)
      ensures disk.backups == d0.backups && disk.status == d0.status && (fate.Atomic(from) ==> AllOk(given, before, trace))
    {
      assert all == so;
    }

    lemma OneMoreGoes(fate: Fate<D>, from: int, v: int)
      requires from < v <= CURRENT && fate.GoesUpto(from, v - 1)
      ensures fate.steps(v).Goes() ==> fate.GoesUpto(from, v)
      ensures !fate.steps(v).Goes() ==> !fate.StepsGo(from)
    {
    }

    lemma OneMoreMigration(schema: Schema<D>, d0: Disk<D>, before: seq<Disk<D>>, so: seq<Disk<D>>, d1: Disk<D>, p: nat, v: int,
                           fate: Fate<D>, all: seq<Disk<D>>) returns (more: seq<Disk<D>>)
      requires v <= CURRENT && d1 == Last(d0, so) && all == so + MigrateSteps(schema, d1, p, v, fate)
      ensures more == so + MigrateOneSteps(schema, d1, p, v, fate.steps(v))
      ensures before + so + MigrateOneSteps(schema, d1, p, v, fate.steps(v)) == before + more
      ensures Last(d1, MigrateOneSteps(schema, d1, p, v, fate.steps(v))) == Last(d0, more)
      ensures all == if fate.steps(v).Goes() then more + MigrateSteps(schema, Last(d0, more), p, v + 1, fate) else more
    {
      var one := MigrateOneSteps(schema, d1, p, v, fate.steps(v));
      more := so + one;
      GoOn(d0, before, so, one);
      if fate.steps(v).Goes() {
        GoOn(d0, so, one, MigrateSteps(schema, Last(d1, one), p, v + 1, fate));
      }
    }

    /** Every state behind the first ones is safe. */
    ghost predicate AllOk(given: Given<D>, before: seq<Disk<D>>, after: seq<Disk<D>>) {
      before <= after && forall i :: |before| <= i < |after| ==> Ok(given, after[i])
    }

    lemma AllOkThen(given: Given<D>, a: seq<Disk<D>>, b: seq<Disk<D>>, c: seq<Disk<D>>)
      requires AllOk(given, a, b) && AllOk(given, b, c)
      ensures AllOk(given, a, c)
    {
      forall i | |a| <= i < |b|
        ensures Ok(given, c[i])
      {
        assert c[i] == b[i];
      }
    }

    /** Write the status file, then its copy inside the database. */
    method SetUpgradeState(state: StatusFile, w: StatusWrite, copied: bool) returns (ok: bool)
      modifies this
      ensures ok <==> w.Ok() && copied
      ensures disk == old(disk).(status := AfterWrite(old(disk).status, state, w))
      ensures Went(old(disk), old(trace), WriteSteps(old(disk), state, w))
    {
      WriteStatus(state, w);
      ok := w.Ok() && copied;
    }

    /** Back up, then bring the database from version `from` to the current one, or put it back. */
    method Upgrade(from: int, name: nat, fate: Fate<D>, ghost given: Given<D>) returns (outcome: Outcome)
      requires Ok(given, disk) && !disk.Upgrading() && disk.db.Whole? && name !in disk.backups
      requires 0 <= from < CURRENT && forall w :: w in disk.db.image.ledger() ==> w <= from
      requires given.Given? ==> from == given.c && Same(disk.db.image, given.original)
      modifies this
      ensures outcome == UpgradeOutcome(fate, from)
      ensures outcome.Opened? ==> !disk.Upgrading() && old(disk).db.Whole? && disk.db == Whole(Finished(schema, old(disk).db.image, from))
      ensures outcome.Refused? || outcome == RolledBack(true) ==> disk.db == old(disk).db
      ensures outcome != RolledBack(false) ==> Ok(given, disk)
      ensures outcome != RolledBack(false) && fate.Atomic(from) && !fate.Unguarded(from) ==> OkSince(given, old(trace))
      ensures fate.rollback >= 3 && fate.Atomic(from) && fate.Unguarded(from) ==> ExposedSince(old(trace))
      ensures Went(old(disk), old(trace), UpgradeSteps(schema, old(disk), name, from, fate))
    {
      if fate.backup {
        outcome := UpgradeFromBackup(from, name, fate, given);
      } else {
        outcome := Refuse(Failed, fate, given);
      }
    }

    method UpgradeFromBackup(from: int, name: nat, fate: Fate<D>, ghost given: Given<D>) returns (outcome: Outcome)
      requires Ok(given, disk) && !disk.Upgrading() && disk.db.Whole? && name !in disk.backups && fate.backup
      requires 0 <= from < CURRENT && forall w :: w in disk.db.image.ledger() ==> w <= from
      requires given.Given? ==> from == given.c && Same(disk.db.image, given.original)
      modifies this
      ensures outcome == UpgradeOutcome(fate, from)
      ensures outcome.Opened? ==> !disk.Upgrading() && old(disk).db.Whole? && disk.db == Whole(Finished(schema, old(disk).db.image, from))
      ensures outcome == RolledBack(true) ==> disk.db == old(disk).db
      ensures outcome != RolledBack(false) ==> Ok(given, disk)
      ensures outcome != RolledBack(false) && fate.Atomic(from) && !fate.Unguarded(from) ==> OkSince(given, old(trace))
      ensures fate.rollback >= 3 && fate.Atomic(from) && fate.Unguarded(from) ==> ExposedSince(old(trace))
      ensures Went(old(disk), old(trace), UpgradeSteps(schema, old(disk), name, from, fate))
    {
      ghost var d, t := disk, trace;
      Put(disk.(backups := disk.backups[name := disk.db.image]));
      if fate.table {
        outcome := UpgradeWithTable(from, name, fate, given, d, t);
      } else {
        outcome := UpgradeWithoutTable(from, name, fate, given, d, t);
      }
    }

    /** The ledger table could be made. */
    method UpgradeWithTable(from: int, name: nat, fate: Fate<D>, ghost given: Given<D>, ghost d: Disk<D>, ghost t: seq<Disk<D>>)
        returns (outcome: Outcome)
      requires BackedUp(from, name, fate, given, d, t) && fate.table
      modifies this
      ensures outcome == UpgradeOutcome(fate, from)
      ensures outcome.Opened? ==> !disk.Upgrading() && disk.db == Whole(Finished(schema, d.db.image, from))
      ensures outcome == RolledBack(true) ==> disk.db == d.db
      ensures outcome != RolledBack(false) ==> Ok(given, disk)
      ensures outcome != RolledBack(false) && fate.Atomic(from) && !fate.Unguarded(from) ==> OkSince(given, t)
      ensures fate.rollback >= 3 && fate.Atomic(from) && fate.Unguarded(from) ==> ExposedSince(t)
      ensures Went(d, t, UpgradeSteps(schema, d, name, from, fate))
    {
      ghost var d1, t1 := disk, trace;
      Put(disk.(db := Whole(disk.db.image.WithTable())));
      ghost var d2, t2 := disk, trace;
      TabledIsOk(name, given, d, t, d1, d2, t2);
      outcome := BeginUpgrade(from, name, fate, d.db.image, given);
      GoOn(d1, t1, [d2], BeginSteps(schema, d2, name, from, fate));
      GoOn(d, t, [d1], [d2] + BeginSteps(schema, d2, name, from, fate));
      if AllOk(given, t2, trace) {
        AllOkThen(given, t, t2, trace);
      }
    }

    lemma TabledIsOk(name: nat, given: Given<D>, d: Disk<D>, t: seq<Disk<D>>, d1: Disk<D>, d2: Disk<D>, t2: seq<Disk<D>>)
      requires Ok(given, d) && !d.Upgrading() && d.db.Whole? && (given.Given? ==> Same(d.db.image, given.original))
      requires d1 == d.(backups := d.backups[name := d.db.image]) && d2 == d1.(db := Whole(d.db.image.WithTable()))
      requires t2 == t + [d1] + [d2]
      ensures AllOk(given, t, t2) && Ok(given, d2) && !d2.Upgrading()
    {
      forall i | |t| <= i < |t2|
        ensures Ok(given, t2[i])
      {
        assert t2[i] == if i == |t| then d1 else d2;
      }
    }

    /** It could not. */
    method UpgradeWithoutTable(from: int, name: nat, fate: Fate<D>, ghost given: Given<D>, ghost d: Disk<D>, ghost t: seq<Disk<D>>)
        returns (outcome: Outcome)
      requires BackedUp(from, name, fate, given, d, t) && !fate.table
      modifies this
      ensures outcome == UpgradeOutcome(fate, from)
      ensures outcome.Opened? ==> !disk.Upgrading() && disk.db == Whole(Finished(schema, d.db.image, from))
      ensures outcome == RolledBack(true) ==> disk.db == d.db
      ensures outcome != RolledBack(false) ==> Ok(given, disk)
      ensures outcome != RolledBack(false) && fate.Atomic(from) && !fate.Unguarded(from) ==> OkSince(given, t)
      ensures fate.rollback >= 3 && fate.Atomic(from) && fate.Unguarded(from) ==> ExposedSince(t)
      ensures Went(d, t, UpgradeSteps(schema, d, name, from, fate))
    {
      ghost var d1 := disk;
      outcome := Rollback(name, fate, given);
      GoOn(d, t, [d1], RollbackSteps(d1, name, fate));
    }

    /** The backup has been made of d, when the trace was t. */
    ghost predicate BackedUp(from: int, name: nat, fate: Fate<D>, given: Given<D>, d: Disk<D>, t: seq<Disk<D>>)
      reads this
    {
      && Ok(given, d) && !d.Upgrading() && d.db.Whole? && fate.backup
      && 0 <= from < CURRENT && (forall w :: w in d.db.image.ledger() ==> w <= from)
      && (given.Given? ==> from == given.c && Same(d.db.image, given.original))
      && disk == d.(backups := d.backups[name := d.db.image]) && trace == t + [disk]
    }

    /** Say that the upgrade is in progress, then run it. */
    method BeginUpgrade(from: int, name: nat, fate: Fate<D>, ghost start: Image<D>, ghost given: Given<D>) returns (outcome: Outcome)
      requires Ok(given, disk) && !disk.Upgrading() && name in disk.backups && disk.backups[name] == start && fate.backup && fate.table
      requires 0 <= from < CURRENT && disk.db == Whole(start.WithTable()) && forall w :: w in start.ledger() ==> w <= from
      requires given.Given? ==> from == given.c && Same(start, given.original)
      modifies this
      ensures outcome == UpgradeOutcome(fate, from)
      ensures outcome.Opened? ==> !disk.Upgrading() && disk.db == Whole(Finished(schema, start, from))
      ensures outcome == RolledBack(true) ==> disk.db == Whole(start)
      ensures outcome != RolledBack(false) ==> Ok(given, disk)
      ensures outcome != RolledBack(false) && fate.Atomic(from) && !fate.Unguarded(from) ==> OkSince(given, old(trace))
      ensures fate.rollback >= 3 && fate.Atomic(from) && fate.Unguarded(from) ==> ExposedSince(old(trace))
      ensures Went(old(disk), old(trace), BeginSteps(schema, old(disk), name, from, fate))
    {
      var ok := SetUpgradeState(StatusFile(InProgress, Some(name)), fate.begun, fate.begunCopied);
      ghost var d, t, written := old(disk), old(trace), WriteSteps(old(disk), StatusFile(InProgress, Some(name)), fate.begun);
      if ok {
        outcome := GoAhead(from, name, fate, start, given, d, t, written);
      } else {
        outcome := GoBack(from, name, fate, start, given, d, t, written);
      }
    }

    /** The status file and its copy say that the upgrade is in progress. */
    method GoAhead(from: int, name: nat, fate: Fate<D>, ghost start: Image<D>, ghost given: Given<D>,
                   ghost d: Disk<D>, ghost t: seq<Disk<D>>, ghost written: seq<Disk<D>>) returns (outcome: Outcome)
      requires Begun(from, name, fate, start, given, d, t, written) && fate.begun.Ok() && fate.begunCopied
      modifies this
      ensures outcome == UpgradeOutcome(fate, from)
      ensures outcome.Opened? ==> !disk.Upgrading() && disk.db == Whole(Finished(schema, start, from))
      ensures outcome == RolledBack(true) ==> disk.db == Whole(start)
      ensures outcome != RolledBack(false) ==> Ok(given, disk)
      ensures outcome != RolledBack(false) && fate.Atomic(from) && !fate.Unguarded(from) ==> OkSince(given, t)
      ensures fate.rollback >= 3 && fate.Atomic(from) && fate.Unguarded(from) ==> ExposedSince(t)
      ensures Went(d, t, written + RunUpgradeSteps(schema, old(disk), name, from, fate))
    {
      BegunIsBetween(from, name, fate, start, given, d, t, written);
      ghost var t1 := trace;
      outcome := RunUpgrade(from, name, fate, start, given);
      GoOn(d, t, written, RunUpgradeSteps(schema, old(disk), name, from, fate));
      if AllOk(given, t, t1) && AllOk(given, t1, trace) {
        AllOkThen(given, t, t1, trace);
      }
    }

    lemma BegunIsBetween(from: int, name: nat, fate: Fate<D>, start: Image<D>, given: Given<D>, d: Disk<D>, t: seq<Disk<D>>,
                         written: seq<Disk<D>>)
      requires Begun(from, name, fate, start, given, d, t, written) && fate.begun.Ok()
      ensures Between(name, start, from, from)
      ensures fate.begun.Atomic() ==> AllOk(given, t, trace)
    {
      assert start.ledger() + (Upto(from) - Upto(from)) == start.ledger();
    }

    /** One of them does not. */
    method GoBack(from: int, name: nat, fate: Fate<D>, ghost start: Image<D>, ghost given: Given<D>,
                  ghost d: Disk<D>, ghost t: seq<Disk<D>>, ghost written: seq<Disk<D>>) returns (outcome: Outcome)
      requires Begun(from, name, fate, start, given, d, t, written) && !(fate.begun.Ok() && fate.begunCopied)
      modifies this
      ensures outcome == UpgradeOutcome(fate, from)
      ensures outcome.Opened? ==> !disk.Upgrading() && disk.db == Whole(Finished(schema, start, from))
      ensures outcome == RolledBack(true) ==> disk.db == Whole(start)
      ensures outcome != RolledBack(false) ==> Ok(given, disk)
      ensures outcome != RolledBack(false) && fate.Atomic(from) && !fate.Unguarded(from) ==> OkSince(given, t)
      ensures fate.rollback >= 3 && fate.Atomic(from) && fate.Unguarded(from) ==> ExposedSince(t)
      ensures Went(d, t, written + RollbackSteps(old(disk), name, fate))
    {
      ghost var t1 := trace;
      assert fate.begun.Atomic() ==> AllOk(given, t, t1);
      outcome := Rollback(name, fate, given);
      GoOn(d, t, written, RollbackSteps(old(disk), name, fate));
      if AllOk(given, t, t1) && AllOk(given, t1, trace) {
        AllOkThen(given, t, t1, trace);
      }
    }

    /** The status file was to say that the upgrade is in progress; before that the disk was d and the trace t. */
    ghost predicate Begun(from: int, name: nat, fate: Fate<D>, start: Image<D>, given: Given<D>, d: Disk<D>, t: seq<Disk<D>>,
                          written: seq<Disk<D>>)
      reads this
    {
      && Ok(given, d) && !d.Upgrading() && name in d.backups && d.backups[name] == start && fate.backup && fate.table
      && 0 <= from < CURRENT && d.db == Whole(start.WithTable()) && (forall w :: w in start.ledger() ==> w <= from)
      && (given.Given? ==> from == given.c && Same(start, given.original))
      && written == WriteSteps(d, StatusFile(InProgress, Some(name)), fate.begun) && Went(d, t, written)
      && disk == d.(status := AfterWrite(d.status, StatusFile(InProgress, Some(name)), fate.begun))
    }

    /** The upgrade proper, once the status file says that it is in progress. */
    method RunUpgrade(from: int, name: nat, fate: Fate<D>, ghost start: Image<D>, ghost given: Given<D>) returns (outcome: Outcome)
      requires 0 <= from < CURRENT && Between(name, start, from, from) && forall w :: w in start.ledger() ==> w <= from
      requires given.Given? ==> Upgradable(given.original, given.c) && from == given.c && Same(start, given.original)
      requires disk.backups[name] == start
      modifies this
      ensures outcome == if fate.StepsGo(from) && fate.done.Ok() && fate.doneCopied then Opened else RolledBack(fate.rollback >= 3)
      ensures outcome.Opened? ==> !disk.Upgrading() && disk.db == Whole(Finished(schema, start, from))
      ensures outcome == RolledBack(true) ==> disk.db == Whole(start)
      ensures outcome != RolledBack(false) ==> Ok(given, disk)
      ensures outcome != RolledBack(false) && fate.Atomic(from) && !(fate.StepsGo(from) && fate.done.Ok() && !fate.doneCopied) ==>
        OkSince(given, old(trace))
      ensures fate.rollback >= 3 && fate.StepsGo(from) && fate.done.Ok() && !fate.doneCopied ==> ExposedSince(old(trace))
      ensures Went(old(disk), old(trace), RunUpgradeSteps(schema, old(disk), name, from, fate))
    {
      ghost var migrated := MigrateSteps(schema, disk, name, from + 1, fate);
      var ok := MigrateAll(from, name, fate, start, given);
      ghost var d1 := disk;
      if ok {
        outcome := EndUpgrade(from, name, fate, start, given);
        GoOn(old(disk), old(trace), migrated, EndSteps(d1, name, fate));
      } else {
        outcome := Rollback(name, fate, given);
        GoOn(old(disk), old(trace), migrated, RollbackSteps(d1, name, fate));
      }
    }

    /** Say that the upgrade is complete. */
    method EndUpgrade(from: int, name: nat, fate: Fate<D>, ghost start: Image<D>, ghost given: Given<D>) returns (outcome: Outcome)
      requires from < CURRENT && Between(name, start, from, CURRENT) && disk.backups[name] == start
      requires given.Given? ==> Upgradable(given.original, given.c) && from == given.c && Same(start, given.original)
      modifies this
      ensures outcome == if fate.done.Ok() && fate.doneCopied then Opened else RolledBack(fate.rollback >= 3)
      ensures outcome.Opened? ==> !disk.Upgrading() && disk.db == Whole(Finished(schema, start, from))
      ensures outcome == RolledBack(true) ==> disk.db == Whole(start)
      ensures outcome != RolledBack(false) ==> Ok(given, disk)
      ensures outcome != RolledBack(false) && fate.done.Atomic() && !(fate.done.Ok() && !fate.doneCopied) ==> OkSince(given, old(trace))
      ensures fate.rollback >= 3 && fate.done.Ok() && !fate.doneCopied ==> ExposedSince(old(trace))
      ensures Went(old(disk), old(trace), EndSteps(old(disk), name, fate))
    {
      FinishedIsUpgraded(given, start, from);
      ghost var written := WriteSteps(disk, StatusFile(Complete, Some(name)), fate.done);
      var ok := SetUpgradeState(StatusFile(Complete, Some(name)), fate.done, fate.doneCopied);
      ghost var d1 := disk;
      if ok {
        outcome := Opened;
      } else {
        outcome := Rollback(name, fate, given);
        GoOn(old(disk), old(trace), written, RollbackSteps(d1, name, fate));
      }
    }

    lemma FinishedIsUpgraded(given: Given<D>, start: Image<D>, from: int)
      requires from < CURRENT
      requires given.Given? ==> Upgradable(given.original, given.c) && from == given.c && Same(start, given.original)
      ensures given.Given? ==> Upgraded(schema, given.original, given.c, Finished(schema, start, from))
    {
      if given.Given? {
        assert Upto(from) + (Upto(CURRENT) - Upto(from)) == Upto(CURRENT);
      }
    }

    /** Decide where the database stands and upgrade it if it is behind. */
    method Migrate(name: nat, fate: Fate<D>, ghost given: Given<D>) returns (outcome: Outcome)
      requires Ok(given, disk) && !disk.Upgrading() && disk.db.Whole? && name !in disk.backups
      modifies this
      ensures outcome.Opened? ==> disk.db.Whole? && !disk.Upgrading()
      ensures outcome.Opened? && given.Given? ==> Upgraded(schema, given.original, given.c, disk.db.image)
      ensures outcome.Refused? || outcome == RolledBack(true) ==> disk.db == old(disk).db
      ensures outcome == DecideOutcome(old(disk).db.image, fate)
      ensures outcome == RolledBack(false) ==> fate.rollback < 3
      ensures outcome != RolledBack(false) ==> Ok(given, disk)
      ensures outcome != RolledBack(false) && given.Given? && fate.Atomic(given.c) && !fate.Unguarded(given.c) ==>
        OkSince(given, old(trace))
      ensures given.Given? && fate.inspects && fate.table && (Behind(given, old(disk)) ==> fate.Finishes(given.c)) ==> outcome.Opened?
      ensures Behind(given, old(disk)) && fate.inspects && fate.rollback >= 3 && fate.Atomic(given.c) && fate.Unguarded(given.c) ==>
        ExposedSince(old(trace))
      ensures Went(old(disk), old(trace), DecideSteps(schema, old(disk), name, fate))
    {
      var image := disk.db.image;
      if !fate.inspects {
        outcome := Refuse(Failed, fate, given);
        return;
      }
      var version := VersionFor(image);
      VersionOf(given, image, version);
      if version.None? || version.value > CURRENT {
        outcome := Refuse(if version.None? then Failed else Incompatible, fate, given);
        return;
      }
      if version.value < CURRENT {
        outcome := Upgrade(version.value, name, fate, given);
        FinishedIsUpgraded(given, image, version.value);
        return;
      }
      if !fate.table {
        outcome := Refuse(Failed, fate, given);
        return;
      }
      Put(disk.(db := Whole(image.WithTable())));
      outcome := Opened;
    }

    /** The version of a database: too new by user_version, without a ledger, or what the ledger says. */
    static method VersionFor(image: Image<D>) returns (version: Option<int>)
      ensures version == StandsAt(image)
      ensures version.None? ==> forall v :: !IsVersion(image, v)
      ensures version.Some? ==> if image.userVersion > CURRENT then version.value > CURRENT else IsVersion(image, version.value)
    {
      if image.userVersion > CURRENT {
        return Some(image.userVersion);
      }
      if image.table.None? {
        OneVersion(image, 0);
        return Some(0);
      }
      version := LedgerVersion(image);
      if version.Some? {
        OneVersion(image, version.value);
      }
    }

    static lemma OneVersion(image: Image<D>, version: int)
      requires image.userVersion <= CURRENT && IsVersion(image, version)
      ensures StandsAt(image) == Some(version)
    {
      VersionIsUnique(image, version, StandsAt(image).value);
    }

    /** A safe database is at the version its owner left it at, or already at the current one. */
    lemma VersionOf(given: Given<D>, image: Image<D>, version: Option<int>)
      requires version.None? ==> forall v :: !IsVersion(image, v)
      requires version.Some? ==> if image.userVersion > CURRENT then version.value > CURRENT else IsVersion(image, version.value)
      requires given.Given? ==> Upgradable(given.original, given.c)
      requires given.Given? ==> Same(image, given.original) || Upgraded(schema, given.original, given.c, image)
      ensures given.Given? ==> version.Some? && version.value <= CURRENT
      ensures version.Some? && version.value <= CURRENT ==> version.value >= 0 && forall w :: w in image.ledger() ==> w <= version.value
      ensures given.Given? && version.value < CURRENT ==> version.value == given.c && Same(image, given.original)
      ensures given.Given? && version.value == CURRENT ==> Upgraded(schema, given.original, given.c, image.WithTable())
    {
      if given.Given? {
        var m: nat := if Same(image, given.original) then given.c else CURRENT;
        if image.table.Some? {
          assert LedgerSays(image, m, m);
          assert IsVersion(image, m);
        } else {
          assert IsVersion(image, 0);
        }
        VersionIsUnique(image, version.value, if image.table.Some? then m else 0);
      }
      if version.Some? && version.value <= CURRENT && image.table.Some? {
        var n: nat :| LedgerSays(image, n, version.value);
      }
    }

    /** Recover what an earlier process left behind, let SQLite open the file, then migrate. */
    method Open(name: nat, fate: Fate<D>, ghost given: Given<D>) returns (outcome: Outcome)
      requires Ok(given, disk) && name !in disk.backups
      modifies this
      ensures outcome.Opened? ==> disk.db.Whole? && !disk.Upgrading()
      ensures outcome.Opened? && given.Given? ==> Upgraded(schema, given.original, given.c, disk.db.image)
      ensures given.Given? && fate.Restores() ==> Ok(given, disk)
      ensures given.Given? && fate.Restores() && fate.Atomic(given.c) && !fate.Unguarded(given.c) ==> OkSince(given, old(trace))
      ensures given.Given? && fate.Perfect(given.c) ==> outcome.Opened?
      ensures outcome == OpenOutcome(schema, old(disk), fate)
      ensures Behind(given, old(disk)) && fate.looks && fate.inspects && fate.Restores() && fate.Atomic(given.c) ==>
        (OkSince(given, old(trace)) <==> !fate.Unguarded(given.c))
      ensures Went(old(disk), old(trace), OpenSteps(schema, old(disk), name, fate))
      ensures FirstTime(old(disk)) && outcome.Opened? ==> Upgraded(schema, Image(schema.created, None, 0), 0, disk.db.image)
      ensures FirstTime(old(disk)) && fate.looks && fate.inspects && fate.Finishes(0) ==> outcome.Opened?
    {
      ghost var recovery := RecoverSteps(disk, fate);
      var recovered := Recover(fate, given);
      if !recovered || disk.db.Torn? {
        return Refused;
      }
      ghost var entered, known := recovery, given;
      if disk.db.Missing? {
        known := Given(Image(schema.created, None, 0), 0);
        entered := recovery + [disk.(db := Whole(Image(schema.created, None, 0)))];
        Put(disk.(db := Whole(Image(schema.created, None, 0))));
        GoOn(old(disk), old(trace), recovery, [disk]);
      }
      ghost var d1 := disk;
      outcome := Migrate(name, fate, known);
      GoOn(old(disk), old(trace), entered, DecideSteps(schema, d1, name, fate));
    }
  }

  /** There is no database yet, and none to recover. */
  predicate FirstTime<D>(d: Disk<D>) {
    d.db.Missing? && !d.Upgrading()
  }

  /** The original is there and not yet at the current version. */
  predicate Behind<D(==)>(given: Given<D>, d: Disk<D>) {
    given.Given? && given.c < CURRENT && !d.Upgrading() && d.db.Whole? && Same(d.db.image, given.original)
  }

  predicate Recoverable<D>(d: Disk<D>) {
    d.Upgrading() && d.status.value.backup.Some? && d.status.value.backup.value in d.backups
  }

  method FreshName<D>(backups: map<nat, Image<D>>) returns (name: nat)
    ensures name !in backups
  {
    name := 0;
    var rest := backups.Keys;
    while rest != {}
      invariant rest <= backups.Keys
      invariant forall k :: k in backups && k !in rest ==> k < name
      decreases |rest|
    {
      var k := Pick(rest);
      if k >= name {
        name := k + 1;
      }
      rest := rest - {k};
    }
  }

  /** One open, and the disk its process leaves behind: where it ended, or where it was killed. */
  method Boot<D(==,0)>(store: Store<D>, life: Life<D>, ghost given: Given<D>) returns (done: bool, ghost name: nat)
    requires store.Ok(given, store.disk)
    modifies store
    ensures IsBoot(store.schema, old(store.disk), name, life, store.disk)
    ensures done <==> Succeeds(store.schema, old(store.disk), life)
    ensures given.Given? && life.Gentle(given.c) ==> store.Ok(given, store.disk)
    ensures given.Given? && done ==> store.disk.db.Whole? && Upgraded(store.schema, given.original, given.c, store.disk.db.image)
    ensures given.Given? && life.Perfect(given.c) ==> done
  {
    var drawn := FreshName(store.disk.backups);
    name := drawn;
    var before, mark := store.disk, |store.trace|;
    ghost var steps := OpenSteps(store.schema, before, drawn, life.fate);
    var outcome := store.Open(drawn, life.fate, given);
    done := outcome.Opened? && life.killed.None?;
    if life.killed.Some? {
      assert store.trace[mark..] == steps;
      OkWhereCut(store, given, before, store.trace[..mark], steps, life.killed.value);
      store.disk := Cut(before, store.trace[mark..], life.killed.value);
    }
  }

  lemma OkWhereCut<D(0)>(store: Store<D>, given: Given<D>, d: Disk<D>, t: seq<Disk<D>>, steps: seq<Disk<D>>, at: nat)
    requires store.Ok(given, d)
    ensures store.AllOk(given, t, t + steps) ==> store.Ok(given, KilledAt(d, steps, at))
  {
    if store.AllOk(given, t, t + steps) && steps != [] && at > 0 {
      var k := |t| + (if at <= |steps| then at else |steps|) - 1;
      assert store.Ok(given, (t + steps)[k]);
    }
  }

  /** What a process leaves behind that is killed after `at` changes. */
  method Cut<D>(before: Disk<D>, changes: seq<Disk<D>>, at: nat) returns (left: Disk<D>)
    ensures left == KilledAt(before, changes, at)
  {
    if at == 0 || changes == [] {
      left := before;
    } else {
      left := changes[if at <= |changes| then at - 1 else |changes| - 1];
    }
  }

  /** Each disk is what one more open left of the one before; `names` are those the backups got. */
  ghost predicate AreBoots<D>(schema: Schema<D>, disks: seq<Disk<D>>, names: seq<nat>, lives: seq<Life<D>>) {
    && |disks| == |names| + 1 && |names| <= |lives|
    && forall i {:trigger names[i]} :: 0 <= i < |names| ==> IsBoot(schema, disks[i], names[i], lives[i], disks[i + 1])
  }

  ghost predicate IsBoot<D>(schema: Schema<D>, d: Disk<D>, p: nat, life: Life<D>, after: Disk<D>) {
    p !in d.backups && after == BootDisk(schema, d, p, life)
  }

  /** The open succeeds and its process lives on. */
  ghost predicate Succeeds<D>(schema: Schema<D>, d: Disk<D>, life: Life<D>) {
    OpenOutcome(schema, d, life.fate).Opened? && life.killed.None?
  }

  /** Any number of opens up to the first that succeeds, each of which may fail anywhere or be killed between any two changes
      to the disk. If restores succeed where they are needed and no process is killed while it rolls back unguarded, the
      original is never lost, the open that succeeds has applied every missing migration exactly once and in order, and an
      open in which nothing fails succeeds. */
  method Boots<D(==,0)>(store: Store<D>, lives: seq<Life<D>>, ghost original: Image<D>, ghost c: nat)
      returns (done: bool, ghost disks: seq<Disk<D>>, ghost names: seq<nat>)
    requires Upgradable(original, c) && Safe(store.schema, original, c, store.disk)
    modifies store
    ensures AreBoots(store.schema, disks, names, lives) && disks[0] == old(store.disk) && disks[|names|] == store.disk
    ensures SucceedsLast(store.schema, disks, names, lives, done)
    ensures if done then names != [] else |names| == |lives|
    ensures SafeWhileGentle(store.schema, original, c, disks, names, lives)
    ensures GentleUpto(lives, c, |names|) && done ==>
      store.disk.db.Whole? && Upgraded(store.schema, original, c, store.disk.db.image)
    ensures PerfectOneSucceeds(lives, c, |names|, done)
  {
    done, disks, names := false, [store.disk], [];
    for i := 0 to |lives|
      invariant |names| == i && AreBoots(store.schema, disks, names, lives) && disks[0] == old(store.disk) && disks[i] == store.disk
      invariant SucceedsLast(store.schema, disks, names, lives, false) && !done
      invariant SafeWhileGentle(store.schema, original, c, disks, names, lives)
      invariant PerfectOneSucceeds(lives, c, i, false)
    {
      ghost var name;
      ghost var given := if GentleUpto(lives, c, i) then Given(original, c) else Nothing;
      done, name := Boot(store, lives[i], given);
      OneMoreBoot(store.schema, original, c, disks, names, lives, name, store.disk, done);
      disks, names := disks + [store.disk], names + [name];
      if done {
        return;
      }
    }
  }

  /** Only the last of the opens succeeded, and that only if `done`. */
  ghost predicate SucceedsLast<D>(schema: Schema<D>, disks: seq<Disk<D>>, names: seq<nat>, lives: seq<Life<D>>, done: bool)
    requires |disks| == |names| + 1 && |names| <= |lives|
  {
    forall i {:trigger lives[i]} :: 0 <= i < |names| ==> (Succeeds(schema, disks[i], lives[i]) <==> done && i == |names| - 1)
  }

  /** The original is never lost as long as every process has been gentle. */
  ghost predicate SafeWhileGentle<D>(schema: Schema<D>, original: Image<D>, c: nat, disks: seq<Disk<D>>, names: seq<nat>,
                                         lives: seq<Life<D>>)
    requires c <= CURRENT && |disks| == |names| + 1 && |names| <= |lives|
  {
    forall i {:trigger disks[i]} :: 0 <= i <= |names| && GentleUpto(lives, c, i) ==> Safe(schema, original, c, disks[i])
  }

  /** The first process in which nothing goes wrong opens the database. */
  ghost predicate PerfectOneSucceeds<D>(lives: seq<Life<D>>, c: nat, n: nat, done: bool)
    requires n <= |lives|
  {
    forall i :: 0 <= i < n && GentleUpto(lives, c, i) && lives[i].Perfect(c) ==> done
  }

  lemma OneMoreBoot<D>(schema: Schema<D>, original: Image<D>, c: nat, disks: seq<Disk<D>>, names: seq<nat>, lives: seq<Life<D>>,
                       name: nat, after: Disk<D>, done: bool)
    requires c <= CURRENT && |names| < |lives| && AreBoots(schema, disks, names, lives)
    requires SucceedsLast(schema, disks, names, lives, false) && SafeWhileGentle(schema, original, c, disks, names, lives)
    requires IsBoot(schema, disks[|names|], name, lives[|names|], after)
    requires done <==> Succeeds(schema, disks[|names|], lives[|names|])
    requires PerfectOneSucceeds(lives, c, |names|, false)
    requires GentleUpto(lives, c, |names|) && lives[|names|].Gentle(c) ==> Safe(schema, original, c, after)
    requires GentleUpto(lives, c, |names|) && lives[|names|].Perfect(c) ==> done
    ensures PerfectOneSucceeds(lives, c, |names| + 1, done)
    ensures AreBoots(schema, disks + [after], names + [name], lives)
    ensures SucceedsLast(schema, disks + [after], names + [name], lives, done)
    ensures SafeWhileGentle(schema, original, c, disks + [after], names + [name], lives)
  {
    OneMoreInARow(schema, disks, names, lives, name, after);
    OneMoreSafe(schema, original, c, disks, names, lives, name, after);
    OneMoreSuccess(schema, disks, names, lives, name, after, done);
  }

  lemma OneMoreInARow<D>(schema: Schema<D>, disks: seq<Disk<D>>, names: seq<nat>, lives: seq<Life<D>>, name: nat, after: Disk<D>)
    requires |names| < |lives| && AreBoots(schema, disks, names, lives)
    requires IsBoot(schema, disks[|names|], name, lives[|names|], after)
    ensures AreBoots(schema, disks + [after], names + [name], lives)
  {
  }

  lemma OneMoreSafe<D>(schema: Schema<D>, original: Image<D>, c: nat, disks: seq<Disk<D>>, names: seq<nat>, lives: seq<Life<D>>,
                       name: nat, after: Disk<D>)
    requires c <= CURRENT && |disks| == |names| + 1 && |names| < |lives|
    requires SafeWhileGentle(schema, original, c, disks, names, lives)
    requires GentleUpto(lives, c, |names|) && lives[|names|].Gentle(c) ==> Safe(schema, original, c, after)
    ensures SafeWhileGentle(schema, original, c, disks + [after], names + [name], lives)
  {
  }

  lemma OneMoreSuccess<D>(schema: Schema<D>, disks: seq<Disk<D>>, names: seq<nat>, lives: seq<Life<D>>, name: nat, after: Disk<D>,
                          done: bool)
    requires |disks| == |names| + 1 && |names| < |lives| && SucceedsLast(schema, disks, names, lives, false)
    requires done <==> Succeeds(schema, disks[|names|], lives[|names|])
    ensures SucceedsLast(schema, disks + [after], names + [name], lives, done)
  {
    forall i | 0 <= i < |names| + 1
      ensures Succeeds(schema, (disks + [after])[i], lives[i]) <==> done && i == |names|
    {
      assert (disks + [after])[i] == disks[i];
    }
    assert |names + [name]| - 1 == |names|;
  }

  ghost predicate GentleUpto<D>(lives: seq<Life<D>>, c: int, n: nat)
    requires n <= |lives|
  {
    forall i :: 0 <= i < n ==> lives[i].Gentle(c)
  }

  /** Why the guard is needed: whenever an upgrade that is behind is rolled back unguarded, there is a moment at which a kill
      loses the database. */
  method UnguardedRollbackCanBeLost<D(==,0)>(store: Store<D>, fate: Fate<D>, ghost original: Image<D>, ghost c: nat)
      returns (ghost name: nat, ghost at: nat)
    requires Upgradable(original, c) && Safe(store.schema, original, c, store.disk) && Behind(Given(original, c), store.disk)
    requires fate.looks && fate.inspects && fate.Restores() && fate.Atomic(c) && fate.Unguarded(c)
    modifies store
    ensures !Safe(store.schema, original, c, BootDisk(store.schema, old(store.disk), name, Life(fate, Some(at))))
  {
    var drawn := FreshName(store.disk.backups);
    name := drawn;
    ghost var before := store.trace;
    var outcome := store.Open(drawn, fate, Given(original, c));
    ghost var i :| |before| <= i < |store.trace| && !store.Ok(Given(original, c), store.trace[i]);
    at := i - |before| + 1;
    KilledThere(old(store.disk), before, OpenSteps(store.schema, old(store.disk), name, fate), i);
  }

  lemma KilledThere<D>(d: Disk<D>, before: seq<Disk<D>>, steps: seq<Disk<D>>, i: nat)
    requires |before| <= i < |before + steps|
    ensures KilledAt(d, steps, i - |before| + 1) == (before + steps)[i]
  {
  }
}
