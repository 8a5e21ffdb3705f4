/** Schema versions of the authority store and the one-table migrations between them. */
module Migration {
  import opened Prelude
  import opened AuthorityTables
  import opened AuthorityHandle

  datatype Table = Generations | Keys | Bindings | Admissions | Launches

  // A store file: its schema version, the tables that exist, and their rows (none for an absent table).
  datatype File = File(version: int, objects: set<Table>, rows: Tables)

  datatype MigrationError =
    WrongVersion | MalformedStore | DatabaseFailure | CommitOutcomeUncertain | RollbackOutcomeUncertain

  const CURRENT: int := 5

  function AddedBy(version: int): Option<Table> {
    match version
    case 1 => Some(Generations)
    case 2 => Some(Keys)
    case 3 => Some(Bindings)
    case 4 => Some(Admissions)
    case 5 => Some(Launches)
    case _ => None
  }

  function Expected(version: int): set<Table> {
    set t | t in {Generations, Keys, Bindings, Admissions, Launches} &&
            exists v :: 1 <= v <= version && AddedBy(v) == Some(t)
  }

  predicate RowsOnlyInTables(f: File) {
    && (Generations !in f.objects ==> f.rows.generations == map[])
    && (Keys !in f.objects ==> f.rows.keys == {})
    && (Bindings !in f.objects ==> f.rows.bindings == map[])
    && (Admissions !in f.objects ==> f.rows.admissions == map[])
    && (Launches !in f.objects ==> f.rows.launches == map[])
  }

  // What the validator of one version accepts; the checks on absent tables hold of their no rows.
  predicate ValidAt(f: File, version: int) {
    f.version == version && f.objects == Expected(version) && RowsOnlyInTables(f) && ValidTables(f.rows)
  }

  // The tables of a valid store of each version.
  lemma TablesByVersion(f: File)
    ensures ValidAt(f, 1) ==> f.objects == {Generations}
    ensures ValidAt(f, 2) ==> f.objects == {Generations, Keys}
    ensures ValidAt(f, 3) ==> f.objects == {Generations, Keys, Bindings}
    ensures ValidAt(f, 4) ==> f.objects == {Generations, Keys, Bindings, Admissions}
    ensures ValidAt(f, 5) ==> f.objects == {Generations, Keys, Bindings, Admissions, Launches}
  {
    hide ValidTables, RowsOnlyInTables;
    forall v: int | 1 <= v <= 5 ensures
      && (Generations in Expected(v)) && (Keys in Expected(v) <==> v >= 2) && (Bindings in Expected(v) <==> v >= 3)
      && (Admissions in Expected(v) <==> v >= 4) && (Launches in Expected(v) <==> v >= 5)
    {
      assert AddedBy(1) == Some(Generations) && AddedBy(2) == Some(Keys) && AddedBy(3) == Some(Bindings);
      assert AddedBy(4) == Some(Admissions) && AddedBy(5) == Some(Launches);
    }
  }

  // The step to the next version: one more table, empty, and nothing else.
  function Upgraded(f: File): File {
    match AddedBy(f.version + 1)
    case None => f
    case Some(t) => File(f.version + 1, f.objects + {t}, f.rows)
  }

  function Migrate(f: File, source: int, faults: Faults): (File, Result<(), MigrationError>) {
    if f.version != source then (f, Err(WrongVersion))
    else if faults.beginFails then (f, Err(DatabaseFailure))
    else if faults.validationFails || !ValidAt(f, source) then
      (f, Err(if faults.rollbackFails then RollbackOutcomeUncertain else MalformedStore))
    else if faults.writeFails || AddedBy(source + 1).None? || AddedBy(source + 1).value in f.objects then
      (f, Err(if faults.rollbackFails then RollbackOutcomeUncertain else DatabaseFailure))
    else if !ValidAt(Upgraded(f), source + 1) then
      (f, Err(if faults.rollbackFails then RollbackOutcomeUncertain else MalformedStore))
    else match faults.commit
      case Acknowledged => (Upgraded(f), Ok(()))
      case LostAcknowledgement => (Upgraded(f), Err(CommitOutcomeUncertain))
      case Rejected => (f, Err(CommitOutcomeUncertain))
  }

  lemma ExpectedGrows(version: int)
    requires 1 <= version < CURRENT
    ensures AddedBy(version + 1).Some? && AddedBy(version + 1).value !in Expected(version)
    ensures Expected(version + 1) == Expected(version) + {AddedBy(version + 1).value}
  {
    var added := AddedBy(version + 1).value;
    forall t ensures t in Expected(version + 1) <==> t in Expected(version) + {added} {
      if t in Expected(version + 1) && t != added {
        var v :| 1 <= v <= version + 1 && AddedBy(v) == Some(t);
        assert v <= version;
      }
      if t == added {
        assert AddedBy(version + 1) == Some(t);
      }
      if t in Expected(version) {
        var v :| 1 <= v <= version && AddedBy(v) == Some(t);
        assert 1 <= v <= version + 1;
      }
    }
  }

  lemma UpgradeIsValid(f: File, version: int)
    requires 1 <= version < CURRENT && ValidAt(f, version)
    ensures ValidAt(Upgraded(f), version + 1) && Upgraded(f).rows == f.rows
  {
    ExpectedGrows(version);
  }

  predicate Clean(f: Faults) { !f.beginFails && !f.validationFails && !f.writeFails && f.commit.Acknowledged? }

  // One attempt on a valid store, whatever fails in it, leaves the exact old store or the exact next
  // one; it reports success only for the latter, and from the right version a clean attempt succeeds.
  lemma MigrationIsExact(f: File, version: int, source: int, faults: Faults)
    requires 1 <= version <= CURRENT && ValidAt(f, version) && 1 <= source < CURRENT
    ensures
      var (f', r) := Migrate(f, source, faults);
      && (f' == f || (source == version && f' == Upgraded(f) && ValidAt(f', version + 1)))
      && (r.Ok? ==> source == version && f' == Upgraded(f))
      && (source == version && Clean(faults) ==> r.Ok?)
  {
    if source == version {
      ExpectedGrows(version);
      UpgradeIsValid(f, version);
    }
  }

  // What an attempt that fails on a valid store reports, and when it has migrated the store all the same.
  lemma MigrationFailsExactly(f: File, version: int, source: int, faults: Faults)
    requires 1 <= version <= CURRENT && ValidAt(f, version) && 1 <= source < CURRENT
    ensures
      var (f', r) := Migrate(f, source, faults);
      var begun := source == version && !faults.beginFails;
      var commits := begun && !faults.validationFails && !faults.writeFails;
      && (r.Ok? <==> commits && faults.commit.Acknowledged?)
      && (r == Err(WrongVersion) <==> source != version)
      && (r == Err(CommitOutcomeUncertain) <==> commits && !faults.commit.Acknowledged?)
      && (r == Err(RollbackOutcomeUncertain) <==> begun && !commits && faults.rollbackFails)
      && (r == Err(MalformedStore) <==> begun && faults.validationFails && !faults.rollbackFails)
      && (f' == f <==> !(commits && !faults.commit.Rejected?))
  {
    if source == version {
      ExpectedGrows(version);
      UpgradeIsValid(f, version);
    }
  }

  // A store that is not valid for its version is left as it is.
  lemma MalformedStoreIsKept(f: File, source: int, faults: Faults)
    requires !ValidAt(f, source)
    ensures
      var (f', r) := Migrate(f, source, faults);
      && f' == f
      && r == Err(if f.version != source then WrongVersion
                  else if faults.beginFails then DatabaseFailure
                  else if faults.rollbackFails then RollbackOutcomeUncertain
                  else MalformedStore)
  {
    hide ValidAt;
  }

  datatype Attempt = Attempt(source: int, faults: Faults)

  function MigrateAll(f: File, attempts: seq<Attempt>): File
    decreases |attempts|
  {
    if attempts == [] then f
    else MigrateAll(Migrate(f, attempts[0].source, attempts[0].faults).0, attempts[1..])
  }

  // Any sequence of attempts, failing or repeated, in any order: at every end the store is exactly valid
  // for some version not below the old one, and no row has been lost or changed.
  lemma {:induction false} MigrationsLoseNothing(f: File, version: int, attempts: seq<Attempt>)
    requires 1 <= version <= CURRENT && ValidAt(f, version)
    requires forall a :: a in attempts ==> 1 <= a.source < CURRENT
    ensures
      var f' := MigrateAll(f, attempts);
      version <= f'.version <= CURRENT && ValidAt(f', f'.version) && f'.rows == f.rows
    decreases |attempts|
  {
    if attempts != [] {
      var a := attempts[0];
      assert a in attempts;
      MigrationIsExact(f, version, a.source, a.faults);
      var f' := Migrate(f, a.source, a.faults).0;
      MigrationsLoseNothing(f', f'.version, attempts[1..]);
    }
  }

  // A clean attempt after any number of failed ones completes the step unless it had taken effect.
  lemma RetryCompletes(f: File, version: int, failed: seq<Attempt>, faults: Faults)
    requires 1 <= version < CURRENT && ValidAt(f, version)
    requires forall a :: a in failed ==> a.source == version
    requires Clean(faults)
    ensures Migrate(MigrateAll(f, failed), version, faults).0 == Upgraded(f)
  {
    UpgradeIsValid(f, version);
    RepeatedStep(f, version, failed);
    if MigrateAll(f, failed) == f {
      MigrationIsExact(f, version, version, faults);
    }
  }

  lemma {:induction false} RepeatedStep(f: File, version: int, failed: seq<Attempt>)
    requires 1 <= version < CURRENT && (ValidAt(f, version) || ValidAt(f, version + 1))
    requires forall a :: a in failed ==> a.source == version
    ensures MigrateAll(f, failed) == f || (f.version == version && MigrateAll(f, failed) == Upgraded(f))
    decreases |failed|
  {
    if failed != [] {
      var a := failed[0];
      assert a in failed;
      MigrationIsExact(f, f.version, version, a.faults);
      if f.version == version {
        UpgradeIsValid(f, version);
      }
      RepeatedStep(Migrate(f, version, a.faults).0, version, failed[1..]);
    }
  }

  // Among the attempts, in this order, is a clean one for each version from this one on.
  predicate Climbs(attempts: seq<Attempt>, version: int)
    decreases |attempts|
  {
    version == CURRENT ||
    (attempts != [] &&
     ((attempts[0].source == version && Clean(attempts[0].faults) && Climbs(attempts[1..], version + 1)) ||
      Climbs(attempts[1..], version)))
  }

  // The chain completes: clean attempts for each version in order, with any others before, between and after
  // them, end at the current version with the same rows.
  lemma {:induction false} ChainCompletes(f: File, version: int, attempts: seq<Attempt>, from: int)
    requires 1 <= from <= version <= CURRENT && ValidAt(f, version) && Climbs(attempts, from)
    requires forall a :: a in attempts ==> 1 <= a.source < CURRENT
    ensures ValidAt(MigrateAll(f, attempts), CURRENT) && MigrateAll(f, attempts).rows == f.rows
    decreases |attempts|
  {
    hide ValidAt, Upgraded, Expected, Migrate;
    if attempts == [] {
      assert version == CURRENT;
    } else {
      var a := attempts[0];
      assert a in attempts;
      MigrationMovesOn(f, version, a.source, a.faults);
      var f' := Migrate(f, a.source, a.faults).0;
      var next := if Climbs(attempts[1..], from) then from else from + 1;
      if from == CURRENT {
        CurrentStays(f', attempts[1..]);
      } else {
        ChainCompletes(f', f'.version, attempts[1..], next);
      }
    }
  }

  lemma MigrationMovesOn(f: File, version: int, source: int, faults: Faults)
    requires 1 <= version <= CURRENT && ValidAt(f, version) && 1 <= source < CURRENT
    ensures
      var f' := Migrate(f, source, faults).0;
      && ValidAt(f', f'.version) && version <= f'.version <= CURRENT && f'.rows == f.rows
      && (source == version && Clean(faults) ==> f'.version == version + 1)
  {
    MigrationIsExact(f, version, source, faults);
  }

  lemma CurrentStays(f: File, attempts: seq<Attempt>)
    requires ValidAt(f, CURRENT) && forall a :: a in attempts ==> 1 <= a.source < CURRENT
    ensures ValidAt(MigrateAll(f, attempts), CURRENT) && MigrateAll(f, attempts).rows == f.rows
  {
    MigrationsLoseNothing(f, CURRENT, attempts);
  }

  // What opening a store comes to: stores of earlier versions are validated before they are refused.
  datatype Opening = Usable | Refused | MigrationRequired(version: int)

  class StoreFile {
    var file: File

    method Validate(validationFails: bool) returns (r: Opening)
      ensures r == Usable <==> ValidAt(file, CURRENT) && !validationFails
      ensures forall v :: r == MigrationRequired(v) <==> 1 <= v < CURRENT && ValidAt(file, v) && !validationFails
    {
      if validationFails {
        return Refused;
      }
      if 1 <= file.version < CURRENT {
        return if ValidAt(file, file.version) then MigrationRequired(file.version) else Refused;
      }
      return if ValidAt(file, CURRENT) then Usable else Refused;
    }

    // The migration transaction, statement by statement.
    method MigrateOneTable(source: int, faults: Faults) returns (r: Result<(), MigrationError>)
      modifies this
      ensures (file, r) == Migrate(old(file), source, faults)
    {
      if file.version != source {
        return Err(WrongVersion);
      }
      if faults.beginFails {
        return Err(DatabaseFailure);
      }
      var working := file;
      var failure := None;
      var added := AddedBy(source + 1);
      if faults.validationFails || !ValidAt(working, source) {
        failure := Some(MalformedStore);
      } else if faults.writeFails || added.None? || added.value in working.objects {
        failure := Some(DatabaseFailure);
      } else {
        working := working.(objects := working.objects + {added.value});
        working := working.(version := source + 1);
        if !ValidAt(working, source + 1) {
          failure := Some(MalformedStore);
        }
      }
      if failure.Some? {
        return Err(if faults.rollbackFails then RollbackOutcomeUncertain else failure.value);
      }
      if !faults.commit.Rejected? {
        file := working;
      }
      return if faults.commit.Acknowledged? then Ok(()) else Err(CommitOutcomeUncertain);
    }
  }
}
