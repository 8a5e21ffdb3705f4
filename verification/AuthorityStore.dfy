/** AuthorityStore as an object: a handle on a shared database that runs one transaction at a time. */
module AuthorityStores {
  import opened Prelude
  import opened AuthorityTables
  import opened AuthorityHandle

  // The durable file, shared by every handle opened on it.
  class Database {
    var tables: Tables

    constructor ()
      ensures tables == EMPTY
    {
      tables := EMPTY;
    }
  }

  // ---- Validators: loops over the fetched rows ----

  method ValidateGenerationsTable(t: Tables) returns (ok: bool)
    ensures ok == GenerationsValid(t)
  {
    var rest := t.generations.Keys;
    while rest != {}
      invariant rest <= t.generations.Keys
      invariant forall s :: s in t.generations && s !in rest ==> s != "" && IsGeneration(t.generations[s])
    {
      var s :| s in rest;
      if s == "" || !IsGeneration(t.generations[s]) {
        return false;
      }
      rest := rest - {s};
    }
    return true;
  }

  method ValidateBindingsTable(t: Tables) returns (ok: bool)
    ensures ok == BindingsValid(t)
  {
    var rest := t.bindings.Keys;
    while rest != {}
      invariant rest <= t.bindings.Keys
      invariant forall k :: k in t.bindings && k !in rest ==> k != "" && t.bindings[k] != "" && k in t.keys
    {
      var k :| k in rest;
      if k == "" || t.bindings[k] == "" || k !in t.keys {
        return false;
      }
      rest := rest - {k};
    }
    return true;
  }

  method ValidateAdmissionsTable(t: Tables) returns (ok: bool)
    ensures ok == AdmissionsValid(t)
  {
    var rest := t.admissions.Keys;
    while rest != {}
      invariant rest <= t.admissions.Keys
      invariant forall k :: k in t.admissions && k !in rest ==> AdmissionRowValid(t, k, t.admissions[k])
    {
      var k :| k in rest;
      var a := t.admissions[k];
      var current := Lookup(t.generations, a.scope);
      if k == "" || a.scope == "" || !IsGeneration(a.generation) {
        return false;
      }
      if k !in t.keys || k !in t.bindings || current.None? {
        return false;
      }
      if !IsGeneration(current.value) || a.generation > current.value {
        return false;
      }
      rest := rest - {k};
    }
    return true;
  }

  method ValidateLaunchesTable(t: Tables) returns (ok: bool)
    ensures ok == LaunchesValid(t)
  {
    var rest := t.launches.Keys;
    while rest != {}
      invariant rest <= t.launches.Keys
      invariant forall k :: k in t.launches && k !in rest ==> LaunchRowValid(t, k, t.launches[k])
    {
      var k :| k in rest;
      var l := t.launches[k];
      var (bound, admitted, current) :=
        (Lookup(t.bindings, k), Lookup(t.admissions, k), Lookup(t.generations, l.scope));
      if k == "" || l.hash == "" || l.scope == "" || !IsGeneration(l.generation) || !ExitCodeFits(l) {
        return false;
      }
      if k !in t.keys || bound.None? || bound.value != l.hash || admitted.None? {
        return false;
      }
      if admitted.value.scope != l.scope || admitted.value.generation != l.generation || current.None? {
        return false;
      }
      if !IsGeneration(current.value) || l.generation > current.value {
        return false;
      }
      rest := rest - {k};
    }
    return true;
  }

  method ValidateStore(t: Tables) returns (ok: bool)
    ensures ok == ValidTables(t)
  {
    ok := ValidateGenerationsTable(t);
    if !ok || "" in t.keys { return false; }
    ok := ValidateBindingsTable(t);
    if !ok { return; }
    ok := ValidateAdmissionsTable(t);
    if !ok { return; }
    ok := ValidateLaunchesTable(t);
  }

  class AuthorityStore {
    const database: Database
    var connected: bool
    var poisoned: bool
    var inTransaction: bool
    var working: Tables

    ghost predicate Valid()
      reads this
    {
      !inTransaction && (poisoned ==> !connected)
    }

    ghost function View(): Handle
      reads this
    {
      if poisoned then Poisoned else if connected then Open else Closed
    }

    // The whole effect of a call: the handle, the durable tables and the result it hands back.
    twostate predicate Does(c: Call, f: Faults, new r: Result<Reply, Error>)
      reads this, database
    {
      Valid() && After(View(), database.tables, r) == Attempt(old(View()), old(database.tables), c, f)
    }

    // A handle on a store that has been validated.
    constructor Connected(database: Database)
      ensures Valid() && this.database == database && View() == Open
    {
      this.database := database;
      connected, poisoned, inTransaction, working := true, false, false, EMPTY;
    }

    method Poison()
      modifies `connected, `poisoned, `inTransaction
      ensures poisoned && !connected && !inTransaction
    {
      poisoned, connected, inTransaction := true, false, false;
    }

    method Close()
      requires Valid()
      modifies `connected
      ensures Valid() && View() == (if old(View()).Poisoned? then Poisoned else Closed)
    {
      connected := false;
    }

    method RollbackAfterFailure(cause: Error, f: Faults) returns (r: Result<Reply, Error>)
      requires connected && !poisoned
      modifies `connected, `poisoned, `inTransaction
      ensures Valid() && After(View(), database.tables, r) ==
                         if old(inTransaction) then RolledBack(database.tables, cause, f)
                         else After(Open, database.tables, Err(cause))
    {
      if inTransaction && f.rollbackFails {
        Poison();
        return Err(RollbackFailed);
      }
      inTransaction := false;
      return Err(cause);
    }

    // BEGIN and the checks that precede it; None means that the transaction is open and validated.
    method Begin(c: Call, f: Faults) returns (failure: Option<Result<Reply, Error>>)
      requires Valid()
      modifies this
      ensures failure.Some? ==> Does(c, f, failure.value)
      ensures failure.None? ==>
                && connected && !poisoned && inTransaction && working == database.tables && ValidTables(working)
                && old(View()).Open? && ArgumentError(c).None? && !f.beginFails && !f.validationFails
    {
      if poisoned {
        return Some(Err(StorePoisoned));
      }
      if !connected {
        return Some(Err(StoreClosed));
      }
      var invalid := ArgumentError(c);
      if invalid.Some? {
        return Some(Err(invalid.value));
      }
      if f.beginFails {
        var r := RollbackAfterFailure(OperationFailed, f);
        return Some(r);
      }
      inTransaction, working := true, database.tables;
      var ok := ValidateStore(working);
      if !ok || f.validationFails {
        var r := RollbackAfterFailure(Malformed, f);
        return Some(r);
      }
      return None;
    }

    method Commit(c: Call, reply: Reply, f: Faults) returns (r: Result<Reply, Error>)
      requires connected && !poisoned && inTransaction && !f.validationFails
      requires IsRead(c) ==> working == database.tables
      modifies `connected, `poisoned, `inTransaction, database
      ensures Valid()
      ensures After(View(), database.tables, r) == Finish(old(database.tables), c, Ok((old(working), reply)), f)
    {
      if f.writeFails {
        r := RollbackAfterFailure(OperationFailed, f);
        return;
      }
      if !f.commit.Rejected? {
        database.tables := working;
        inTransaction := false;
      }
      if f.commit.Acknowledged? {
        return Ok(reply);
      }
      if IsConsequential(c) {
        Poison();
        return Err(CommitUncertain);
      }
      r := RollbackAfterFailure(OperationFailed, f);
    }

    method AcquireGenerationFor(scope: string, f: Faults) returns (r: Result<Reply, Error>)
      requires Valid()
      modifies this, database
      ensures Does(AcquireGeneration(scope), f, r)
    {
      var c := AcquireGeneration(scope);
      var failure := Begin(c, f);
      if failure.Some? { return failure.value; }
      var row := Lookup(working.generations, scope);
      var generation := 1;
      if row.Some? {
        if row.value == MAX_GENERATION {
          r := RollbackAfterFailure(GenerationOverflow, f);
          return;
        }
        generation := row.value + 1;
      }
      working := working.(generations := working.generations[scope := generation]);
      r := Commit(c, Acquired(generation), f);
    }

    method RegisterExecutionKey(key: string, f: Faults) returns (r: Result<Reply, Error>)
      requires Valid()
      modifies this, database
      ensures Does(RegisterKey(key), f, r)
    {
      var c := RegisterKey(key);
      var failure := Begin(c, f);
      if failure.Some? { return failure.value; }
      var created := key !in working.keys;
      if created {
        working := working.(keys := working.keys + {key});
      }
      r := Commit(c, Registered(created), f);
    }

    method BindCommandSpecHash(key: string, hash: string, f: Faults) returns (r: Result<Reply, Error>)
      requires Valid()
      modifies this, database
      ensures Does(BindCommand(key, hash), f, r)
    {
      var c := BindCommand(key, hash);
      var failure := Begin(c, f);
      if failure.Some? { return failure.value; }
      if key !in working.keys {
        r := RollbackAfterFailure(KeyNotRegistered, f);
        return;
      }
      var row := Lookup(working.bindings, key);
      if row.None? {
        working := working.(bindings := working.bindings[key := hash]);
      } else if row.value != hash {
        r := RollbackAfterFailure(CommandSpecConflict, f);
        return;
      }
      r := Commit(c, Bound(row.None?), f);
    }

    method AdmitExecution(key: string, scope: string, generation: int, f: Faults) returns (r: Result<Reply, Error>)
      requires Valid()
      modifies this, database
      ensures Does(Admit(key, scope, generation), f, r)
    {
      var c := Admit(key, scope, generation);
      var failure := Begin(c, f);
      if failure.Some? { return failure.value; }
      if key !in working.keys {
        r := RollbackAfterFailure(KeyNotRegistered, f);
        return;
      }
      if key !in working.bindings {
        r := RollbackAfterFailure(KeyNotCommandBound, f);
        return;
      }
      var current := Lookup(working.generations, scope);
      if current.None? || current.value != generation {
        r := RollbackAfterFailure(GenerationNotCurrent, f);
        return;
      }
      var row := Lookup(working.admissions, key);
      if row.None? {
        working := working.(admissions := working.admissions[key := Admission(scope, generation)]);
      } else if row.value.scope != scope || row.value.generation != generation {
        r := RollbackAfterFailure(AdmissionConflict, f);
        return;
      }
      r := Commit(c, Admitted(row.None?), f);
    }

    method ClaimExecutionLaunch(key: string, scope: string, generation: int, hash: string, f: Faults)
      returns (r: Result<Reply, Error>)
      requires Valid()
      modifies this, database
      ensures Does(ClaimLaunch(key, scope, generation, hash), f, r)
    {
      var c := ClaimLaunch(key, scope, generation, hash);
      var failure := Begin(c, f);
      if failure.Some? { return failure.value; }
      if key !in working.keys {
        r := RollbackAfterFailure(KeyNotRegistered, f);
        return;
      }
      var bound := Lookup(working.bindings, key);
      if bound.None? {
        r := RollbackAfterFailure(KeyNotCommandBound, f);
        return;
      }
      if bound.value != hash {
        r := RollbackAfterFailure(CommandSpecHashMismatch, f);
        return;
      }
      var admission := Lookup(working.admissions, key);
      if admission.None? {
        r := RollbackAfterFailure(AdmissionMissing, f);
        return;
      }
      if admission.value.scope != scope || admission.value.generation != generation {
        r := RollbackAfterFailure(AdmissionMismatch, f);
        return;
      }
      var current := Lookup(working.generations, scope);
      if current.None? || current.value != generation {
        r := RollbackAfterFailure(GenerationNotCurrent, f);
        return;
      }
      if key in working.launches {
        r := RollbackAfterFailure(AlreadyClaimed, f);
        return;
      }
      var launch := Launch(hash, scope, generation, Intent, None);
      working := working.(launches := working.launches[key := launch]);
      r := Commit(c, LaunchNow(launch), f);
    }

    // The guarded UPDATE shared by the two transitions of an existing launch row.
    method AdvanceLaunch(c: Call, from: LaunchState, to: LaunchState, code: Option<int>, f: Faults)
      returns (r: Result<Reply, Error>)
      requires c.MarkUnknown? || c.RecordTerminal?
      requires connected && !poisoned && inTransaction && working == database.tables && ValidTables(working)
      requires !f.validationFails
      modifies this, database
      ensures Valid()
      ensures After(View(), database.tables, r) ==
              Finish(old(database.tables), c, AdvanceTx(old(database.tables), c.key, c.hash, from, to, code), f)
    {
      hide ValidTables, ArgumentError;
      var row := Lookup(working.launches, c.key);
      if row.None? {
        r := RollbackAfterFailure(WrongLaunchState, f);
        return;
      }
      var launch := row.value;
      if launch.hash != c.hash {
        r := RollbackAfterFailure(CommandSpecHashMismatch, f);
        return;
      }
      if launch.state != from {
        r := RollbackAfterFailure(WrongLaunchState, f);
        return;
      }
      var rowcount := if launch.hash == c.hash && launch.state == from && launch.exitCode.None? then 1 else 0;
      if rowcount != 1 {
        r := RollbackAfterFailure(Malformed, f);
        return;
      }
      var advanced := launch.(state := to, exitCode := code);
      working := working.(launches := working.launches[c.key := advanced]);
      r := Commit(c, LaunchNow(advanced), f);
    }

    method MarkExecutionLaunchUnknown(key: string, hash: string, f: Faults) returns (r: Result<Reply, Error>)
      requires Valid()
      modifies this, database
      ensures Does(MarkUnknown(key, hash), f, r)
    {
      var c := MarkUnknown(key, hash);
      var failure := Begin(c, f);
      if failure.Some? { return failure.value; }
      r := AdvanceLaunch(c, Intent, Unknown, None, f);
    }

    method RecordExecutionTerminalResult(key: string, hash: string, exitCode: int, f: Faults)
      returns (r: Result<Reply, Error>)
      requires Valid()
      modifies this, database
      ensures Does(RecordTerminal(key, hash, exitCode), f, r)
    {
      var c := RecordTerminal(key, hash, exitCode);
      var failure := Begin(c, f);
      if failure.Some? { return failure.value; }
      r := AdvanceLaunch(c, Unknown, Terminal, Some(exitCode), f);
    }

    // The observations: one validated snapshot, nothing written.
    method Observe(c: Call, f: Faults) returns (r: Result<Reply, Error>)
      requires Valid() && IsRead(c)
      modifies this, database
      ensures Does(c, f, r) && database.tables == old(database.tables)
    {
      var failure := Begin(c, f);
      if failure.Some? { return failure.value; }
      var reply := Read(c, working);
      if reply.Err? {
        r := RollbackAfterFailure(reply.error, f);
        return;
      }
      r := Commit(c, reply.value, f);
    }
  }

  // Opens a store of the current version: it is refused unless it can be read and passes the validator.
  method OpenExisting(database: Database, f: Faults) returns (r: Result<AuthorityStore, Error>)
    ensures r.Ok? <==> ValidTables(database.tables) && !f.validationFails
    ensures r.Ok? ==> fresh(r.value) && r.value.Valid() && r.value.database == database && r.value.View() == Open
    ensures r.Err? ==> r.error == Malformed
  {
    var ok := ValidateStore(database.tables);
    if !ok || f.validationFails {
      return Err(Malformed);
    }
    var store := new AuthorityStore.Connected(database);
    return Ok(store);
  }
}
