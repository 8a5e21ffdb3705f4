/** What every transaction on a valid store comes to, said of the rows and not of the checks that lead there, and
    when a call costs the caller the handle. */
module AuthorityOutcomes {
  import opened Prelude
  import opened AuthorityTables
  import opened AuthorityHandle

  // ---- Arguments ----

  // The arguments a call has to come with, whatever the tables hold.
  lemma ArgumentsAreCheckedExactly(c: Call)
    ensures ArgumentError(c).None? <==>
      match c
      case AcquireGeneration(s) => s != ""
      case RegisterKey(k) => k != ""
      case BindCommand(k, h) => k != "" && h != ""
      case Admit(k, s, g) => k != "" && s != "" && 1 <= g <= 0x7FFF_FFFF_FFFF_FFFF
      case ClaimLaunch(k, s, g, h) => k != "" && s != "" && h != "" && 1 <= g <= 0x7FFF_FFFF_FFFF_FFFF
      case MarkUnknown(k, h) => k != "" && h != ""
      case RecordTerminal(k, h, code) =>
        k != "" && h != "" && -0x8000_0000_0000_0000 <= code <= 0x7FFF_FFFF_FFFF_FFFF
      case ReadGeneration(s) => s != ""
      case _ => c.key != ""
    // The key is looked at first, then the scope, then the generation, then the hash, then the exit code.
    ensures ArgumentError(c) == Some(InvalidExecutionKey) <==>
            !c.AcquireGeneration? && !c.ReadGeneration? && c.key == ""
    ensures ArgumentError(c) == Some(InvalidScope) <==>
            || ((c.AcquireGeneration? || c.ReadGeneration?) && c.scope == "")
            || ((c.Admit? || c.ClaimLaunch?) && c.key != "" && c.scope == "")
    ensures ArgumentError(c) == Some(InvalidGeneration) <==>
            && (c.Admit? || c.ClaimLaunch?) && c.key != "" && c.scope != ""
            && !(1 <= c.generation <= 0x7FFF_FFFF_FFFF_FFFF)
    ensures ArgumentError(c) == Some(InvalidExitCode) <==>
            && c.RecordTerminal? && c.key != "" && c.hash != ""
            && !(-0x8000_0000_0000_0000 <= c.exitCode <= 0x7FFF_FFFF_FFFF_FFFF)
    ensures ArgumentError(c) in {None, Some(InvalidExecutionKey), Some(InvalidScope), Some(InvalidGeneration),
                                 Some(InvalidCommandSpecHash), Some(InvalidExitCode)}
  {
  }

  // ---- Acquisitions ----

  // A scope is granted 1, 2, 3 and so on; only the last number an integer column holds is never followed.
  lemma AcquireSucceedsExactly(t: Tables, scope: string)
    requires ValidTables(t)
    ensures
      var r := Transact(AcquireGeneration(scope), t);
      && (r.Ok? <==> (scope in t.generations ==> t.generations[scope] < 0x7FFF_FFFF_FFFF_FFFF))
      && (r.Err? ==> r.error == GenerationOverflow)
      && (r.Ok? ==>
            var (t', reply) := r.value;
            && reply == Acquired(if scope in t.generations then t.generations[scope] + 1 else 1)
            && t'.generations.Keys == t.generations.Keys + {scope} && t'.generations[scope] == reply.generation
            && (forall s :: s in t.generations && s != scope ==> t'.generations[s] == t.generations[s])
            && t' == t.(generations := t'.generations))
  {
  }

  // ---- Registrations and bindings ----

  // Registering always goes through, and tells whether the key is new.
  lemma RegisterSucceeds(t: Tables, key: string)
    requires ValidTables(t)
    ensures
      var r := Transact(RegisterKey(key), t);
      && r.Ok? && r.value.1 == Registered(key !in t.keys)
      && (forall k :: k in r.value.0.keys <==> k in t.keys || k == key)
      && r.value.0 == t.(keys := r.value.0.keys)
  {
    assert key in t.keys ==> t.keys + {key} == t.keys;
  }

  // A registered key takes its first hash, and later no other.
  lemma BindSucceedsExactly(t: Tables, key: string, hash: string)
    requires ValidTables(t)
    ensures
      var r := Transact(BindCommand(key, hash), t);
      && (r.Ok? <==> key in t.keys && (key in t.bindings ==> t.bindings[key] == hash))
      && (r.Err? ==> r.error == if key in t.keys then CommandSpecConflict else KeyNotRegistered)
      && (r.Ok? ==>
            var (t', reply) := r.value;
            && reply == Bound(key !in t.bindings)
            && t'.bindings.Keys == t.bindings.Keys + {key} && t'.bindings[key] == hash
            && SubMap(t.bindings, t'.bindings) && t' == t.(bindings := t'.bindings))
  {
  }

  // ---- Admissions ----

  // A bound key is admitted under the current generation of a scope, once and for all.
  lemma AdmitSucceedsExactly(t: Tables, key: string, scope: string, generation: int)
    requires ValidTables(t)
    ensures
      var r := Transact(Admit(key, scope, generation), t);
      && (r.Ok? <==>
            && key in t.bindings && scope in t.generations && t.generations[scope] == generation
            && (key in t.admissions ==> t.admissions[key].scope == scope && t.admissions[key].generation == generation))
      && (r.Ok? ==>
            var (t', reply) := r.value;
            && reply == Admitted(key !in t.admissions)
            && t'.admissions.Keys == t.admissions.Keys + {key}
            && t'.admissions[key].scope == scope && t'.admissions[key].generation == generation
            && SubMap(t.admissions, t'.admissions) && t' == t.(admissions := t'.admissions))
      && (r.Err? ==>
            && (r.error == KeyNotRegistered <==> key !in t.keys)
            && (r.error == KeyNotCommandBound <==> key in t.keys && key !in t.bindings)
            && (r.error == AdmissionConflict <==>
                  key in t.bindings && scope in t.generations && t.generations[scope] == generation)
            && r.error in {KeyNotRegistered, KeyNotCommandBound, GenerationNotCurrent, AdmissionConflict})
  {
  }

  // ---- Launches ----

  // What a claim writes, and why it is refused.
  lemma ClaimOutcomeExactly(t: Tables, key: string, scope: string, generation: int, hash: string)
    requires ValidTables(t)
    ensures
      var r := Transact(ClaimLaunch(key, scope, generation, hash), t);
      && (r.Ok? ==>
            var (t', reply) := r.value;
            && key !in t.launches && t'.launches.Keys == t.launches.Keys + {key}
            && t'.launches[key] == Launch(hash, scope, generation, Intent, None) && reply == LaunchNow(t'.launches[key])
            && SubMap(t.launches, t'.launches) && t' == t.(launches := t'.launches))
      && (r.Err? ==>
            && (r.error == KeyNotRegistered <==> key !in t.keys)
            && (r.error == KeyNotCommandBound <==> key in t.keys && key !in t.bindings)
            && (r.error == CommandSpecHashMismatch <==> key in t.bindings && t.bindings[key] != hash)
            && (r.error == AdmissionMissing <==>
                  key in t.bindings && t.bindings[key] == hash && key !in t.admissions)
            && (r.error == AlreadyClaimed <==>
                  && key in t.launches && t.launches[key].hash == hash && t.launches[key].scope == scope
                  && t.launches[key].generation == generation == t.generations[scope])
            && (r.error == GenerationNotCurrent <==>
                  && key in t.bindings && t.bindings[key] == hash
                  && key in t.admissions && t.admissions[key] == Admission(scope, generation)
                  && t.generations[scope] != generation)
            && r.error in {KeyNotRegistered, KeyNotCommandBound, CommandSpecHashMismatch, AdmissionMissing,
                           AdmissionMismatch, GenerationNotCurrent, AlreadyClaimed})
  {
    if key in t.admissions {
      assert AdmissionRowValid(t, key, t.admissions[key]);
    }
    if key in t.launches {
      assert LaunchRowValid(t, key, t.launches[key]);
    }
  }

  // The one row of a key as it looks after a transition, everything else as before.
  ghost predicate RowMoved(t: Tables, key: string, l: Launch, t': Tables, reply: Reply) {
    && t'.launches.Keys == t.launches.Keys && key in t.launches && t'.launches[key] == l && reply == LaunchNow(l)
    && (forall k :: k in t.launches && k != key ==> t'.launches[k] == t.launches[k])
    && t' == t.(launches := t'.launches)
  }

  // The move to UNKNOWN goes through exactly for a key claimed under this hash and not moved since.
  lemma MarkSucceedsExactly(t: Tables, key: string, hash: string)
    requires ValidTables(t)
    ensures
      var r := Transact(MarkUnknown(key, hash), t);
      && (r.Ok? <==> key in t.launches && t.launches[key].hash == hash && t.launches[key].state.Intent?)
      && (r.Ok? ==>
            var l := t.launches[key];
            RowMoved(t, key, Launch(hash, l.scope, l.generation, Unknown, None), r.value.0, r.value.1))
      && (r.Err? ==> r.error == if key in t.launches && t.launches[key].hash != hash then CommandSpecHashMismatch
                                else WrongLaunchState)
  {
    if key in t.launches {
      assert LaunchRowValid(t, key, t.launches[key]);
    }
  }

  // The exit code is recorded exactly for a key marked UNKNOWN under this hash.
  lemma RecordSucceedsExactly(t: Tables, key: string, hash: string, code: int)
    requires ValidTables(t)
    ensures
      var r := Transact(RecordTerminal(key, hash, code), t);
      && (r.Ok? <==> key in t.launches && t.launches[key].hash == hash && t.launches[key].state.Unknown?)
      && (r.Ok? ==>
            var l := t.launches[key];
            RowMoved(t, key, Launch(hash, l.scope, l.generation, Terminal, Some(code)), r.value.0, r.value.1))
      && (r.Err? ==> r.error == if key in t.launches && t.launches[key].hash != hash then CommandSpecHashMismatch
                                else WrongLaunchState)
  {
    if key in t.launches {
      assert LaunchRowValid(t, key, t.launches[key]);
    }
  }

  // ---- Reads ----

  // What the five observations tell, and of whom.
  lemma ReadsTell(t: Tables, scope: string, key: string)
    requires ValidTables(t)
    ensures Transact(ReadGeneration(scope), t)
         == Ok((t, GenerationIs(if scope in t.generations then Some(t.generations[scope]) else None)))
    ensures Transact(KeyExists(key), t) == Ok((t, Presence(key in t.keys)))
    ensures key !in t.keys ==>
      && Transact(ReadCommandHash(key), t) == Err(KeyNotRegistered)
      && Transact(ReadAdmission(key), t) == Err(KeyNotRegistered)
      && Transact(ReadLaunch(key), t) == Err(KeyNotRegistered)
    ensures key in t.keys ==>
      && Transact(ReadCommandHash(key), t)
         == Ok((t, HashIs(if key in t.bindings then Some(t.bindings[key]) else None)))
      && Transact(ReadAdmission(key), t)
         == Ok((t, AdmissionIs(if key in t.admissions then Some(t.admissions[key]) else None)))
      && Transact(ReadLaunch(key), t)
         == Ok((t, LaunchIs(if key in t.launches then Some(t.launches[key]) else None)))
  {
    hide ValidTables;
  }

  // ---- The handle ----

  // The call gets as far as its COMMIT.
  predicate GetsToCommit(t: Tables, c: Call, f: Faults) {
    ArgumentError(c).None? && !f.beginFails && !f.validationFails && Transact(c, t).Ok? && !f.writeFails
  }

  // A COMMIT that is not acknowledged costs a claim, a mark and a record the handle, whether or not it took
  // effect; any other call keeps it unless the ROLLBACK that follows fails as well.
  lemma UnacknowledgedCommit(t: Tables, c: Call, f: Faults)
    requires ValidTables(t) && GetsToCommit(t, c, f) && !f.commit.Acknowledged?
    ensures
      var a := Attempt(Open, t, c, f);
      && (c.ClaimLaunch? || c.MarkUnknown? || c.RecordTerminal? ==>
            a.handle == Poisoned && a.result == Err(CommitUncertain))
      && (!(c.ClaimLaunch? || c.MarkUnknown? || c.RecordTerminal?) && f.commit.LostAcknowledgement? ==>
            a.handle == Open && a.result == Err(OperationFailed))
      && (!(c.ClaimLaunch? || c.MarkUnknown? || c.RecordTerminal?) && f.commit.Rejected? ==>
            if f.rollbackFails then a.handle == Poisoned && a.result == Err(RollbackFailed)
            else a.handle == Open && a.result == Err(OperationFailed))
      && a.tables == (if f.commit.Rejected? then t else Transact(c, t).value.0)
  {
    hide ValidTables, Write;
  }

  // A call that fails before its COMMIT changes nothing; it costs the handle exactly when a transaction was open
  // and its ROLLBACK fails.
  lemma FailureBeforeCommit(t: Tables, c: Call, f: Faults)
    requires ValidTables(t) && !GetsToCommit(t, c, f)
    ensures
      var a := Attempt(Open, t, c, f);
      && a.tables == t && a.result.Err?
      && (a.handle == Poisoned <==> ArgumentError(c).None? && !f.beginFails && f.rollbackFails)
      && (a.handle == Poisoned <==> a.result.error == RollbackFailed) && (a.handle != Poisoned ==> a.handle == Open)
      && (a.handle == Open ==>
            a.result.error ==
              if ArgumentError(c).Some? then ArgumentError(c).value
              else if f.beginFails then OperationFailed
              else if f.validationFails then Malformed
              else if Transact(c, t).Err? then Transact(c, t).error
              else OperationFailed)
  {
    hide ValidTables, Transact;
    NeverRollbackFailed(c, t);
  }

  lemma NeverRollbackFailed(c: Call, t: Tables)
    ensures ArgumentError(c) != Some(RollbackFailed) && Transact(c, t) != Err(RollbackFailed)
  {
    hide ValidTables;
  }

  // On a store that the validators reject no call goes through, not even a read, and none changes a row.
  lemma BrokenStoreIsRefused(t: Tables, c: Call, f: Faults)
    requires !ValidTables(t)
    ensures
      var a := Attempt(Open, t, c, f);
      && a.tables == t
      && a.result == Err(if ArgumentError(c).Some? then ArgumentError(c).value
                         else if f.beginFails then OperationFailed
                         else if f.rollbackFails then RollbackFailed
                         else Malformed)
  {
    hide ValidTables;
  }

  // When a call leaves its caller with a poisoned handle.
  lemma PoisonedExactly(t: Tables, c: Call, f: Faults)
    requires ValidTables(t)
    ensures Attempt(Open, t, c, f).handle == Poisoned <==>
      if GetsToCommit(t, c, f)
      then if c.ClaimLaunch? || c.MarkUnknown? || c.RecordTerminal? then f.commit != Acknowledged
           else f.commit == Rejected && f.rollbackFails
      else ArgumentError(c).None? && !f.beginFails && f.rollbackFails
  {
    if !GetsToCommit(t, c, f) {
      FailureBeforeCommit(t, c, f);
    } else if !f.commit.Acknowledged? {
      UnacknowledgedCommit(t, c, f);
    }
    hide ValidTables, Transact;
  }

  // An acknowledged COMMIT is the only success, and it keeps the handle.
  lemma SuccessExactly(t: Tables, c: Call, f: Faults)
    requires ValidTables(t)
    ensures
      var a := Attempt(Open, t, c, f);
      && (a.result.Ok? <==> GetsToCommit(t, c, f) && f.commit == Acknowledged)
      && (a.result.Ok? ==> a.handle == Open && Transact(c, t) == Ok((a.tables, a.result.value)))
      && (a.result == Err(CommitUncertain) <==>
            && GetsToCommit(t, c, f) && (c.ClaimLaunch? || c.MarkUnknown? || c.RecordTerminal?)
            && f.commit != Acknowledged)
  {
    hide ValidTables, Write;
    NeverUncertain(c, t);
  }

  lemma NeverUncertain(c: Call, t: Tables)
    ensures ArgumentError(c) != Some(CommitUncertain) && Transact(c, t) != Err(CommitUncertain)
  {
    hide ValidTables;
  }

  // A handle that is not open takes no part in anything.
  lemma UnusableHandleRefuses(h: Handle, t: Tables, c: Call, f: Faults)
    requires h != Open
    ensures
      var a := Attempt(h, t, c, f);
      a.handle == h && a.tables == t && a.result == Err(if h == Poisoned then StorePoisoned else StoreClosed)
  {
  }
}
