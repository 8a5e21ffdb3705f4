/** One call on a store handle: its transaction, and what the environment may do to it. */
module AuthorityHandle {
  import opened Prelude
  import opened AuthorityTables

  datatype Handle = Open | Poisoned | Closed

  // A COMMIT that raises may or may not have taken effect.
  datatype CommitOutcome = Acknowledged | LostAcknowledgement | Rejected

  // What may fail in one call. A database error while the store is being validated is reported as malformed.
  datatype Faults =
    Faults(beginFails: bool, validationFails: bool, writeFails: bool, commit: CommitOutcome, rollbackFails: bool)

  datatype After = After(handle: Handle, tables: Tables, result: Result<Reply, Error>)

  function RolledBack(t: Tables, cause: Error, f: Faults): After {
    if f.rollbackFails then After(Poisoned, t, Err(RollbackFailed)) else After(Open, t, Err(cause))
  }

  function Installed(c: Call, t: Tables, working: Tables): Tables {
    if IsRead(c) then t else working
  }

  // From an open transaction to the end of the call, t being the durable tables at that moment.
  function Finish(t: Tables, c: Call, pending: Outcome, f: Faults): After {
    if f.validationFails then RolledBack(t, Malformed, f)
    else match pending
    case Err(e) => RolledBack(t, e, f)
    case Ok((working, reply)) =>
      if f.writeFails then RolledBack(t, OperationFailed, f)
      else match f.commit
        case Acknowledged => After(Open, Installed(c, t, working), Ok(reply))
        case LostAcknowledgement =>
          if IsConsequential(c) then After(Poisoned, Installed(c, t, working), Err(CommitUncertain))
          else After(Open, Installed(c, t, working), Err(OperationFailed))
        case Rejected =>
          if IsConsequential(c) then After(Poisoned, t, Err(CommitUncertain))
          else RolledBack(t, OperationFailed, f)
  }

  function Attempt(h: Handle, t: Tables, c: Call, f: Faults): After {
    match h
    case Poisoned => After(h, t, Err(StorePoisoned))
    case Closed => After(h, t, Err(StoreClosed))
    case Open =>
      match ArgumentError(c)
      case Some(e) => After(h, t, Err(e))
      case None =>
        if f.beginFails then After(h, t, Err(OperationFailed)) else Finish(t, c, Transact(c, t), f)
  }

  lemma FinishIsAllOrNothing(t: Tables, c: Call, pending: Outcome, f: Faults)
    requires pending != Err(Malformed)
    requires pending.Ok? && IsRead(c) ==> pending.value.0 == t
    ensures
      var a := Finish(t, c, pending, f);
      && (a.result == Err(Malformed) ==> f.validationFails)
      && (a.tables == t || (pending.Ok? && a.tables == pending.value.0))
      && (a.result.Ok? ==> pending == Ok((a.tables, a.result.value)) && a.handle.Open?)
  {
  }

  // Whatever goes wrong, a call leaves the durable tables alone or applies its whole transaction; what
  // it acknowledges has taken effect; and the store stays valid and keeps its history.
  lemma AttemptIsAllOrNothing(h: Handle, t: Tables, c: Call, f: Faults)
    requires ValidTables(t)
    ensures
      var a := Attempt(h, t, c, f);
      && ValidTables(a.tables) && Extends(t, a.tables)
      && (a.result == Err(Malformed) ==> f.validationFails)
      && (a.tables == t || (Transact(c, t).Ok? && a.tables == Transact(c, t).value.0))
      && (a.result.Ok? ==> Transact(c, t) == Ok((a.tables, a.result.value)) && a.handle.Open?)
  {
    if ArgumentError(c).None? {
      TransactKeepsValid(c, t);
      var pending := Transact(c, t);
      if pending.Ok? {
        TransactExtends(c, t);
      }
      FinishIsAllOrNothing(t, c, pending, f);
    }
  }

  // After a claim, a mark or a record the caller either knows the outcome and keeps the handle, or has a
  // handle that refuses every further call.
  lemma UncertainHandleRefuses(t: Tables, c: Call, f: Faults, t': Tables, c': Call, f': Faults)
    requires ValidTables(t) && (c.ClaimLaunch? || c.MarkUnknown? || c.RecordTerminal?)
    ensures
      var a := Attempt(Open, t, c, f);
      && (a.tables != t && a.result.Err? ==> a.result == Err(CommitUncertain))
      && (a.result == Err(CommitUncertain) ==> Attempt(a.handle, t', c', f') == After(Poisoned, t', Err(StorePoisoned)))
  {
    hide ValidTables;
  }
}
