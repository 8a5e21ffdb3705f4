/** One controller at work: execute_local_command and run_workgraph_client over a store handle, with every
    fault that the store, the launcher and the publisher may show. */
module LocalExecutions {
  import opened Prelude
  import opened AuthorityTables
  import opened AuthorityHandle
  import opened AuthorityStores
  import LaunchProtocol

  type Spec = LaunchProtocol.Spec

  const SCOPE := LaunchProtocol.SCOPE

  datatype Failure = StoreError(error: Error) | LauncherFailed | PublisherFailed | ClientError

  // A physical launch, with the row that was durable when the process was started.
  datatype Launched = Launched(key: string, spec: Spec, row: Option<Launch>)

  class Launcher {
    ghost var launched: seq<Launched>

    // The process ends with an exit code, or its outcome is never observed.
    method Launch(spec: Spec, outcome: Option<int>, ghost key: string, ghost row: Option<Launch>)
      returns (exitCode: Option<int>)
      modifies this
      ensures launched == old(launched) + [Launched(key, spec, row)] && exitCode == outcome
    {
      launched := launched + [Launched(key, spec, row)];
      return outcome;
    }
  }

  datatype Published = Published(key: string, exitCode: int)

  class Publisher {
    ghost var published: seq<Published>

    method Publish(exitCode: int, succeeds: bool, ghost key: string) returns (ok: bool)
      modifies this
      ensures published == old(published) + [Published(key, exitCode)] && ok == succeeds
    {
      published := published + [Published(key, exitCode)];
      return succeeds;
    }
  }

  predicate Clean(f: Faults) { !f.beginFails && !f.validationFails && !f.writeFails && f.commit.Acknowledged? }

  // The key is bound to this command, admitted under this generation, which is current, and unclaimed.
  predicate MayClaim(t: Tables, key: string, scope: string, generation: int, hash: string) {
    && Lookup(t.bindings, key) == Some(hash)
    && Lookup(t.admissions, key) == Some(Admission(scope, generation))
    && Lookup(t.generations, scope) == Some(generation)
    && key !in t.launches
  }

  function WithLaunch(t: Tables, key: string, l: Launch): Tables { t.(launches := t.launches[key := l]) }

  // ---- What a call comes to ----

  lemma FinishOutcome(t: Tables, c: Call, o: Outcome, f: Faults)
    requires o.Ok? && IsRead(c) ==> o.value.0 == t
    ensures
      var a := Finish(t, c, o, f);
      && (a.result.Ok? <==> o.Ok? && Clean(f.(beginFails := false)))
      && (a.result.Ok? ==> a.handle.Open? && a.result == Ok(o.value.1) && a.tables == o.value.0)
      && (a.tables == t || (o.Ok? && a.tables == o.value.0))
  {
  }

  lemma ReadsChangeNothing(t: Tables, c: Call)
    requires IsRead(c) && Transact(c, t).Ok?
    ensures Transact(c, t).value.0 == t
  {
    hide ValidTables;
  }

  lemma CallOutcome(h: Handle, t: Tables, c: Call, f: Faults)
    requires ValidTables(t)
    ensures
      var (a, o) := (Attempt(h, t, c, f), Transact(c, t));
      && ValidTables(a.tables) && Extends(t, a.tables)
      && (a.result.Ok? <==> h.Open? && ArgumentError(c).None? && o.Ok? && Clean(f))
      && (a.result.Ok? ==> a.handle.Open? && a.result == Ok(o.value.1) && a.tables == o.value.0)
      && (a.tables == t || (h.Open? && ArgumentError(c).None? && o.Ok? && a.tables == o.value.0))
  {
    AttemptIsAllOrNothing(h, t, c, f);
    hide ValidTables, Extends, Transact, Finish, ArgumentError, IsRead;
    if IsRead(c) && Transact(c, t).Ok? {
      ReadsChangeNothing(t, c);
    }
    FinishOutcome(t, c, Transact(c, t), f);
  }

  lemma ClaimOutcome(t: Tables, key: string, scope: string, generation: int, hash: string)
    requires ValidTables(t)
    ensures
      var c := ClaimLaunch(key, scope, generation, hash);
      && (ArgumentError(c).None? && Transact(c, t).Ok? <==> MayClaim(t, key, scope, generation, hash))
      && (Transact(c, t).Ok? ==>
            Transact(c, t).value.0 == WithLaunch(t, key, Launch(hash, scope, generation, Intent, None)))
  {
    ClaimSucceedsExactly(t, key, scope, generation, hash);
    if key in t.admissions {
      assert AdmissionRowValid(t, key, t.admissions[key]);
    }
  }

  lemma AdvanceOutcome(t: Tables, key: string, l: Launch, code: int)
    requires ValidTables(t) && key in t.launches && t.launches[key] == l
    ensures ArgumentError(MarkUnknown(key, l.hash)).None?
    ensures l.state.Intent? ==>
      Transact(MarkUnknown(key, l.hash), t)
      == Ok((WithLaunch(t, key, l.(state := Unknown)), LaunchNow(l.(state := Unknown))))
    ensures ArgumentError(RecordTerminal(key, l.hash, code)).None? <==> IsExitCode(code)
    ensures l.state.Unknown? ==>
      Transact(RecordTerminal(key, l.hash, code), t)
      == Ok((WithLaunch(t, key, l.(state := Terminal, exitCode := Some(code))),
             LaunchNow(l.(state := Terminal, exitCode := Some(code)))))
  {
    assert LaunchRowValid(t, key, l);
  }

  // ---- execute_local_command ----

  // When the one physical launch is made: the claim and the move to UNKNOWN both went through and were
  // acknowledged.
  predicate Launches(h: Handle, t: Tables, key: string, scope: string, generation: int, hash: string,
                     claim: Faults, mark: Faults) {
    h.Open? && MayClaim(t, key, scope, generation, hash) && Clean(claim) && Clean(mark)
  }

  // The two transactions that come before the launch. UNKNOWN is on durable record when they succeed.
  method ConsumeAuthority(store: AuthorityStore, key: string, scope: string, generation: int, frozen: string,
                          claim: Faults, mark: Faults)
    returns (failure: Option<Failure>)
    requires store.Valid() && ValidTables(store.database.tables)
    modifies store, store.database
    ensures store.Valid() && ValidTables(store.database.tables)
    ensures Extends(old(store.database.tables), store.database.tables)
    ensures failure.None? <==>
            Launches(old(store.View()), old(store.database.tables), key, scope, generation, frozen, claim, mark)
    ensures
      var (t, t') := (old(store.database.tables), store.database.tables);
      var row := Launch(frozen, scope, generation, Intent, None);
      var unknown := WithLaunch(t, key, row.(state := Unknown));
      if failure.None? then t' == unknown && store.View().Open?
      else t' == t || (MayClaim(t, key, scope, generation, frozen) && t' in {WithLaunch(t, key, row), unknown})
  {
    var row := Launch(frozen, scope, generation, Intent, None);
    ghost var (h, t) := (store.View(), store.database.tables);
    hide ValidTables, Extends, Attempt, Transact, ArgumentError, MayClaim, Clean;

    CallOutcome(h, t, ClaimLaunch(key, scope, generation, frozen), claim);
    ClaimOutcome(t, key, scope, generation, frozen);
    var claimed := store.ClaimExecutionLaunch(key, scope, generation, frozen, claim);
    if claimed.Err? {
      return Some(StoreError(claimed.error));
    }
    ghost var t1 := store.database.tables;
    assert t1 == WithLaunch(t, key, row) && store.View().Open?;

    CallOutcome(Open, t1, MarkUnknown(key, frozen), mark);
    AdvanceOutcome(t1, key, row, 0);
    var marked := store.MarkExecutionLaunchUnknown(key, frozen, mark);
    ghost var t2 := store.database.tables;
    ExtendsTransitive(t, t1, t2);
    Rewritten(t, key, row, row.(state := Unknown));
    if marked.Err? {
      return Some(StoreError(marked.error));
    }
    return None;
  }

  lemma Rewritten(t: Tables, key: string, l: Launch, l': Launch)
    ensures WithLaunch(WithLaunch(t, key, l), key, l') == WithLaunch(t, key, l')
  {
  }

  // What an execution leaves on record and hands back. The row goes through INTENT, UNKNOWN and TERMINAL
  // and stops where something went wrong; without a launch it stays short of TERMINAL.
  predicate Executed(t: Tables, t': Tables, launches: bool, key: string, row: Launch, record: Faults,
                     outcome: Option<int>, r: Result<int, Failure>) {
    var unknown := WithLaunch(t, key, row.(state := Unknown));
    if !launches then
      && r.Err?
      && (t' == t ||
          (MayClaim(t, key, row.scope, row.generation, row.hash) && t' in {WithLaunch(t, key, row), unknown}))
    else
      match outcome
      case None => r == Err(LauncherFailed) && t' == unknown
      case Some(code) =>
        var terminal := WithLaunch(t, key, row.(state := Terminal, exitCode := Some(code)));
        && (r.Ok? <==> IsExitCode(code) && Clean(record))
        && (if r.Ok? then r == Ok(code) && t' == terminal else t' in {unknown, terminal})
  }

  method ExecuteLocalCommand(store: AuthorityStore, launcher: Launcher, hash: Spec -> string, key: string,
                             scope: string, generation: int, spec: Spec,
                             claim: Faults, mark: Faults, record: Faults, outcome: Option<int>)
    returns (r: Result<int, Failure>)
    requires store.Valid() && ValidTables(store.database.tables)
    modifies store, store.database, launcher
    ensures store.Valid() && ValidTables(store.database.tables)
    ensures Extends(old(store.database.tables), store.database.tables)
    ensures
      var row := Launch(hash(spec), scope, generation, Unknown, None);
      var launches :=
        Launches(old(store.View()), old(store.database.tables), key, scope, generation, hash(spec), claim, mark);
      launcher.launched == old(launcher.launched) + if launches then [Launched(key, spec, Some(row))] else []
    ensures Executed(old(store.database.tables), store.database.tables,
                     Launches(old(store.View()), old(store.database.tables), key, scope, generation, hash(spec),
                              claim, mark),
                     key, Launch(hash(spec), scope, generation, Intent, None), record, outcome, r)
  {
    var frozen := hash(spec);
    hide ValidTables, Extends, Attempt, Transact, ArgumentError, MayClaim, Clean, Launches;
    ghost var t := store.database.tables;
    var refused := ConsumeAuthority(store, key, scope, generation, frozen, claim, mark);
    if refused.Some? {
      return Err(refused.value);
    }
    ghost var t2 := store.database.tables;
    ghost var row := Launch(frozen, scope, generation, Unknown, None);

    var exitCode := launcher.Launch(spec, outcome, key, Lookup(t2.launches, key));
    if exitCode.None? {
      return Err(LauncherFailed);
    }

    CallOutcome(Open, t2, RecordTerminal(key, frozen, exitCode.value), record);
    AdvanceOutcome(t2, key, row, exitCode.value);
    var recorded := store.RecordExecutionTerminalResult(key, frozen, exitCode.value, record);
    ExtendsTransitive(t, t2, store.database.tables);
    Rewritten(t, key, row, row.(state := Terminal, exitCode := exitCode));
    if recorded.Err? {
      return Err(StoreError(recorded.error));
    }
    return Ok(exitCode.value);
  }

  // ---- run_workgraph_client ----

  // Faults by the position of the store call in the client's program.
  type Schedule = nat -> Faults

  // Whether the client makes its store call number i, as long as nothing goes wrong before: a launch is only looked
  // for under a known key, only a new key is registered, and only a key without an admission is admitted.
  predicate IsCalled(t: Tables, key: string, i: nat) {
    match i
    case 1 => key in t.keys
    case 2 => key !in t.keys
    case 6 => key !in t.admissions
    case _ => true
  }

  // No call from number i on and before number n meets a fault.
  ghost predicate PathClean(t: Tables, key: string, f: Schedule, i: nat, n: nat) {
    forall k: nat :: i <= k < n && IsCalled(t, key, k) ==> Clean(f(k))
  }

  datatype ClientResult =
    ClientResult(key: string, hash: string, exitCode: Option<int>, state: LaunchState, published: bool)

  // The key can be bound to the command, and admitted under the current generation of the fixed scope.
  predicate CanEstablish(t: Tables, key: string, hash: string) {
    && key != "" && hash != "" && SCOPE in t.generations
    && (key in t.bindings ==> t.bindings[key] == hash)
    && (key in t.admissions ==> t.admissions[key].generation == t.generations[SCOPE])
  }

  function Established(t: Tables, key: string, hash: string): Tables
    requires SCOPE in t.generations
  {
    var admission := if key in t.admissions then t.admissions[key] else Admission(SCOPE, t.generations[SCOPE]);
    t.(keys := t.keys + {key}, bindings := t.bindings[key := hash], admissions := t.admissions[key := admission])
  }

  function Bounden(t: Tables, key: string, hash: string): Tables {
    t.(keys := t.keys + {key}, bindings := t.bindings[key := hash])
  }

  method RegisterAndBind(store: AuthorityStore, key: string, hash: string, known: bool, f: Schedule)
    returns (failure: Option<Failure>)
    requires store.Valid() && ValidTables(store.database.tables) && (known ==> key in store.database.tables.keys)
    modifies store, store.database
    ensures store.Valid() && ValidTables(store.database.tables)
    ensures Extends(old(store.database.tables), store.database.tables)
    ensures
      var (t, t') := (old(store.database.tables), store.database.tables);
      && t'.launches == t.launches
      && (failure.None? ==> store.View().Open? && t' == Bounden(t, key, hash))
      && (failure.None? <==>
            && old(store.View()).Open? && key != "" && hash != "" && (key in t.bindings ==> t.bindings[key] == hash)
            && (known || Clean(f(2))) && Clean(f(3)))
  {
    ghost var (h, t) := (store.View(), store.database.tables);
    hide ValidTables, Extends, Attempt;
    if !known {
      CallOutcome(h, t, RegisterKey(key), f(2));
      var registered := store.RegisterExecutionKey(key, f(2));
      if registered.Err? {
        return Some(StoreError(registered.error));
      }
    }
    ghost var (h1, t1) := (store.View(), store.database.tables);
    assert t1 == t.(keys := t.keys + {key});
    CallOutcome(h1, t1, BindCommand(key, hash), f(3));
    var bound := store.BindCommandSpecHash(key, hash, f(3));
    if !known {
      ExtendsTransitive(t, t1, store.database.tables);
    }
    if bound.Err? {
      return Some(StoreError(bound.error));
    }
    return None;
  }

  function WithAdmission(t: Tables, key: string, a: Admission): Tables { t.(admissions := t.admissions[key := a]) }

  lemma AdmitOutcome(t: Tables, key: string, g: int)
    requires ValidTables(t) && key in t.bindings && key !in t.admissions && Lookup(t.generations, SCOPE) == Some(g)
    ensures ArgumentError(Admit(key, SCOPE, g)).None?
    ensures Transact(Admit(key, SCOPE, g), t) == Ok((WithAdmission(t, key, Admission(SCOPE, g)), Admitted(true)))
  {
  }

  lemma ReadOutcome(t: Tables, c: Call)
    requires ValidTables(t)
    ensures c.ReadGeneration? ==> Transact(c, t) == Ok((t, GenerationIs(Lookup(t.generations, c.scope))))
    ensures c.KeyExists? ==> Transact(c, t) == Ok((t, Presence(c.key in t.keys)))
    ensures c.ReadAdmission? && c.key in t.keys ==> Transact(c, t) == Ok((t, AdmissionIs(Lookup(t.admissions, c.key))))
    ensures c.ReadLaunch? && c.key in t.keys ==> Transact(c, t) == Ok((t, LaunchIs(Lookup(t.launches, c.key))))
  {
    hide ValidTables;
  }

  method AdmitCurrent(store: AuthorityStore, key: string, f: Schedule) returns (r: Result<int, Failure>)
    requires store.Valid() && ValidTables(store.database.tables)
    requires key != "" && key in store.database.tables.bindings && key in store.database.tables.keys
    modifies store, store.database
    ensures store.Valid() && ValidTables(store.database.tables)
    ensures Extends(old(store.database.tables), store.database.tables)
    ensures
      var (t, t') := (old(store.database.tables), store.database.tables);
      var scope := "umbilical/workgraph-first-client/v1";
      var current := Lookup(t.generations, scope);
      var prior := Lookup(t.admissions, key);
      var granted := current.Some? && (prior.Some? ==> prior.value.generation == current.value);
      && t'.launches == t.launches
      && (r.Ok? <==>
            && old(store.View()).Open? && granted
            && Clean(f(4)) && Clean(f(5)) && (prior.Some? || Clean(f(6))))
      && (r.Ok? ==> r.value == current.value && store.View().Open? &&
                    t' == WithAdmission(t, key, if prior.Some? then prior.value else Admission(scope, current.value)))
  {
    ghost var (h, t) := (store.View(), store.database.tables);
    hide ValidTables, Extends, Attempt, Transact;

    CallOutcome(h, t, ReadGeneration(SCOPE), f(4));
    ReadOutcome(t, ReadGeneration(SCOPE));
    var generation := store.Observe(ReadGeneration(SCOPE), f(4));
    if generation.Err? {
      return Err(StoreError(generation.error));
    }
    if generation.value.current.None? {
      return Err(ClientError);
    }
    var g := generation.value.current.value;

    CallOutcome(Open, t, ReadAdmission(key), f(5));
    ReadOutcome(t, ReadAdmission(key));
    var admission := store.Observe(ReadAdmission(key), f(5));
    if admission.Err? {
      return Err(StoreError(admission.error));
    }
    if admission.value.admission.None? {
      CallOutcome(Open, t, Admit(key, SCOPE, g), f(6));
      AdmitOutcome(t, key, g);
      var admitted := store.AdmitExecution(key, SCOPE, g, f(6));
      if admitted.Err? {
        return Err(StoreError(admitted.error));
      }
    } else if admission.value.admission.value.generation != g {
      return Err(ClientError);
    }
    return Ok(g);
  }

  method ObservePrior(store: AuthorityStore, key: string, f: Schedule)
    returns (r: Result<(bool, Option<Launch>), Failure>)
    requires store.Valid() && ValidTables(store.database.tables)
    modifies store, store.database
    ensures store.Valid() && store.database.tables == old(store.database.tables)
    ensures
      var t := old(store.database.tables);
      && (r.Ok? ==> store.View().Open? && key != "" && r.value == (key in t.keys, Lookup(t.launches, key)))
      && (r.Ok? <==> old(store.View()).Open? && key != "" && PathClean(t, key, f, 0, 2))
  {
    ghost var (h, t) := (store.View(), store.database.tables);
    assert key in t.launches ==> LaunchRowValid(t, key, t.launches[key]);
    hide ValidTables, Extends, Attempt, Transact;
    CallOutcome(h, t, KeyExists(key), f(0));
    ReadOutcome(t, KeyExists(key));
    var exists_ := store.Observe(KeyExists(key), f(0));
    if exists_.Err? {
      return Err(StoreError(exists_.error));
    }
    if !exists_.value.present {
      return Ok((false, None));
    }
    CallOutcome(Open, t, ReadLaunch(key), f(1));
    ReadOutcome(t, ReadLaunch(key));
    var launch := store.Observe(ReadLaunch(key), f(1));
    if launch.Err? {
      return Err(StoreError(launch.error));
    }
    return Ok((true, launch.value.prior));
  }

  // What a client run may come to when the key had been launched before: nothing is launched or written,
  // and only a recorded exit code is published.
  predicate ReplayOutcome(t: Tables, t': Tables, key: string, prior: Launch,
                          launches: seq<Launched>, publications: seq<Published>, r: Result<ClientResult, Failure>) {
    && t' == t && launches == []
    && match prior.exitCode
       case None => publications == [] && (r.Ok? ==> r.value == ClientResult(key, prior.hash, None, prior.state, false))
       case Some(code) =>
         && publications <= [Published(key, code)]
         && (r.Ok? ==> publications != [] && r.value == ClientResult(key, prior.hash, Some(code), Terminal, true))
  }

  // What it may come to when the key had not: at most one launch, of the command the key is bound to and
  // after UNKNOWN was recorded for it; and at most one publication, of the exit code on durable record.
  predicate FirstRunOutcome(t: Tables, t': Tables, key: string, hash: string, spec: Option<Spec>, outcome: Option<int>,
                            launches: seq<Launched>, publications: seq<Published>, r: Result<ClientResult, Failure>) {
    && (launches != [] ==>
          && spec.Some? && CanEstablish(t, key, hash) && Lookup(t'.bindings, key) == Some(hash)
          && var row := Launch(hash, SCOPE, t.generations[SCOPE], Unknown, None);
          && launches == [Launched(key, spec.value, Some(row))]
          && key in t'.launches && t'.launches[key] in {row, row.(state := Terminal, exitCode := outcome)})
    && (publications != [] ==>
          && launches != [] && outcome.Some? && publications == [Published(key, outcome.value)]
          && t'.launches[key].exitCode == outcome)
    && (launches == [] && key in t'.launches ==> !t'.launches[key].state.Terminal?)
    && (r.Ok? ==> publications != [] && r.value == ClientResult(key, hash, outcome, Terminal, true))
  }

  // When a first run launches: the key can be established for the command under the current generation of the
  // fixed scope, and no call before the launch meets a fault.
  ghost predicate LaunchesFirst(t: Tables, key: string, hash: string, f: Schedule) {
    && CanEstablish(t, key, hash) && (key in t.admissions ==> t.admissions[key].scope == SCOPE)
    && PathClean(t, key, f, 2, 9)
  }

  // When the end of the process is recorded.
  ghost predicate RecordsFirst(t: Tables, key: string, hash: string, outcome: Option<int>, f: Schedule) {
    LaunchesFirst(t, key, hash, f) && outcome.Some? && IsExitCode(outcome.value) && Clean(f(9))
  }

  ghost predicate FirstRunExactly(t: Tables, key: string, hash: string, outcome: Option<int>, publishes: bool,
                                  f: Schedule, launches: seq<Launched>, publications: seq<Published>, ok: bool) {
    && (launches != [] <==> LaunchesFirst(t, key, hash, f))
    && (publications != [] <==> RecordsFirst(t, key, hash, outcome, f))
    && (ok <==> RecordsFirst(t, key, hash, outcome, f) && publishes)
  }

  // When a client run launches, when it publishes, and when it ends well.
  ghost predicate ClientExactly(t: Tables, key: string, hash: Spec -> string, prepared: Option<Spec>,
                                outcome: Option<int>, publishes: bool, f: Schedule,
                                launches: seq<Launched>, publications: seq<Published>, ok: bool) {
    var observes := key != "" && PathClean(t, key, f, 0, 2);
    match Lookup(t.launches, key)
    case Some(prior) =>
      && launches == [] && (publications != [] <==> observes && prior.state.Terminal?)
      && (ok <==> observes && (prior.state.Terminal? ==> publishes))
    case None =>
      if !observes || prepared.None? then !ok && launches == [] && publications == []
      else FirstRunExactly(t, key, hash(prepared.value), outcome, publishes, f, launches, publications, ok)
  }

  method Establish(store: AuthorityStore, key: string, hash: string, known: bool, f: Schedule)
    returns (r: Result<int, Failure>)
    requires store.Valid() && ValidTables(store.database.tables) && (known ==> key in store.database.tables.keys)
    modifies store, store.database
    ensures store.Valid() && ValidTables(store.database.tables)
    ensures Extends(old(store.database.tables), store.database.tables)
    ensures
      var (t, t') := (old(store.database.tables), store.database.tables);
      && t'.launches == t.launches
      && (r.Ok? <==>
            && old(store.View()).Open? && CanEstablish(t, key, hash)
            && (known || Clean(f(2))) && Clean(f(3)) && Clean(f(4)) && Clean(f(5))
            && (key in t.admissions || Clean(f(6))))
      && (r.Ok? ==> store.View().Open? && t' == Established(t, key, hash) && r.value == t.generations[SCOPE])
  {
    ghost var t := store.database.tables;
    hide ValidTables, Extends, Clean;
    var refused := RegisterAndBind(store, key, hash, known, f);
    if refused.Some? {
      return Err(refused.value);
    }
    ghost var t1 := store.database.tables;
    r := AdmitCurrent(store, key, f);
    ExtendsTransitive(t, t1, store.database.tables);
  }

  lemma EstablishedMayClaim(t: Tables, key: string, hash: string)
    requires CanEstablish(t, key, hash) && key !in t.launches
    ensures MayClaim(Established(t, key, hash), key, SCOPE, t.generations[SCOPE], hash)
            <==> (key in t.admissions ==> t.admissions[key].scope == SCOPE)
  {
  }

  lemma ExecutionFits(t: Tables, t1: Tables, t': Tables, key: string, hash: string, spec: Spec, outcome: Option<int>,
                      launches: bool, record: Faults, e: Result<int, Failure>,
                      launched: seq<Launched>, published: seq<Published>, r: Result<ClientResult, Failure>)
    requires CanEstablish(t, key, hash) && t1 == Established(t, key, hash) && key !in t.launches
    requires Executed(t1, t', launches, key, Launch(hash, SCOPE, t.generations[SCOPE], Intent, None), record,
                      outcome, e)
    requires launched
          == if launches then [Launched(key, spec, Some(Launch(hash, SCOPE, t.generations[SCOPE], Unknown, None)))]
             else []
    requires published == if e.Ok? then [Published(key, e.value)] else []
    requires r.Ok? ==> e.Ok? && r.value == ClientResult(key, hash, Some(e.value), Terminal, true)
    ensures FirstRunOutcome(t, t', key, hash, Some(spec), outcome, launched, published, r)
  {
    hide MayClaim, Clean;
  }

  lemma Added<T>(before: seq<T>, more: seq<T>)
    ensures before <= before + more && (before + more)[|before|..] == more
  {
  }

  // Without an execution nothing is launched or published, and no row appears.
  lemma NothingStarted(t: Tables, t': Tables, key: string, hash: string, spec: Spec, outcome: Option<int>,
                       r: Result<ClientResult, Failure>)
    requires key !in t.launches && t'.launches == t.launches && r.Err?
    ensures FirstRunOutcome(t, t', key, hash, Some(spec), outcome, [], [], r)
  {
  }

  // A first run whose key is not established launches nothing.
  lemma FirstRunStops(t: Tables, key: string, hash: string, outcome: Option<int>, publishes: bool, f: Schedule)
    requires
      || !CanEstablish(t, key, hash) || !Clean(f(3)) || !Clean(f(4)) || !Clean(f(5))
      || (key !in t.keys && !Clean(f(2))) || (key !in t.admissions && !Clean(f(6)))
    ensures FirstRunExactly(t, key, hash, outcome, publishes, f, [], [], false)
  {
    hide CanEstablish, Clean;
    assert IsCalled(t, key, 3) && IsCalled(t, key, 4) && IsCalled(t, key, 5);
    assert (key !in t.keys ==> IsCalled(t, key, 2)) && (key !in t.admissions ==> IsCalled(t, key, 6));
  }

  // An established one launches when its execution does.
  lemma FirstRunGoesOn(t: Tables, key: string, hash: string, f: Schedule)
    requires CanEstablish(t, key, hash) && Clean(f(3)) && Clean(f(4)) && Clean(f(5)) && key !in t.launches
    requires (key in t.keys || Clean(f(2))) && (key in t.admissions || Clean(f(6)))
    ensures LaunchesFirst(t, key, hash, f) <==>
            Launches(Open, Established(t, key, hash), key, SCOPE, t.generations[SCOPE], hash, f(7), f(8))
  {
    EstablishedMayClaim(t, key, hash);
    hide CanEstablish, Clean, MayClaim, Established;
    assert IsCalled(t, key, 7) && IsCalled(t, key, 8);
    forall k: nat | 2 <= k < 9 && IsCalled(t, key, k) && Clean(f(7)) && Clean(f(8)) ensures Clean(f(k)) {
      assert k in {2, 3, 4, 5, 6, 7, 8};
    }
  }

  lemma FirstRunEnds(t: Tables, t1: Tables, t2: Tables, key: string, hash: string, spec: Spec, outcome: Option<int>,
                     publishes: bool, f: Schedule, e: Result<int, Failure>, launched: seq<Launched>,
                     published: seq<Published>, ok: bool)
    requires SCOPE in t.generations
    requires Executed(t1, t2, LaunchesFirst(t, key, hash, f), key,
                      Launch(hash, SCOPE, t.generations[SCOPE], Intent, None), f(9), outcome, e)
    requires launched != [] <==> LaunchesFirst(t, key, hash, f)
    requires published == if e.Ok? then [Published(key, e.value)] else []
    requires ok <==> e.Ok? && publishes
    ensures FirstRunExactly(t, key, hash, outcome, publishes, f, launched, published, ok)
  {
    hide LaunchesFirst, Clean, MayClaim;
  }

  // The execution of an established command, and the publication of the exit code it has recorded.
  method ExecuteAndPublish(store: AuthorityStore, launcher: Launcher, publisher: Publisher, hash: Spec -> string,
                           key: string, generation: int, spec: Spec, f: Schedule, outcome: Option<int>,
                           publishes: bool)
    returns (execution: Result<int, Failure>, published: bool)
    requires store.Valid() && ValidTables(store.database.tables)
    modifies store, store.database, launcher, publisher
    ensures store.Valid() && ValidTables(store.database.tables)
    ensures Extends(old(store.database.tables), store.database.tables)
    ensures
      var (t, h) := (old(store.database.tables), old(store.View()));
      var launches := Launches(h, t, key, SCOPE, generation, hash(spec), f(7), f(8));
      && Executed(t, store.database.tables, launches, key, Launch(hash(spec), SCOPE, generation, Intent, None), f(9),
                  outcome, execution)
      && launcher.launched == old(launcher.launched)
         + (if launches then [Launched(key, spec, Some(Launch(hash(spec), SCOPE, generation, Unknown, None)))] else [])
    ensures publisher.published == old(publisher.published)
         + if execution.Ok? then [Published(key, execution.value)] else []
    ensures published <==> execution.Ok? && publishes
  {
    hide *;
    published := false;
    execution := ExecuteLocalCommand(store, launcher, hash, key, SCOPE, generation, spec, f(7), f(8), f(9), outcome);
    if execution.Ok? {
      published := publisher.Publish(execution.value, publishes, key);
    }
  }

  method FirstRun(store: AuthorityStore, launcher: Launcher, publisher: Publisher, hash: Spec -> string, key: string,
                  known: bool, spec: Spec, f: Schedule, outcome: Option<int>, publishes: bool)
    returns (r: Result<ClientResult, Failure>)
    requires store.Valid() && store.View().Open? && ValidTables(store.database.tables)
    requires key !in store.database.tables.launches && (known <==> key in store.database.tables.keys)
    modifies store, store.database, launcher, publisher
    ensures store.Valid() && ValidTables(store.database.tables)
    ensures Extends(old(store.database.tables), store.database.tables)
    ensures old(launcher.launched) <= launcher.launched && old(publisher.published) <= publisher.published
    ensures FirstRunOutcome(old(store.database.tables), store.database.tables, key, hash(spec), Some(spec), outcome,
                            launcher.launched[|old(launcher.launched)|..],
                            publisher.published[|old(publisher.published)|..], r)
    ensures FirstRunExactly(old(store.database.tables), key, hash(spec), outcome, publishes, f,
                            launcher.launched[|old(launcher.launched)|..],
                            publisher.published[|old(publisher.published)|..], r.Ok?)
  {
    ghost var t := store.database.tables;
    ghost var (l, p) := (launcher.launched, publisher.published);
    Added(l, []);
    Added(p, []);
    hide *;
    var frozen := hash(spec);
    var generation := Establish(store, key, frozen, known, f);
    ghost var t1 := store.database.tables;
    if generation.Err? {
      r := Err(generation.error);
      NothingStarted(t, t1, key, frozen, spec, outcome, r);
      FirstRunStops(t, key, frozen, outcome, publishes, f);
      return;
    }
    FirstRunGoesOn(t, key, frozen, f);
    var execution, published :=
      ExecuteAndPublish(store, launcher, publisher, hash, key, generation.value, spec, f, outcome, publishes);
    ghost var t2 := store.database.tables;
    ExtendsTransitive(t, t1, t2);
    r := match execution
         case Err(failure) => Err(failure)
         case Ok(code) =>
           if published then Ok(ClientResult(key, frozen, Some(code), Terminal, true)) else Err(PublisherFailed);
    ghost var launches := Launches(Open, t1, key, SCOPE, generation.value, frozen, f(7), f(8));
    ghost var (launched, publications) := (launcher.launched[|l|..], publisher.published[|p|..]);
    ExecutionFits(t, t1, t2, key, frozen, spec, outcome, launches, f(9), execution, launched, publications, r);
    FirstRunEnds(t, t1, t2, key, frozen, spec, outcome, publishes, f, execution, launched, publications, r.Ok?);
  }

  // The whole client. authenticated is the key of the verified target; prepared is the command of the
  // checkout, once it has been prepared and has passed its preflight.
  method RunWorkgraphClient(database: Database, launcher: Launcher, publisher: Publisher, hash: Spec -> string,
                            authenticated: Option<string>, prepared: Option<Spec>, opening: Faults, f: Schedule,
                            outcome: Option<int>, publishes: bool)
    returns (r: Result<ClientResult, Failure>)
    modifies database, launcher, publisher
    ensures old(launcher.launched) <= launcher.launched && old(publisher.published) <= publisher.published
    ensures ValidTables(old(database.tables)) ==>
              ValidTables(database.tables) && Extends(old(database.tables), database.tables)
    ensures authenticated.None? || !ValidTables(old(database.tables)) || opening.validationFails ==>
              && r.Err? && database.tables == old(database.tables)
              && launcher.launched == old(launcher.launched) && publisher.published == old(publisher.published)
    ensures authenticated.Some? && ValidTables(old(database.tables)) && !opening.validationFails ==>
              ClientOutcome(old(database.tables), database.tables, authenticated.value, hash, prepared, outcome,
                            launcher.launched[|old(launcher.launched)|..],
                            publisher.published[|old(publisher.published)|..], r)
    ensures authenticated.Some? && ValidTables(old(database.tables)) && !opening.validationFails ==>
              ClientExactly(old(database.tables), authenticated.value, hash, prepared, outcome, publishes, f,
                            launcher.launched[|old(launcher.launched)|..],
                            publisher.published[|old(publisher.published)|..], r.Ok?)
  {
    ghost var t := database.tables;
    Added(launcher.launched, []);
    Added(publisher.published, []);
    ExtendsReflexive(t);
    hide ValidTables, Extends, FirstRunOutcome, FirstRunExactly, CanEstablish;
    if authenticated.None? {
      return Err(ClientError);
    }
    var existing := OpenExisting(database, opening);
    if existing.Err? {
      return Err(StoreError(existing.error));
    }
    var store := existing.value;
    r := RunWithStore(store, launcher, publisher, hash, authenticated.value, prepared, f, outcome, publishes);
    store.Close();
  }

  predicate ClientOutcome(t: Tables, t': Tables, key: string, hash: Spec -> string, prepared: Option<Spec>,
                          outcome: Option<int>, launches: seq<Launched>, publications: seq<Published>,
                          r: Result<ClientResult, Failure>) {
    match Lookup(t.launches, key)
    case Some(prior) => ReplayOutcome(t, t', key, prior, launches, publications, r)
    case None =>
      match prepared
      case None => r.Err? && t' == t && launches == [] && publications == []
      case Some(spec) => FirstRunOutcome(t, t', key, hash(spec), prepared, outcome, launches, publications, r)
  }

  method RunWithStore(store: AuthorityStore, launcher: Launcher, publisher: Publisher, hash: Spec -> string,
                      key: string, prepared: Option<Spec>, f: Schedule, outcome: Option<int>, publishes: bool)
    returns (r: Result<ClientResult, Failure>)
    requires store.Valid() && store.View().Open? && ValidTables(store.database.tables)
    modifies store, store.database, launcher, publisher
    ensures store.Valid() && ValidTables(store.database.tables)
    ensures Extends(old(store.database.tables), store.database.tables)
    ensures old(launcher.launched) <= launcher.launched && old(publisher.published) <= publisher.published
    ensures ClientOutcome(old(store.database.tables), store.database.tables, key, hash, prepared, outcome,
                          launcher.launched[|old(launcher.launched)|..],
                          publisher.published[|old(publisher.published)|..], r)
    ensures ClientExactly(old(store.database.tables), key, hash, prepared, outcome, publishes, f,
                          launcher.launched[|old(launcher.launched)|..],
                          publisher.published[|old(publisher.published)|..], r.Ok?)
  {
    ghost var t := store.database.tables;
    ghost var p := publisher.published;
    Added(launcher.launched, []);
    Added(p, []);
    ExtendsReflexive(t);
    PriorFits(t, key);
    hide ValidTables, Extends, FirstRunOutcome;
    var observed := ObservePrior(store, key, f);
    if observed.Err? {
      r := Err(observed.error);
      if prepared.Some? {
        NothingStartedUnless(t, key, hash(prepared.value), prepared.value, outcome, r);
      }
      return;
    }
    var (known, prior) := observed.value;
    if prior.Some? {
      if !prior.value.state.Terminal? {
        return Ok(ClientResult(key, prior.value.hash, None, prior.value.state, false));
      }
      if prior.value.exitCode.None? {
        return Err(ClientError);
      }
      var published := publisher.Publish(prior.value.exitCode.value, publishes, key);
      Added(p, [Published(key, prior.value.exitCode.value)]);
      if !published {
        return Err(PublisherFailed);
      }
      return Ok(ClientResult(key, prior.value.hash, prior.value.exitCode, Terminal, true));
    }
    if prepared.None? {
      return Err(ClientError);
    }
    r := FirstRun(store, launcher, publisher, hash, key, known, prepared.value, f, outcome, publishes);
  }

  lemma PriorFits(t: Tables, key: string)
    requires ValidTables(t)
    ensures key in t.launches ==> (t.launches[key].exitCode.Some? <==> t.launches[key].state.Terminal?)
  {
    assert key in t.launches ==> LaunchRowValid(t, key, t.launches[key]);
  }

  lemma NothingStartedUnless(t: Tables, key: string, hash: string, spec: Spec, outcome: Option<int>,
                             r: Result<ClientResult, Failure>)
    requires r.Err?
    ensures key !in t.launches ==> FirstRunOutcome(t, t, key, hash, Some(spec), outcome, [], [], r)
  {
  }

  // After a run that launched, every later run for the key replays: it launches nothing, and publishes
  // nothing but the exit code the first one saw.
  lemma LaterRunsReplay(t0: Tables, t1: Tables, t2: Tables, t3: Tables, key: string,
                        hash: Spec -> string, prepared: Option<Spec>, outcome: Option<int>,
                        launches: seq<Launched>, publications: seq<Published>, r: Result<ClientResult, Failure>,
                        hash': Spec -> string, prepared': Option<Spec>, outcome': Option<int>,
                        launches': seq<Launched>, publications': seq<Published>, r': Result<ClientResult, Failure>)
    requires ClientOutcome(t0, t1, key, hash, prepared, outcome, launches, publications, r) && launches != []
    requires Extends(t1, t2)
    requires ClientOutcome(t2, t3, key, hash', prepared', outcome', launches', publications', r')
    ensures launches' == []
    ensures forall x, y :: x in publications && y in publications' ==> x == y
    ensures r.Ok? ==> publications' <= publications
  {
    assert key in t1.launches && key in t2.launches && LaunchEvolves(t1.launches[key], t2.launches[key]);
  }
}
