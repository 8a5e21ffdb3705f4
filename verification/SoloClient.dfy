/** The client program of LaunchProtocol, run by one controller without interference, against the contract of
    the client method in LocalExecutions. */
module SoloClient {
  import opened Prelude
  import opened AuthorityTables
  import opened AuthorityHandle
  import opened LaunchProtocol
  import CommandSpec
  import L = LocalExecutions

  // What the surroundings do: faults by the position of the store call, the command prepared, the observed
  // outcome of the process, and whether publishing succeeds.
  datatype Env = Env(
    hash: Spec -> string, faults: nat -> Faults, prepared: Option<Spec>, outcome: Option<int>, publishes: bool)

  datatype Solo =
    Solo(handle: Handle, tables: Tables, pc: Pc, launched: seq<L.Launched>, published: seq<L.Published>)

  function Position(pc: Pc): nat {
    match pc
    case CheckingKey(_, _) => 0
    case ReadingLaunch(_, _) => 1
    case Registering(_) => 2
    case Binding(_) => 3
    case ReadingGeneration(_) => 4
    case ReadingAdmission(_, _) => 5
    case Admitting(_, _) => 6
    case Claiming(_) => 7
    case Marking(_) => 8
    case _ => 9
  }

  // One uninterrupted move of the program.
  function Move(x: Solo, env: Env): Solo {
    match NextCall(x.pc)
    case Some(c) =>
      var a := Attempt(x.handle, x.tables, c, env.faults(Position(x.pc)));
      x.(handle := a.handle, tables := a.tables, pc := Resume(x.pc, a.result))
    case None =>
      match x.pc
      case Preparing(target, key, known) =>
        x.(pc := match env.prepared
                 case None => Failed
                 case Some(spec) =>
                   var j := Job(target, key, spec, env.hash(spec));
                   if known then Binding(j) else Registering(j))
      case Launching(e) =>
        x.(pc := Running(e),
           launched := x.launched + [L.Launched(e.key, e.spec, Lookup(x.tables.launches, e.key))])
      case Running(e) => x.(pc := match env.outcome case None => Failed case Some(code) => Recording(e, code))
      case Publishing(_, key, code) =>
        x.(pc := if env.publishes then Done else Failed, published := x.published + [L.Published(key, code)])
      case _ => x
  }

  function Moves(x: Solo, env: Env, n: nat): Solo { if n == 0 then x else Move(Moves(x, env, n - 1), env) }

  // ---- A move is one or two steps of the state machine ----

  ghost predicate Seen(s: State, p: nat, x: Solo) {
    p in s.procs && s.procs[p] == Process(x.handle, x.pc, None) && s.tables == x.tables && s.writer.None?
  }

  ghost predicate Leads(n: Naming, s: State, s': State) {
    exists step :: Enabled(n, s, step) && s' == Next(s, step)
  }

  lemma StepLeads(n: Naming, s: State, step: Step)
    requires Enabled(n, s, step)
    ensures Leads(n, s, Next(s, step))
  {
  }

  // The steps of a call: refused, or begun and finished.
  lemma CallIsSteps(n: Naming, s: State, p: nat, x: Solo, env: Env) returns (s1: State, s2: State)
    requires Seen(s, p, x) && NextCall(x.pc).Some?
    ensures (s1 == s || Leads(n, s, s1)) && Leads(n, s1, s2) && Seen(s2, p, Move(x, env))
  {
    var c := NextCall(x.pc).value;
    var f := env.faults(Position(x.pc));
    var a := Attempt(x.handle, x.tables, c, f);
    if x.handle.Open? && ArgumentError(c).None? && !f.beginFails {
      s1 := Next(s, Begin(p));
      StepLeads(n, s, Begin(p));
      s2 := Next(s1, LaunchProtocol.Finish(p, f));
      UninterruptedCallIsAttempt(s, p, f);
      assert f.(beginFails := false) == f;
      StepLeads(n, s1, LaunchProtocol.Finish(p, f));
    } else {
      s1 := s;
      s2 := Next(s, Refuse(p, a.result.error));
      StepLeads(n, s, Refuse(p, a.result.error));
    }
  }

  lemma EffectIsStep(n: Naming, s: State, p: nat, x: Solo, env: Env) returns (s': State)
    requires Seen(s, p, x) && (x.pc.Preparing? || x.pc.Launching? || x.pc.Running? || x.pc.Publishing?)
    requires forall spec :: n.isHash(spec, env.hash(spec))
    ensures Leads(n, s, s') && Seen(s', p, Move(x, env))
  {
    var step := match x.pc
      case Preparing(_, _, _) =>
        Prepare(p, match env.prepared case None => None case Some(spec) => Some((spec, env.hash(spec))))
      case Launching(_) => StartProcess(p)
      case Running(_) => EndProcess(p, env.outcome)
      case _ => Publish(p, env.publishes);
    StepLeads(n, s, step);
    s' := Next(s, step);
  }

  // ---- Where the program is, and what it has done by then ----

  function Row(t: Tables, hash: string): Launch
    requires SCOPE in t.generations
  {
    Launch(hash, SCOPE, t.generations[SCOPE], Intent, None)
  }

  function Advanced(t: Tables, key: string, hash: string, state: LaunchState, code: Option<int>): Tables
    requires SCOPE in t.generations
  {
    L.WithLaunch(L.Established(t, key, hash), key, Row(t, hash).(state := state, exitCode := code))
  }

  // The result of a run that ends well.
  function Observed(t: Tables, key: string, env: Env, spec: Spec): L.ClientResult {
    match Lookup(t.launches, key)
    case None => L.ClientResult(key, env.hash(spec), env.outcome, Terminal, true)
    case Some(prior) =>
      match prior.exitCode
      case None => L.ClientResult(key, prior.hash, None, prior.state, false)
      case Some(code) => L.ClientResult(key, prior.hash, Some(code), Terminal, true)
  }

  predicate Outcome(t: Tables, key: string, env: Env, x: Solo, r: Result<L.ClientResult, L.Failure>) {
    L.ClientOutcome(t, x.tables, key, env.hash, env.prepared, env.outcome, x.launched, x.published, r)
  }

  predicate Ended(t: Tables, key: string, env: Env, x: Solo) {
    if x.pc.Done? then
      match env.prepared
      case None => key in t.launches && Outcome(t, key, env, x, Ok(Observed(t, key, env, AnySpec())))
      case Some(spec) => Outcome(t, key, env, x, Ok(Observed(t, key, env, spec)))
    else Outcome(t, key, env, x, Err(L.ClientError))
  }

  function AnySpec(): Spec { CommandSpec.Spec("", [], "", [], 0) }

  predicate Untouched(t: Tables, x: Solo) { x.tables == t && x.launched == [] && x.published == [] }

  predicate IsJob(j: Job, target: Target, key: string, env: Env) {
    env.prepared.Some? && j == Job(target, key, env.prepared.value, env.hash(env.prepared.value))
  }

  // The command is ready and the key is its own, as far as the store says.
  predicate Bindable(t: Tables, key: string, hash: string) {
    key != "" && hash != "" && (key in t.bindings ==> t.bindings[key] == hash)
  }

  predicate Bounden(t: Tables, key: string, hash: string, x: Solo) {
    && Bindable(t, key, hash) && x.tables == L.Bounden(t, key, hash) && x.launched == [] && x.published == []
  }

  predicate IsExecution(t: Tables, e: Execution, j: Job) {
    L.CanEstablish(t, j.key, j.hash) && e == ExecutionOf(j, t.generations[SCOPE])
  }

  predicate OneLaunch(t: Tables, key: string, hash: string, spec: Spec, x: Solo)
    requires SCOPE in t.generations
  {
    x.launched == [L.Launched(key, spec, Some(Row(t, hash).(state := Unknown)))]
  }

  predicate On(t: Tables, target: Target, key: string, env: Env, x: Solo) {
    match x.pc
    case CheckingKey(u, k) => x.handle.Open? && u == target && k == key && Untouched(t, x)
    case ReadingLaunch(u, k) => x.handle.Open? && u == target && k == key && Untouched(t, x) && key in t.keys
    case Preparing(u, k, known) =>
      && x.handle.Open? && u == target && k == key && Untouched(t, x)
      && key !in t.launches && (known <==> key in t.keys)
    case Registering(j) => x.handle.Open? && IsJob(j, target, key, env) && Untouched(t, x) && key !in t.launches
    case Binding(j) =>
      && x.handle.Open? && IsJob(j, target, key, env) && key !in t.launches
      && x.tables == t.(keys := t.keys + {key}) && x.launched == [] && x.published == []
    case ReadingGeneration(j) =>
      x.handle.Open? && IsJob(j, target, key, env) && key !in t.launches && Bounden(t, key, j.hash, x)
    case ReadingAdmission(j, g) =>
      && x.handle.Open? && IsJob(j, target, key, env) && key !in t.launches && Bounden(t, key, j.hash, x)
      && Lookup(t.generations, SCOPE) == Some(g)
    case Admitting(j, g) =>
      && x.handle.Open? && IsJob(j, target, key, env) && key !in t.launches && Bounden(t, key, j.hash, x)
      && Lookup(t.generations, SCOPE) == Some(g) && key !in t.admissions
    case Claiming(e) =>
      && x.handle.Open? && key !in t.launches && x.launched == [] && x.published == []
      && Executing(t, target, key, env, e) && x.tables == L.Established(t, key, e.hash)
    case Marking(e) =>
      && x.handle.Open? && key !in t.launches && x.launched == [] && x.published == []
      && Executing(t, target, key, env, e) && x.tables == Advanced(t, key, e.hash, Intent, None)
    case Launching(e) =>
      && x.handle.Open? && key !in t.launches && x.launched == [] && x.published == []
      && Executing(t, target, key, env, e) && x.tables == Advanced(t, key, e.hash, Unknown, None)
    case Running(e) =>
      && x.handle.Open? && key !in t.launches && x.published == []
      && Executing(t, target, key, env, e) && x.tables == Advanced(t, key, e.hash, Unknown, None)
      && OneLaunch(t, key, e.hash, e.spec, x)
    case Recording(e, code) =>
      && x.handle.Open? && key !in t.launches && x.published == [] && env.outcome == Some(code)
      && Executing(t, target, key, env, e) && x.tables == Advanced(t, key, e.hash, Unknown, None)
      && OneLaunch(t, key, e.hash, e.spec, x)
    case Publishing(u, k, code) =>
      && k == key && x.published == []
      && if key in t.launches then
           && x.tables == t && x.launched == []
           && t.launches[key].state.Terminal? && t.launches[key].exitCode == Some(code)
         else
           && env.prepared.Some? && env.outcome == Some(code)
           && var hash := env.hash(env.prepared.value);
           && L.CanEstablish(t, key, hash) && x.tables == Advanced(t, key, hash, Terminal, Some(code))
           && OneLaunch(t, key, hash, env.prepared.value, x)
    case Done => Ended(t, key, env, x)
    case Failed => Ended(t, key, env, x)
    case _ => false
  }

  predicate Executing(t: Tables, target: Target, key: string, env: Env, e: Execution) {
    && env.prepared.Some?
    && var j := Job(target, key, env.prepared.value, env.hash(env.prepared.value));
       IsExecution(t, e, j)
  }

  // How many moves the program still has at most.
  function Rank(pc: Pc): nat {
    match pc
    case CheckingKey(_, _) => 14
    case ReadingLaunch(_, _) => 13
    case Preparing(_, _, _) => 12
    case Registering(_) => 11
    case Binding(_) => 10
    case ReadingGeneration(_) => 9
    case ReadingAdmission(_, _) => 8
    case Admitting(_, _) => 7
    case Claiming(_) => 6
    case Marking(_) => 5
    case Launching(_) => 4
    case Running(_) => 3
    case Recording(_, _) => 2
    case Publishing(_, _, _) => 1
    case _ => 0
  }

  // ---- Ends ----

  lemma UntouchedFails(t: Tables, key: string, env: Env, x: Solo)
    requires ValidTables(t) && Untouched(t, x) && x.pc.Failed?
    ensures Ended(t, key, env, x)
  {
    hide ValidTables;
  }

  // A first run that fails short of a launch, or before the end of the process is on record.
  lemma FirstRunFails(t: Tables, key: string, env: Env, x: Solo)
    requires key !in t.launches && x.pc.Failed? && env.prepared.Some? && x.published == []
    requires
      var (spec, hash) := (env.prepared.value, env.hash(env.prepared.value));
      || (x.launched == [] && (key in x.tables.launches ==> !x.tables.launches[key].state.Terminal?))
      || (&& L.CanEstablish(t, key, hash) && OneLaunch(t, key, hash, spec, x)
          && x.tables in {Advanced(t, key, hash, Unknown, None), Advanced(t, key, hash, Terminal, env.outcome)})
    ensures Ended(t, key, env, x)
  {
  }

  lemma PublishedEnds(t: Tables, target: Target, key: string, env: Env, x: Solo)
    requires ValidTables(t) && x.pc.Publishing? && On(t, target, key, env, x)
    ensures Ended(t, key, env, Move(x, env))
  {
    hide ValidTables;
  }

  // ---- The moves ----

  lemma MoveIsCall(x: Solo, env: Env)
    requires NextCall(x.pc).Some?
    ensures
      var a := Attempt(x.handle, x.tables, NextCall(x.pc).value, env.faults(Position(x.pc)));
      Move(x, env) == x.(handle := a.handle, tables := a.tables, pc := Resume(x.pc, a.result))
  {
    hide Attempt, Resume;
  }

  ghost predicate Keeps(t: Tables, target: Target, key: string, env: Env, x: Solo) {
    ValidTables(x.tables) && On(t, target, key, env, x)
  }

  lemma MoveOfCheckingKey(t: Tables, target: Target, key: string, env: Env, x: Solo)
    requires ValidTables(t) && Keeps(t, target, key, env, x) && x.pc.CheckingKey?
    ensures Keeps(t, target, key, env, Move(x, env))
  {
    LaunchedIsKnown(t, key);
    MoveIsCall(x, env);
    hide ValidTables, Extends, Attempt, Transact, Ended, Move, Position, ArgumentError;
    L.CallOutcome(Open, t, KeyExists(key), env.faults(Position(x.pc)));
    L.ReadOutcome(t, KeyExists(key));
    var x' := Move(x, env);
    if x'.pc.Failed? {
      UntouchedFails(t, key, env, x');
      hide On, NextCall;
      EndedIsOn(t, target, key, env, x');
    }
  }

  lemma MoveOfReadingLaunch(t: Tables, target: Target, key: string, env: Env, x: Solo)
    requires ValidTables(t) && Keeps(t, target, key, env, x) && x.pc.ReadingLaunch?
    ensures Keeps(t, target, key, env, Move(x, env))
  {
    L.PriorFits(t, key);
    MoveIsCall(x, env);
    hide ValidTables, Extends, Attempt, Transact, Ended, Move, Position, ArgumentError;
    L.CallOutcome(Open, t, ReadLaunch(key), env.faults(Position(x.pc)));
    L.ReadOutcome(t, ReadLaunch(key));
    var x' := Move(x, env);
    if x'.pc.Failed? {
      UntouchedFails(t, key, env, x');
      hide On, NextCall;
      EndedIsOn(t, target, key, env, x');
    } else if x'.pc.Done? {
      ObservedEnds(t, key, env, x');
      hide On, NextCall;
      EndedIsOn(t, target, key, env, x');
    }
  }

  lemma LaunchedIsKnown(t: Tables, key: string)
    requires ValidTables(t)
    ensures key in t.launches ==> key in t.keys
  {
    assert key in t.launches ==> LaunchRowValid(t, key, t.launches[key]);
  }

  lemma ObservedEnds(t: Tables, key: string, env: Env, x: Solo)
    requires x.pc.Done? && Untouched(t, x) && key in t.launches && t.launches[key].exitCode.None?
    ensures Ended(t, key, env, x)
  {
  }

  lemma MoveOfPreparing(t: Tables, target: Target, key: string, env: Env, x: Solo)
    requires ValidTables(t) && Keeps(t, target, key, env, x) && x.pc.Preparing?
    ensures Keeps(t, target, key, env, Move(x, env))
  {
    hide ValidTables, Ended;
    var x' := Move(x, env);
    if x'.pc.Failed? {
      UntouchedFails(t, key, env, x');
    } else if x.pc.known {
      assert t == t.(keys := t.keys + {key});
    }
  }

  lemma RegisterOutcome(t: Tables, key: string, hash: string)
    requires ValidTables(t)
    ensures ArgumentError(RegisterKey(key)).None? ==>
      Transact(RegisterKey(key), t).Ok? && Transact(RegisterKey(key), t).value.0 == t.(keys := t.keys + {key})
    ensures ArgumentError(BindCommand(key, hash)).None? && Transact(BindCommand(key, hash), t).Ok? ==>
      && Bindable(t, key, hash) && key in t.keys
      && Transact(BindCommand(key, hash), t).value.0 == t.(bindings := t.bindings[key := hash])
  {
    hide ValidTables;
    assert key in t.keys ==> t == t.(keys := t.keys + {key});
    assert key in t.bindings ==> t.bindings[key := t.bindings[key]] == t.bindings;
  }

  lemma EndedIsOn(t: Tables, target: Target, key: string, env: Env, x: Solo)
    requires (x.pc.Done? || x.pc.Failed?) && Ended(t, key, env, x)
    ensures On(t, target, key, env, x)
  {
  }

  // A call that fails short of a launch, leaving no terminal row.
  lemma CallFails(t: Tables, target: Target, key: string, env: Env, x: Solo)
    requires key !in t.launches && x.pc.Failed? && env.prepared.Some? && x.launched == [] && x.published == []
    requires key in x.tables.launches ==> !x.tables.launches[key].state.Terminal?
    ensures On(t, target, key, env, x)
  {
    hide Ended;
    FirstRunFails(t, key, env, x);
  }

  // Nothing has been launched or published yet.
  predicate Clear(t: Tables, key: string, x: Solo) {
    x.handle.Open? && key !in t.launches && x.launched == [] && x.published == []
  }

  lemma WhileBinding(t: Tables, target: Target, key: string, env: Env, x: Solo)
    requires On(t, target, key, env, x) && (x.pc.Registering? || x.pc.Binding?)
    ensures Clear(t, key, x) && IsJob(x.pc.job, target, key, env) && x.pc.job.key == key && env.prepared.Some?
    ensures x.tables == if x.pc.Registering? then t else t.(keys := t.keys + {key})
  {
  }

  lemma JobIsOn(t: Tables, target: Target, key: string, env: Env, x: Solo)
    requires Clear(t, key, x) && (x.pc.Binding? || x.pc.ReadingGeneration?) && IsJob(x.pc.job, target, key, env)
    requires x.pc.Binding? ==> x.tables == t.(keys := t.keys + {key})
    requires x.pc.ReadingGeneration? ==> Bounden(t, key, x.pc.job.hash, x)
    ensures On(t, target, key, env, x)
  {
  }

  lemma MoveOfRegistering(t: Tables, target: Target, key: string, env: Env, x: Solo)
    requires ValidTables(t) && Keeps(t, target, key, env, x) && (x.pc.Registering? || x.pc.Binding?)
    ensures Keeps(t, target, key, env, Move(x, env))
  {
    var c := NextCall(x.pc).value;
    MoveIsCall(x, env);
    WhileBinding(t, target, key, env, x);
    hide On, Move, Position, ValidTables, Extends, Attempt, Transact, ArgumentError, IsJob;
    RegisterOutcome(x.tables, key, x.pc.job.hash);
    L.CallOutcome(Open, x.tables, c, env.faults(Position(x.pc)));
    var x' := Move(x, env);
    if x'.pc.Failed? {
      CallFails(t, target, key, env, x');
    } else {
      JobIsOn(t, target, key, env, x');
    }
  }

  lemma WhileAdmitting(t: Tables, target: Target, key: string, env: Env, x: Solo)
    requires On(t, target, key, env, x)
    requires x.pc.ReadingGeneration? || x.pc.ReadingAdmission? || x.pc.Admitting?
    ensures
      var j := x.pc.job;
      && Clear(t, key, x) && IsJob(j, target, key, env) && j.key == key && env.prepared.Some?
      && Bounden(t, key, j.hash, x) && x.tables == L.Bounden(t, key, j.hash) && Bindable(t, key, j.hash)
    ensures !x.pc.ReadingGeneration? ==> Lookup(t.generations, SCOPE) == Some(x.pc.generation)
    ensures x.pc.Admitting? ==> key !in t.admissions
  {
  }

  lemma AdmittingIsOn(t: Tables, target: Target, key: string, env: Env, x: Solo)
    requires (x.pc.ReadingAdmission? || x.pc.Admitting?) && Clear(t, key, x) && IsJob(x.pc.job, target, key, env)
    requires Bounden(t, key, x.pc.job.hash, x) && Lookup(t.generations, SCOPE) == Some(x.pc.generation)
    requires x.pc.Admitting? ==> key !in t.admissions
    ensures On(t, target, key, env, x)
  {
  }

  lemma ClaimingIsOn(t: Tables, target: Target, key: string, env: Env, j: Job, g: int, x: Solo)
    requires x.pc == Claiming(ExecutionOf(j, g)) && Clear(t, key, x) && IsJob(j, target, key, env)
    requires Bindable(t, key, j.hash) && Lookup(t.generations, SCOPE) == Some(g)
    requires key in t.admissions ==> t.admissions[key].generation == g
    requires x.tables == L.Established(t, key, j.hash)
    ensures On(t, target, key, env, x)
  {
  }

  lemma MoveOfReadingGeneration(t: Tables, target: Target, key: string, env: Env, x: Solo)
    requires ValidTables(t) && Keeps(t, target, key, env, x) && x.pc.ReadingGeneration?
    ensures Keeps(t, target, key, env, Move(x, env))
  {
    var c := NextCall(x.pc).value;
    MoveIsCall(x, env);
    WhileAdmitting(t, target, key, env, x);
    hide On, Move, Position, ValidTables, Extends, Attempt, Transact, ArgumentError, IsJob;
    L.CallOutcome(Open, x.tables, c, env.faults(Position(x.pc)));
    L.ReadOutcome(x.tables, c);
    var x' := Move(x, env);
    if x'.pc.Failed? {
      CallFails(t, target, key, env, x');
    } else {
      AdmittingIsOn(t, target, key, env, x');
    }
  }

  lemma AdmittedIsEstablished(t: Tables, key: string, hash: string, g: int)
    requires Lookup(t.generations, SCOPE) == Some(g) && key in t.admissions && t.admissions[key].generation == g
    ensures L.Bounden(t, key, hash) == L.Established(t, key, hash)
  {
  }

  lemma MoveOfReadingAdmission(t: Tables, target: Target, key: string, env: Env, x: Solo)
    requires ValidTables(t) && Keeps(t, target, key, env, x) && x.pc.ReadingAdmission?
    ensures Keeps(t, target, key, env, Move(x, env))
  {
    var c := NextCall(x.pc).value;
    MoveIsCall(x, env);
    WhileAdmitting(t, target, key, env, x);
    hide On, Move, Position, ValidTables, Extends, Attempt, Transact, ArgumentError, IsJob;
    assert c == ReadAdmission(key) && x.tables.admissions == t.admissions;
    L.CallOutcome(Open, x.tables, c, env.faults(Position(x.pc)));
    L.ReadOutcome(x.tables, c);
    var x' := Move(x, env);
    if x'.pc.Failed? {
      CallFails(t, target, key, env, x');
    } else if key !in t.admissions {
      AdmittingIsOn(t, target, key, env, x');
    } else {
      AdmittedIsEstablished(t, key, x.pc.job.hash, x.pc.generation);
      ClaimingIsOn(t, target, key, env, x.pc.job, x.pc.generation, x');
    }
  }

  lemma MoveOfAdmitting(t: Tables, target: Target, key: string, env: Env, x: Solo)
    requires ValidTables(t) && Keeps(t, target, key, env, x) && x.pc.Admitting?
    ensures Keeps(t, target, key, env, Move(x, env))
  {
    var c := NextCall(x.pc).value;
    MoveIsCall(x, env);
    WhileAdmitting(t, target, key, env, x);
    hide On, Move, Position, ValidTables, Extends, Attempt, Transact, ArgumentError, IsJob;
    L.CallOutcome(Open, x.tables, c, env.faults(Position(x.pc)));
    L.AdmitOutcome(x.tables, key, x.pc.generation);
    var x' := Move(x, env);
    if x'.pc.Failed? {
      CallFails(t, target, key, env, x');
    } else {
      assert x'.tables == L.Established(t, key, x.pc.job.hash);
      ClaimingIsOn(t, target, key, env, x.pc.job, x.pc.generation, x');
    }
  }

  lemma WhileExecuting(t: Tables, target: Target, key: string, env: Env, x: Solo)
    requires On(t, target, key, env, x) && (x.pc.Claiming? || x.pc.Marking?)
    ensures
      var e := x.pc.x;
      && Clear(t, key, x) && Executing(t, target, key, env, e) && L.CanEstablish(t, key, e.hash)
      && e.key == key && e.scope == SCOPE && e.generation == t.generations[SCOPE] && env.prepared.Some?
      && x.tables == if x.pc.Claiming? then L.Established(t, key, e.hash) else Advanced(t, key, e.hash, Intent, None)
  {
  }

  lemma ExecutingIsOn(t: Tables, target: Target, key: string, env: Env, e: Execution, x: Solo)
    requires (x.pc == Marking(e) || x.pc == Launching(e)) && Clear(t, key, x) && Executing(t, target, key, env, e)
    requires L.CanEstablish(t, key, e.hash)
    requires x.tables == Advanced(t, key, e.hash, if x.pc.Marking? then Intent else Unknown, None)
    ensures On(t, target, key, env, x)
  {
  }

  lemma MoveOfClaiming(t: Tables, target: Target, key: string, env: Env, x: Solo)
    requires ValidTables(t) && Keeps(t, target, key, env, x) && x.pc.Claiming?
    ensures Keeps(t, target, key, env, Move(x, env))
  {
    var (e, c) := (x.pc.x, NextCall(x.pc).value);
    MoveIsCall(x, env);
    WhileExecuting(t, target, key, env, x);
    hide On, Move, Position, ValidTables, Extends, Attempt, Transact, ArgumentError, Executing;
    L.CallOutcome(Open, x.tables, c, env.faults(Position(x.pc)));
    L.ClaimOutcome(x.tables, e.key, e.scope, e.generation, e.hash);
    var x' := Move(x, env);
    if x'.pc.Failed? {
      CallFails(t, target, key, env, x');
    } else {
      ExecutingIsOn(t, target, key, env, e, x');
    }
  }

  lemma MoveOfMarking(t: Tables, target: Target, key: string, env: Env, x: Solo)
    requires ValidTables(t) && Keeps(t, target, key, env, x) && x.pc.Marking?
    ensures Keeps(t, target, key, env, Move(x, env))
  {
    var (e, c) := (x.pc.x, NextCall(x.pc).value);
    MoveIsCall(x, env);
    WhileExecuting(t, target, key, env, x);
    hide On, Move, Position, ValidTables, Extends, Attempt, Transact, ArgumentError, Executing, L.CanEstablish;
    var row := Row(t, e.hash);
    L.CallOutcome(Open, x.tables, c, env.faults(Position(x.pc)));
    L.AdvanceOutcome(x.tables, key, row, 0);
    L.Rewritten(L.Established(t, key, e.hash), key, row, row.(state := Unknown));
    hide L.Established;
    var x' := Move(x, env);
    if x'.pc.Failed? {
      CallFails(t, target, key, env, x');
    } else {
      ExecutingIsOn(t, target, key, env, e, x');
    }
  }

  lemma MoveOfLaunching(t: Tables, target: Target, key: string, env: Env, x: Solo)
    requires Keeps(t, target, key, env, x) && (x.pc.Launching? || x.pc.Running?)
    ensures Keeps(t, target, key, env, Move(x, env))
  {
    hide ValidTables, Ended;
    var x' := Move(x, env);
    if x'.pc.Failed? {
      FirstRunFails(t, key, env, x');
    }
  }

  lemma WhileRecording(t: Tables, target: Target, key: string, env: Env, x: Solo)
    requires On(t, target, key, env, x) && x.pc.Recording?
    ensures
      var (e, code) := (x.pc.x, x.pc.exitCode);
      && x.handle.Open? && key !in t.launches && x.published == [] && env.outcome == Some(code)
      && Executing(t, target, key, env, e) && L.CanEstablish(t, key, e.hash) && e.key == key
      && x.tables == Advanced(t, key, e.hash, Unknown, None) && OneLaunch(t, key, e.hash, e.spec, x)
      && env.prepared == Some(e.spec) && e.hash == env.hash(e.spec)
      && e.client == Some(target)
  {
  }

  lemma PublishingFirst(t: Tables, target: Target, key: string, env: Env, spec: Spec, code: int, x: Solo)
    requires x.pc == Publishing(target, key, code) && x.published == [] && key !in t.launches
    requires env.prepared == Some(spec) && env.outcome == Some(code) && L.CanEstablish(t, key, env.hash(spec))
    requires x.tables == Advanced(t, key, env.hash(spec), Terminal, Some(code))
    requires OneLaunch(t, key, env.hash(spec), spec, x)
    ensures On(t, target, key, env, x)
  {
  }

  lemma MoveOfRecording(t: Tables, target: Target, key: string, env: Env, x: Solo)
    requires ValidTables(t) && Keeps(t, target, key, env, x) && x.pc.Recording?
    ensures Keeps(t, target, key, env, Move(x, env))
  {
    MoveIsCall(x, env);
    WhileRecording(t, target, key, env, x);
    hide On, Move, Position, ValidTables, Extends, Attempt, Ended, Transact, ArgumentError, Executing, OneLaunch,
         IsExecution;
    var (e, c) := (x.pc.x, NextCall(x.pc).value);
    var row := Row(t, e.hash).(state := Unknown);
    L.CallOutcome(Open, x.tables, c, env.faults(Position(x.pc)));
    L.AdvanceOutcome(x.tables, key, row, x.pc.exitCode);
    L.Rewritten(L.Established(t, key, e.hash), key, row, row.(state := Terminal, exitCode := Some(x.pc.exitCode)));
    var x' := Move(x, env);
    LaunchStays(t, key, e.hash, e.spec, x, x');
    if x'.pc.Failed? {
      FirstRunFails(t, key, env, x');
      EndedIsOn(t, target, key, env, x');
    } else {
      PublishingFirst(t, target, key, env, e.spec, x.pc.exitCode, x');
    }
  }

  lemma LaunchStays(t: Tables, key: string, hash: string, spec: Spec, x: Solo, x': Solo)
    requires SCOPE in t.generations && OneLaunch(t, key, hash, spec, x) && x'.launched == x.launched
    ensures OneLaunch(t, key, hash, spec, x')
  {
  }

  lemma MoveKeeps(t: Tables, target: Target, key: string, env: Env, x: Solo)
    requires ValidTables(t) && Keeps(t, target, key, env, x)
    ensures Keeps(t, target, key, env, Move(x, env)) && Rank(Move(x, env).pc) <= Rank(x.pc)
    ensures Rank(x.pc) > 0 ==> Rank(Move(x, env).pc) < Rank(x.pc)
  {
    MoveLowersRank(t, target, key, env, x);
    hide ValidTables, Move, Ended;
    match x.pc
    case CheckingKey(_, _) => MoveOfCheckingKey(t, target, key, env, x);
    case ReadingLaunch(_, _) => MoveOfReadingLaunch(t, target, key, env, x);
    case Preparing(_, _, _) => MoveOfPreparing(t, target, key, env, x);
    case Registering(_) => MoveOfRegistering(t, target, key, env, x);
    case Binding(_) => MoveOfRegistering(t, target, key, env, x);
    case ReadingGeneration(_) => MoveOfReadingGeneration(t, target, key, env, x);
    case ReadingAdmission(_, _) => MoveOfReadingAdmission(t, target, key, env, x);
    case Admitting(_, _) => MoveOfAdmitting(t, target, key, env, x);
    case Claiming(_) => MoveOfClaiming(t, target, key, env, x);
    case Marking(_) => MoveOfMarking(t, target, key, env, x);
    case Launching(_) => MoveOfLaunching(t, target, key, env, x);
    case Running(_) => MoveOfLaunching(t, target, key, env, x);
    case Recording(_, _) => MoveOfRecording(t, target, key, env, x);
    case Publishing(_, _, _) => MoveOfPublishing(t, target, key, env, x);
    case _ => MoveOfNothing(x, env);
  }

  lemma MoveOfPublishing(t: Tables, target: Target, key: string, env: Env, x: Solo)
    requires ValidTables(t) && Keeps(t, target, key, env, x) && x.pc.Publishing?
    ensures Keeps(t, target, key, env, Move(x, env))
  {
    PublishedEnds(t, target, key, env, x);
    hide ValidTables, Ended;
  }

  lemma MoveOfNothing(x: Solo, env: Env)
    requires x.pc.Done? || x.pc.Failed?
    ensures Move(x, env) == x
  {
  }

  lemma MoveLowersRank(t: Tables, target: Target, key: string, env: Env, x: Solo)
    requires On(t, target, key, env, x)
    ensures Rank(Move(x, env).pc) <= Rank(x.pc) && (Rank(x.pc) > 0 ==> Rank(Move(x, env).pc) < Rank(x.pc))
  {
    hide Attempt, Ended;
  }

  lemma {:induction false} MovesKeep(t: Tables, target: Target, key: string, env: Env, x: Solo, n: nat)
    requires ValidTables(t) && Keeps(t, target, key, env, x)
    ensures Keeps(t, target, key, env, Moves(x, env, n))
    ensures Rank(Moves(x, env, n).pc) == 0 || Rank(Moves(x, env, n).pc) + n <= Rank(x.pc)
  {
    hide ValidTables, Keeps, Move, Rank;
    if n > 0 {
      MovesKeep(t, target, key, env, x, n - 1);
      MoveKeeps(t, target, key, env, Moves(x, env, n - 1));
    }
  }

  // Left alone, the client program comes to an end, and to the outcome that the client method promises.
  lemma SoloRunMeetsContract(t: Tables, target: Target, key: string, env: Env)
    requires ValidTables(t)
    ensures
      var x := Moves(Solo(Open, t, CheckingKey(target, key), [], []), env, 14);
      && (x.pc.Done? || x.pc.Failed?) && ValidTables(x.tables)
      && exists r: Result<L.ClientResult, L.Failure> :: (r.Ok? <==> x.pc.Done?) && Outcome(t, key, env, x, r)
  {
    var x0 := Solo(Open, t, CheckingKey(target, key), [], []);
    MovesKeep(t, target, key, env, x0, 14);
    var x := Moves(x0, env, 14);
    hide ValidTables, Moves, Outcome;
    if x.pc.Done? {
      var spec := if env.prepared.Some? then env.prepared.value else AnySpec();
      assert Outcome(t, key, env, x, Ok(Observed(t, key, env, spec)));
    } else {
      assert Outcome(t, key, env, x, Err(L.ClientError));
    }
  }
}
