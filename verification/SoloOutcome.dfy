/** When the client program of LaunchProtocol, left alone, launches, publishes and ends well: exactly when the client
    method in LocalExecutions does. */
module SoloOutcome {
  import opened Prelude
  import opened AuthorityTables
  import opened AuthorityHandle
  import opened LaunchProtocol
  import opened SoloClient
  import L = LocalExecutions

  ghost predicate Observes(t: Tables, key: string, env: Env) { key != "" && L.PathClean(t, key, env.faults, 0, 2) }

  predicate ScopeFits(t: Tables, key: string) { key in t.admissions ==> t.admissions[key].scope == SCOPE }

  ghost predicate Exactly(t: Tables, key: string, env: Env, x: Solo) {
    L.ClientExactly(t, key, env.hash, env.prepared, env.outcome, env.publishes, env.faults, x.launched, x.published,
                    x.pc.Done?)
  }

  // Where the program is tells which calls have met no fault.
  ghost predicate Reached(t: Tables, key: string, env: Env, x: Solo) {
    match x.pc
    case CheckingKey(_, _) => true
    case ReadingLaunch(_, _) => key != "" && L.PathClean(t, key, env.faults, 0, 1)
    case Publishing(_, _, code) =>
      && Observes(t, key, env)
      && (key in t.launches || (env.prepared.Some? &&
            L.RecordsFirst(t, key, env.hash(env.prepared.value), env.outcome, env.faults)))
    case Done => Exactly(t, key, env, x)
    case Failed => Exactly(t, key, env, x)
    case _ =>
      && Observes(t, key, env) && L.PathClean(t, key, env.faults, 2, Stage(x.pc))
      && (x.pc.Registering? ==> key !in t.keys)
      && (x.pc.Marking? || x.pc.Launching? || x.pc.Running? || x.pc.Recording? ==> ScopeFits(t, key))
  }

  function Stage(pc: Pc): nat {
    if pc.Preparing? then 2 else if pc.Launching? || pc.Running? then 9 else Position(pc)
  }

  // ---- Calls ----

  lemma CallGoesOn(x: Solo, env: Env)
    requires ValidTables(x.tables) && x.handle.Open? && NextCall(x.pc).Some?
    ensures
      var (c, x') := (NextCall(x.pc).value, Move(x, env));
      && x'.launched == x.launched && x'.published == x.published
      && if ArgumentError(c).None? && Transact(c, x.tables).Ok? && L.Clean(env.faults(Position(x.pc)))
         then x'.pc == Resume(x.pc, Ok(Transact(c, x.tables).value.1))
         else x'.pc == Failed
  {
    MoveIsCall(x, env);
    hide ValidTables, Extends, Attempt, Transact, ArgumentError, Move, L.Clean, Position, NextCall;
    L.CallOutcome(Open, x.tables, NextCall(x.pc).value, env.faults(Position(x.pc)));
  }

  lemma PathGrows(t: Tables, key: string, f: L.Schedule, i: nat, n: nat)
    ensures i <= n && L.PathClean(t, key, f, i, n + 1) ==> L.PathClean(t, key, f, i, n)
    ensures L.PathClean(t, key, f, i, n) && (L.IsCalled(t, key, n) ==> L.Clean(f(n))) ==>
            L.PathClean(t, key, f, i, n + 1)
  {
    hide L.Clean, L.IsCalled;
  }

  lemma PathBreaks(t: Tables, key: string, f: L.Schedule, i: nat, k: nat, n: nat)
    requires i <= k < n && L.IsCalled(t, key, k) && !L.Clean(f(k))
    ensures !L.PathClean(t, key, f, i, n)
  {
    hide L.Clean, L.IsCalled;
  }

  // A program that fails before its launch fails as the client method does.
  lemma Stops(t: Tables, key: string, env: Env, x: Solo)
    requires x.pc.Failed? && x.launched == [] && x.published == []
    requires
      || !Observes(t, key, env)
      || (key !in t.launches && env.prepared.None?)
      || (key !in t.launches && !L.LaunchesFirst(t, key, env.hash(env.prepared.value), env.faults))
    ensures Exactly(t, key, env, x)
  {
    hide L.LaunchesFirst, L.PathClean;
  }

  // ---- The moves ----

  ghost predicate Here(t: Tables, target: Target, key: string, env: Env, x: Solo) {
    ValidTables(t) && Keeps(t, target, key, env, x) && Reached(t, key, env, x)
  }

  lemma FromCheckingKey(t: Tables, target: Target, key: string, env: Env, x: Solo)
    requires Here(t, target, key, env, x) && x.pc.CheckingKey?
    ensures Reached(t, key, env, Move(x, env))
  {
    LaunchedIsKnown(t, key);
    CallGoesOn(x, env);
    L.ReadOutcome(t, KeyExists(key));
    hide ValidTables, Transact, Move, L.Clean, L.LaunchesFirst;
    var f := env.faults;
    if Move(x, env).pc.Failed? {
      if key != "" {
        PathBreaks(t, key, f, 0, 0, 2);
      }
      Stops(t, key, env, Move(x, env));
    }
  }

  lemma FromReadingLaunch(t: Tables, target: Target, key: string, env: Env, x: Solo)
    requires Here(t, target, key, env, x) && x.pc.ReadingLaunch?
    ensures Reached(t, key, env, Move(x, env))
  {
    L.PriorFits(t, key);
    CallGoesOn(x, env);
    L.ReadOutcome(t, ReadLaunch(key));
    hide ValidTables, Transact, Move, L.Clean, L.LaunchesFirst;
    var f := env.faults;
    PathGrows(t, key, f, 0, 1);
    if Move(x, env).pc.Failed? {
      PathBreaks(t, key, f, 0, 1, 2);
      Stops(t, key, env, Move(x, env));
    }
  }

  lemma FromPreparing(t: Tables, target: Target, key: string, env: Env, x: Solo)
    requires Here(t, target, key, env, x) && x.pc.Preparing?
    ensures Reached(t, key, env, Move(x, env))
  {
    hide ValidTables, L.Clean, L.LaunchesFirst;
    if Move(x, env).pc.Failed? {
      Stops(t, key, env, Move(x, env));
    }
  }

  // Registering goes through; binding does when the key has no other hash.
  lemma RegisterGoesThrough(t: Tables, key: string, hash: string)
    requires ValidTables(t) && key != ""
    ensures ArgumentError(RegisterKey(key)).None? && Transact(RegisterKey(key), t).Ok?
    ensures key in t.keys && L.CanEstablish(t, key, hash) ==>
      ArgumentError(BindCommand(key, hash)).None? && Transact(BindCommand(key, hash), t).Ok?
  {
    hide ValidTables;
  }

  lemma FromRegistering(t: Tables, target: Target, key: string, env: Env, x: Solo)
    requires Here(t, target, key, env, x) && x.pc.Registering?
    ensures Reached(t, key, env, Move(x, env))
  {
    CallGoesOn(x, env);
    WhileBinding(t, target, key, env, x);
    RegisterGoesThrough(t, key, x.pc.job.hash);
    hide ValidTables, Transact, Move, L.Clean, L.CanEstablish, ArgumentError;
    var f := env.faults;
    PathGrows(t, key, f, 2, 2);
    if Move(x, env).pc.Failed? {
      PathBreaks(t, key, f, 2, 2, 9);
      Stops(t, key, env, Move(x, env));
    }
  }

  lemma FromBinding(t: Tables, target: Target, key: string, env: Env, x: Solo)
    requires Here(t, target, key, env, x) && x.pc.Binding?
    ensures Reached(t, key, env, Move(x, env))
  {
    CallGoesOn(x, env);
    WhileBinding(t, target, key, env, x);
    RegisterGoesThrough(x.tables, key, x.pc.job.hash);
    assert L.CanEstablish(t, key, x.pc.job.hash) ==> L.CanEstablish(x.tables, key, x.pc.job.hash);
    hide ValidTables, Transact, Move, L.Clean, L.CanEstablish, ArgumentError;
    var f := env.faults;
    PathGrows(t, key, f, 2, 3);
    if Move(x, env).pc.Failed? {
      if !L.Clean(f(3)) {
        PathBreaks(t, key, f, 2, 3, 9);
      }
      Stops(t, key, env, Move(x, env));
    }
  }

  lemma FromReadingGeneration(t: Tables, target: Target, key: string, env: Env, x: Solo)
    requires Here(t, target, key, env, x) && x.pc.ReadingGeneration?
    ensures Reached(t, key, env, Move(x, env))
  {
    CallGoesOn(x, env);
    WhileAdmitting(t, target, key, env, x);
    L.ReadOutcome(x.tables, NextCall(x.pc).value);
    hide ValidTables, Transact, Move, L.Clean;
    var f := env.faults;
    PathGrows(t, key, f, 2, 4);
    if Move(x, env).pc.Failed? {
      if !L.Clean(f(4)) {
        PathBreaks(t, key, f, 2, 4, 9);
      }
      Stops(t, key, env, Move(x, env));
    }
  }

  lemma FromReadingAdmission(t: Tables, target: Target, key: string, env: Env, x: Solo)
    requires Here(t, target, key, env, x) && x.pc.ReadingAdmission?
    ensures Reached(t, key, env, Move(x, env))
  {
    CallGoesOn(x, env);
    WhileAdmitting(t, target, key, env, x);
    L.ReadOutcome(x.tables, NextCall(x.pc).value);
    hide ValidTables, Transact, Move, L.Clean;
    var f := env.faults;
    PathGrows(t, key, f, 2, 5);
    PathGrows(t, key, f, 2, 6);
    if Move(x, env).pc.Failed? {
      if !L.Clean(f(5)) {
        PathBreaks(t, key, f, 2, 5, 9);
      }
      Stops(t, key, env, Move(x, env));
    }
  }

  lemma FromAdmitting(t: Tables, target: Target, key: string, env: Env, x: Solo)
    requires Here(t, target, key, env, x) && x.pc.Admitting?
    ensures Reached(t, key, env, Move(x, env))
  {
    CallGoesOn(x, env);
    WhileAdmitting(t, target, key, env, x);
    L.AdmitOutcome(x.tables, key, x.pc.generation);
    hide ValidTables, Transact, Move, L.Clean;
    var f := env.faults;
    PathGrows(t, key, f, 2, 6);
    if Move(x, env).pc.Failed? {
      PathBreaks(t, key, f, 2, 6, 9);
      Stops(t, key, env, Move(x, env));
    }
  }

  lemma FromClaiming(t: Tables, target: Target, key: string, env: Env, x: Solo)
    requires Here(t, target, key, env, x) && x.pc.Claiming?
    ensures Reached(t, key, env, Move(x, env))
  {
    var e := x.pc.x;
    CallGoesOn(x, env);
    WhileExecuting(t, target, key, env, x);
    L.ClaimOutcome(x.tables, e.key, e.scope, e.generation, e.hash);
    L.EstablishedMayClaim(t, key, e.hash);
    hide ValidTables, Transact, Move, L.Clean, L.MayClaim, L.CanEstablish;
    var f := env.faults;
    PathGrows(t, key, f, 2, 7);
    if Move(x, env).pc.Failed? {
      if !L.Clean(f(7)) {
        PathBreaks(t, key, f, 2, 7, 9);
      }
      Stops(t, key, env, Move(x, env));
    }
  }

  lemma FromMarking(t: Tables, target: Target, key: string, env: Env, x: Solo)
    requires Here(t, target, key, env, x) && x.pc.Marking?
    ensures Reached(t, key, env, Move(x, env))
  {
    var e := x.pc.x;
    CallGoesOn(x, env);
    WhileExecuting(t, target, key, env, x);
    L.AdvanceOutcome(x.tables, key, Row(t, e.hash), 0);
    hide ValidTables, Transact, Move, L.Clean, L.CanEstablish;
    var f := env.faults;
    PathGrows(t, key, f, 2, 8);
    if Move(x, env).pc.Failed? {
      PathBreaks(t, key, f, 2, 8, 9);
      Stops(t, key, env, Move(x, env));
    }
  }

  lemma FromLaunching(t: Tables, target: Target, key: string, env: Env, x: Solo)
    requires Here(t, target, key, env, x) && (x.pc.Launching? || x.pc.Running?)
    ensures Reached(t, key, env, Move(x, env))
  {
    hide ValidTables, L.Clean;
  }

  lemma WhenRecording(t: Tables, target: Target, key: string, env: Env, x: Solo)
    requires Here(t, target, key, env, x) && x.pc.Recording?
    ensures ValidTables(t) && Keeps(t, target, key, env, x) && ValidTables(x.tables) && On(t, target, key, env, x)
    ensures Observes(t, key, env) && L.PathClean(t, key, env.faults, 2, 9) && ScopeFits(t, key)
  {
    hide ValidTables, On, L.PathClean;
  }

  // A program that has launched ends well when it records and publishes.
  lemma RecordedOrNot(t: Tables, key: string, env: Env, x: Solo)
    requires key !in t.launches && env.prepared.Some? && x.launched != [] && x.published == []
    requires Observes(t, key, env) && L.LaunchesFirst(t, key, env.hash(env.prepared.value), env.faults)
    requires x.pc.Failed? || x.pc.Publishing?
    requires x.pc.Publishing? <==>
             env.outcome.Some? && IsExitCode(env.outcome.value) && L.Clean(env.faults(9))
    ensures Reached(t, key, env, x)
  {
    hide L.LaunchesFirst, L.Clean, IsExitCode, L.PathClean;
  }

  lemma FromRecording(t: Tables, target: Target, key: string, env: Env, x: Solo)
    requires Here(t, target, key, env, x) && x.pc.Recording?
    ensures Reached(t, key, env, Move(x, env))
  {
    WhenRecording(t, target, key, env, x);
    hide On, Here, Keeps, Reached, ValidTables, Transact, ArgumentError, Move, L.Clean, L.CanEstablish, L.PathClean;
    hide Observes;
    var e := x.pc.x;
    CallGoesOn(x, env);
    WhileRecording(t, target, key, env, x);
    L.AdvanceOutcome(x.tables, key, Row(t, e.hash).(state := Unknown), x.pc.exitCode);
    RecordedOrNot(t, key, env, Move(x, env));
  }

  lemma FromPublishing(t: Tables, target: Target, key: string, env: Env, x: Solo)
    requires Here(t, target, key, env, x) && x.pc.Publishing?
    ensures Reached(t, key, env, Move(x, env))
  {
    hide ValidTables, L.Clean, L.CanEstablish, L.PathClean;
  }

  lemma MoveReaches(t: Tables, target: Target, key: string, env: Env, x: Solo)
    requires Here(t, target, key, env, x)
    ensures Here(t, target, key, env, Move(x, env))
  {
    MoveKeeps(t, target, key, env, x);
    hide Move, Keeps, Reached;
    match x.pc
    case CheckingKey(_, _) => FromCheckingKey(t, target, key, env, x);
    case ReadingLaunch(_, _) => FromReadingLaunch(t, target, key, env, x);
    case Preparing(_, _, _) => FromPreparing(t, target, key, env, x);
    case Registering(_) => FromRegistering(t, target, key, env, x);
    case Binding(_) => FromBinding(t, target, key, env, x);
    case ReadingGeneration(_) => FromReadingGeneration(t, target, key, env, x);
    case ReadingAdmission(_, _) => FromReadingAdmission(t, target, key, env, x);
    case Admitting(_, _) => FromAdmitting(t, target, key, env, x);
    case Claiming(_) => FromClaiming(t, target, key, env, x);
    case Marking(_) => FromMarking(t, target, key, env, x);
    case Launching(_) => FromLaunching(t, target, key, env, x);
    case Running(_) => FromLaunching(t, target, key, env, x);
    case Recording(_, _) => FromRecording(t, target, key, env, x);
    case Publishing(_, _, _) => FromPublishing(t, target, key, env, x);
    case _ => StaysPut(t, target, key, env, x);
  }

  lemma StaysPut(t: Tables, target: Target, key: string, env: Env, x: Solo)
    requires Keeps(t, target, key, env, x) && SoloClient.Rank(x.pc) == 0
    ensures Move(x, env) == x
  {
    hide ValidTables, Ended;
  }

  lemma {:induction false} MovesReach(t: Tables, target: Target, key: string, env: Env, x: Solo, n: nat)
    requires Here(t, target, key, env, x)
    ensures Here(t, target, key, env, Moves(x, env, n))
  {
    hide Here, Move;
    if n > 0 {
      MovesReach(t, target, key, env, x, n - 1);
      MoveReaches(t, target, key, env, Moves(x, env, n - 1));
    }
  }

  // Left alone, the client program launches, publishes and ends well for exactly the stores, surroundings and
  // schedules of faults for which the client method does.
  lemma SoloRunIsExact(t: Tables, target: Target, key: string, env: Env)
    requires ValidTables(t)
    ensures
      var x := Moves(Solo(Open, t, CheckingKey(target, key), [], []), env, 14);
      && (x.pc.Done? || x.pc.Failed?)
      && L.ClientExactly(t, key, env.hash, env.prepared, env.outcome, env.publishes, env.faults,
                         x.launched, x.published, x.pc.Done?)
  {
    var x0 := Solo(Open, t, CheckingKey(target, key), [], []);
    MovesReach(t, target, key, env, x0, 14);
    MovesKeep(t, target, key, env, x0, 14);
    hide ValidTables, Moves, Keeps, L.ClientExactly;
  }
}
