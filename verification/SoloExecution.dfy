/** The program of one local execution in LaunchProtocol, left alone, against the contract of
    LocalExecutions.ExecuteLocalCommand. */
module SoloExecution {
  import opened Prelude
  import opened AuthorityTables
  import opened AuthorityHandle
  import opened LaunchProtocol
  import opened SoloClient
  import opened SoloOutcome
  import L = LocalExecutions

  function Intended(x: Execution): Launch { Launch(x.hash, x.scope, x.generation, Intent, None) }

  predicate Launches(t: Tables, x: Execution, env: Env) {
    L.Launches(Open, t, x.key, x.scope, x.generation, x.hash, env.faults(7), env.faults(8))
  }

  ghost predicate Fits(t: Tables, x: Execution, env: Env, s: Solo) {
    && s.published == []
    && s.launched == (if Launches(t, x, env)
                      then [L.Launched(x.key, x.spec, Some(Intended(x).(state := Unknown)))] else [])
    && exists r: Result<int, L.Failure> ::
         && (r.Ok? <==> s.pc.Done?)
         && L.Executed(t, s.tables, Launches(t, x, env), x.key, Intended(x), env.faults(9), env.outcome, r)
  }

  // Where the execution is, and what it has written by then.
  ghost predicate During(t: Tables, x: Execution, env: Env, s: Solo) {
    && ValidTables(s.tables) && s.published == []
    && match s.pc
       case Claiming(y) => y == x && s.handle.Open? && s.tables == t && s.launched == []
       case Marking(y) =>
         && y == x && s.handle.Open? && s.launched == []
         && L.MayClaim(t, x.key, x.scope, x.generation, x.hash) && L.Clean(env.faults(7))
         && s.tables == L.WithLaunch(t, x.key, Intended(x))
       case Launching(y) =>
         && y == x && s.handle.Open? && s.launched == [] && Launches(t, x, env)
         && s.tables == L.WithLaunch(t, x.key, Intended(x).(state := Unknown))
       case Running(y) => y == x && s.handle.Open? && Launched(t, x, env, s)
       case Recording(y, code) => y == x && s.handle.Open? && Launched(t, x, env, s) && env.outcome == Some(code)
       case Done => Fits(t, x, env, s)
       case Failed => Fits(t, x, env, s)
       case _ => false
  }

  predicate Launched(t: Tables, x: Execution, env: Env, s: Solo) {
    && Launches(t, x, env)
    && s.launched == [L.Launched(x.key, x.spec, Some(Intended(x).(state := Unknown)))]
    && s.tables == L.WithLaunch(t, x.key, Intended(x).(state := Unknown))
  }

  lemma TablesOfCall(s: Solo, env: Env)
    requires ValidTables(s.tables) && s.handle.Open? && NextCall(s.pc).Some?
    ensures
      var (c, s') := (NextCall(s.pc).value, Move(s, env));
      && ValidTables(s'.tables)
      && (s'.tables == s.tables || (ArgumentError(c).None? && Transact(c, s.tables).Ok?
                                    && s'.tables == Transact(c, s.tables).value.0))
      && (ArgumentError(c).None? && Transact(c, s.tables).Ok? && L.Clean(env.faults(Position(s.pc))) ==>
            s'.handle.Open? && s'.tables == Transact(c, s.tables).value.0)
  {
    MoveIsCall(s, env);
    hide ValidTables, Extends, Attempt, Transact, ArgumentError, Move, L.Clean, Position, NextCall;
    L.CallOutcome(Open, s.tables, NextCall(s.pc).value, env.faults(Position(s.pc)));
  }

  lemma Refused(t: Tables, x: Execution, env: Env, s: Solo)
    requires s.pc.Failed? && s.published == [] && s.launched == [] && !Launches(t, x, env)
    requires
      || s.tables == t
      || (L.MayClaim(t, x.key, x.scope, x.generation, x.hash)
          && s.tables in {L.WithLaunch(t, x.key, Intended(x)),
                          L.WithLaunch(t, x.key, Intended(x).(state := Unknown))})
    ensures Fits(t, x, env, s)
  {
    hide L.MayClaim;
    assert L.Executed(t, s.tables, false, x.key, Intended(x), env.faults(9), env.outcome, Err(L.ClientError));
  }

  lemma FromClaim(t: Tables, x: Execution, env: Env, s: Solo)
    requires During(t, x, env, s) && s.pc.Claiming?
    ensures During(t, x, env, Move(s, env))
  {
    CallGoesOn(s, env);
    TablesOfCall(s, env);
    L.ClaimOutcome(t, x.key, x.scope, x.generation, x.hash);
    hide ValidTables, Transact, Move, ArgumentError, L.Clean, L.MayClaim;
    if Move(s, env).pc.Failed? {
      Refused(t, x, env, Move(s, env));
    }
  }

  lemma FromMark(t: Tables, x: Execution, env: Env, s: Solo)
    requires During(t, x, env, s) && s.pc.Marking?
    ensures During(t, x, env, Move(s, env))
  {
    CallGoesOn(s, env);
    TablesOfCall(s, env);
    L.AdvanceOutcome(s.tables, x.key, Intended(x), 0);
    L.Rewritten(t, x.key, Intended(x), Intended(x).(state := Unknown));
    hide ValidTables, Transact, Move, ArgumentError, L.Clean, L.MayClaim;
    if Move(s, env).pc.Failed? {
      Refused(t, x, env, Move(s, env));
    }
  }

  lemma FromLaunch(t: Tables, x: Execution, env: Env, s: Solo)
    requires During(t, x, env, s) && (s.pc.Launching? || s.pc.Running?)
    ensures During(t, x, env, Move(s, env))
  {
    hide ValidTables, L.Launches;
    var s' := Move(s, env);
    if s'.pc.Failed? {
      assert L.Executed(t, s'.tables, true, x.key, Intended(x), env.faults(9), env.outcome, Err(L.LauncherFailed));
    }
  }

  lemma FromRecord(t: Tables, x: Execution, env: Env, s: Solo)
    requires During(t, x, env, s) && s.pc.Recording? && x.client.None?
    ensures During(t, x, env, Move(s, env))
  {
    var unknown := Intended(x).(state := Unknown);
    CallGoesOn(s, env);
    TablesOfCall(s, env);
    L.AdvanceOutcome(s.tables, x.key, unknown, s.pc.exitCode);
    L.Rewritten(t, x.key, unknown, unknown.(state := Terminal, exitCode := env.outcome));
    hide ValidTables, Transact, Move, ArgumentError, L.Clean, L.Launches;
    var s' := Move(s, env);
    var r := if s'.pc.Done? then Ok(s.pc.exitCode) else Err(L.ClientError);
    assert L.Executed(t, s'.tables, true, x.key, Intended(x), env.faults(9), env.outcome, r);
  }

  // Left alone, a local execution of the state machine ends as ExecuteLocalCommand promises: with the one launch
  // exactly when it may be made, and well exactly when the end of the process is recorded.
  lemma SoloExecutionMeetsContract(t: Tables, x: Execution, env: Env)
    requires ValidTables(t) && x.client.None?
    ensures
      var s := Moves(Solo(Open, t, Claiming(x), [], []), env, 5);
      && (s.pc.Done? || s.pc.Failed?) && s.published == []
      && s.launched == (if Launches(t, x, env)
                        then [L.Launched(x.key, x.spec, Some(Launch(x.hash, x.scope, x.generation, Unknown, None)))]
                        else [])
      && exists r: Result<int, L.Failure> ::
           && (r.Ok? <==> s.pc.Done?)
           && L.Executed(t, s.tables, Launches(t, x, env), x.key, Launch(x.hash, x.scope, x.generation, Intent, None),
                         env.faults(9), env.outcome, r)
  {
    MovesDuring(t, x, env, 5);
    hide ValidTables, Moves, L.Executed, Launches;
  }

  function Left(pc: Pc): nat {
    match pc
    case Claiming(_) => 5
    case Marking(_) => 4
    case Launching(_) => 3
    case Running(_) => 2
    case Recording(_, _) => 1
    case _ => 0
  }

  lemma {:induction false} MovesDuring(t: Tables, x: Execution, env: Env, n: nat)
    requires ValidTables(t) && x.client.None?
    ensures
      var s := Moves(Solo(Open, t, Claiming(x), [], []), env, n);
      During(t, x, env, s) && (Left(s.pc) == 0 || Left(s.pc) + n <= 5)
  {
    var s := Solo(Open, t, Claiming(x), [], []);
    if n == 0 {
      assert During(t, x, env, s);
      hide ValidTables, During;
    } else {
      hide ValidTables, During, Move, Left;
      MovesDuring(t, x, env, n - 1);
      OneMove(t, x, env, Moves(s, env, n - 1));
    }
  }

  lemma OneMove(t: Tables, x: Execution, env: Env, s: Solo)
    requires During(t, x, env, s) && x.client.None?
    ensures During(t, x, env, Move(s, env)) && (Left(s.pc) == 0 || Left(Move(s, env).pc) < Left(s.pc))
    ensures Left(Move(s, env).pc) <= Left(s.pc)
  {
    hide ValidTables, Fits, Attempt;
    match s.pc
    case Claiming(_) => FromClaim(t, x, env, s);
    case Marking(_) => FromMark(t, x, env, s);
    case Launching(_) => FromLaunch(t, x, env, s);
    case Running(_) => FromLaunch(t, x, env, s);
    case Recording(_, _) => FromRecord(t, x, env, s);
    case _ => MoveOfNothing(s, env);
  }
}
