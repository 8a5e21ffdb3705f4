/** What every run of the launch protocol keeps, and the safety theorems that follow. */
module LaunchSafety {
  import opened Prelude
  import opened AuthorityTables
  import opened AuthorityHandle
  import opened LaunchProtocol

  // ---- The invariant ----

  predicate Unlaunched(s: State, k: string) {
    forall i :: 0 <= i < |s.launched| ==> s.launched[i].key != k
  }

  // p holds the one claim on k, for the command bound to k.
  predicate Holds(s: State, p: nat, k: string, hash: string) {
    Lookup(s.claimant, k) == Some(p) && Lookup(s.tables.bindings, k) == Some(hash) && k in s.tables.launches
  }

  // The terminal exit code of k is on durable record.
  predicate Recorded(t: Tables, k: string, code: int) {
    k in t.launches && t.launches[k].state.Terminal? && t.launches[k].exitCode == Some(code)
  }

  ghost predicate Named(n: Naming, x: Execution) {
    n.isHash(x.spec, x.hash) && (x.client.Some? ==> n.isKey(x.client.value, x.key))
  }

  ghost predicate PcOk(n: Naming, s: State, p: nat, pc: Pc) {
    match pc
    case Claiming(x) => Named(n, x)
    case Marking(x) => Named(n, x) && Holds(s, p, x.key, x.hash) && Unlaunched(s, x.key)
    case Launching(x) =>
      Named(n, x) && Holds(s, p, x.key, x.hash) && Unlaunched(s, x.key) && !s.tables.launches[x.key].state.Intent?
    case Running(x) => Named(n, x)
    case Recording(x, _) => Named(n, x)
    case CheckingKey(t, k) => n.isKey(t, k)
    case ReadingLaunch(t, k) => n.isKey(t, k)
    case Preparing(t, k, _) => n.isKey(t, k)
    case Registering(j) => JobOk(n, j)
    case Binding(j) => JobOk(n, j)
    case ReadingGeneration(j) => JobOk(n, j)
    case ReadingAdmission(j, _) => JobOk(n, j)
    case Admitting(j, _) => JobOk(n, j)
    case Publishing(t, k, code) => n.isKey(t, k) && Recorded(s.tables, k, code)
    case _ => true
  }

  ghost predicate JobOk(n: Naming, j: Job) { n.isKey(j.target, j.key) && n.isHash(j.spec, j.hash) }

  // A terminal launch that was read is still there.
  predicate StillTrue(t: Tables, c: Call, reply: Reply) {
    c.ReadLaunch? && reply.LaunchIs? && reply.prior.Some? ==>
      var l := reply.prior.value;
      l.state.Terminal? && l.exitCode.Some? ==> Recorded(t, c.key, l.exitCode.value)
  }

  // An open write transaction has the write lock, and the store is as it found it.
  predicate PendingOk(s: State, p: nat, q: Process) {
    q.pending.Some? ==>
      && NextCall(q.pc).Some? && ArgumentError(NextCall(q.pc).value).None?
      && q.pending.value != Err(Malformed)
      && var (c, o) := (NextCall(q.pc).value, q.pending.value);
         if IsRead(c) then o.Ok? ==> StillTrue(s.tables, c, o.value.1)
         else s.writer == Some(p) && o == Transact(c, s.tables)
  }

  ghost predicate ProcOk(n: Naming, s: State, p: nat, q: Process) { PcOk(n, s, p, q.pc) && PendingOk(s, p, q) }

  ghost predicate EventOk(n: Naming, s: State, e: LaunchEvent) {
    && e.key in s.tables.launches && !s.tables.launches[e.key].state.Intent?
    && e.key in s.tables.bindings && n.isHash(e.spec, s.tables.bindings[e.key])
  }

  ghost predicate GlobalOk(n: Naming, s: State) {
    && ValidTables(s.tables)
    && s.claimant.Keys == s.tables.launches.Keys
    && (forall i, j :: 0 <= i < j < |s.launched| ==> s.launched[i].key != s.launched[j].key)
    && (forall e :: e in s.launched ==> EventOk(n, s, e))
    && (forall b :: b in s.published ==> n.isKey(b.target, b.key) && Recorded(s.tables, b.key, b.exitCode))
  }

  ghost predicate Inv(n: Naming, s: State) {
    GlobalOk(n, s) && forall p :: p in s.procs ==> ProcOk(n, s, p, s.procs[p])
  }

  // ---- Frames: what a change of the surroundings leaves true ----

  // s' is s later on, seen by everybody but p.
  ghost predicate Later(s: State, s': State, p: nat) {
    && Extends(s.tables, s'.tables)
    && (forall k :: k in s.claimant ==> k in s'.claimant && s'.claimant[k] == s.claimant[k])
    && (s.writer.Some? && s.writer != Some(p) ==> s'.writer == s.writer && s'.tables == s.tables)
    && |s.launched| <= |s'.launched| && s'.launched[..|s.launched|] == s.launched
    && (forall i :: |s.launched| <= i < |s'.launched| ==> Lookup(s.claimant, s'.launched[i].key) == Some(p))
  }

  lemma RecordedStays(t: Tables, t': Tables, k: string, code: int)
    requires Extends(t, t') && Recorded(t, k, code)
    ensures Recorded(t', k, code)
  {
    assert LaunchEvolves(t.launches[k], t'.launches[k]);
  }

  lemma OthersStayOk(n: Naming, s: State, s': State, p: nat, r: nat, q: Process)
    requires Later(s, s', p) && r != p && ProcOk(n, s, r, q)
    ensures ProcOk(n, s', r, q)
  {
    PcStaysOk(n, s, s', p, r, q.pc);
    if q.pending.Some? {
      var (c, o) := (NextCall(q.pc).value, q.pending.value);
      if IsRead(c) && o.Ok? && c.ReadLaunch? && o.value.1.LaunchIs? && o.value.1.prior.Some? {
        var l := o.value.1.prior.value;
        if l.state.Terminal? && l.exitCode.Some? {
          RecordedStays(s.tables, s'.tables, c.key, l.exitCode.value);
        }
      }
    }
  }

  lemma PcStaysOk(n: Naming, s: State, s': State, p: nat, r: nat, pc: Pc)
    requires Later(s, s', p) && r != p && PcOk(n, s, r, pc)
    ensures PcOk(n, s', r, pc)
  {
    match pc {
      case Marking(x) => UnlaunchedStays(s, s', p, r, x.key);
      case Launching(x) =>
        UnlaunchedStays(s, s', p, r, x.key);
        assert LaunchEvolves(s.tables.launches[x.key], s'.tables.launches[x.key]);
      case Publishing(t, k, code) => RecordedStays(s.tables, s'.tables, k, code);
      case _ =>
    }
  }

  lemma UnlaunchedStays(s: State, s': State, p: nat, r: nat, k: string)
    requires Later(s, s', p) && r != p && Lookup(s.claimant, k) == Some(r) && Unlaunched(s, k)
    ensures Unlaunched(s', k)
  {
    forall i | 0 <= i < |s'.launched| ensures s'.launched[i].key != k {
      if i < |s.launched| {
        assert s'.launched[i] == s.launched[i];
      }
    }
  }

  lemma EventsStayOk(n: Naming, s: State, s': State)
    requires GlobalOk(n, s) && Extends(s.tables, s'.tables)
    ensures forall e :: e in s.launched ==> EventOk(n, s', e)
    ensures forall b :: b in s.published ==> n.isKey(b.target, b.key) && Recorded(s'.tables, b.key, b.exitCode)
  {
    forall e | e in s.launched ensures EventOk(n, s', e) {
      assert EventOk(n, s, e);
      assert LaunchEvolves(s.tables.launches[e.key], s'.tables.launches[e.key]);
    }
    forall b | b in s.published ensures Recorded(s'.tables, b.key, b.exitCode) {
      RecordedStays(s.tables, s'.tables, b.key, b.exitCode);
    }
  }

  // Assembles the invariant after a step of p from what the step itself has to establish.
  lemma StepKeepsInv(n: Naming, s: State, s': State, p: nat, q: Process)
    requires Inv(n, s) && Later(s, s', p) && s'.procs == s.procs[p := q]
    requires GlobalOk(n, s') && ProcOk(n, s', p, q)
    ensures Inv(n, s')
  {
    forall r | r in s'.procs ensures ProcOk(n, s', r, s'.procs[r]) {
      if r != p {
        OthersStayOk(n, s, s', p, r, s.procs[r]);
      }
    }
  }

  lemma LaterReflexive(s: State, s': State, p: nat)
    requires s'.tables == s.tables && s'.claimant == s.claimant && s'.launched == s.launched
    requires s'.writer == s.writer || s.writer.None? || s.writer == Some(p)
    ensures Later(s, s', p)
  {
  }

  // ---- Steps that touch no durable state ----

  lemma LocalStepKeepsInv(n: Naming, s: State, step: Step)
    requires Inv(n, s) && Enabled(n, s, step)
    requires step.Spawn? || step.Invoke? || step.Refuse? || step.Prepare? || step.EndProcess?
    ensures Inv(n, Next(s, step))
  {
    var s' := Next(s, step);
    LaterReflexive(s, s', step.p);
    EventsStayOk(n, s, s');
    StepKeepsInv(n, s, s', step.p, s'.procs[step.p]);
  }

  lemma BeginKeepsInv(n: Naming, s: State, p: nat)
    requires Inv(n, s) && Enabled(n, s, Begin(p))
    ensures Inv(n, Next(s, Begin(p)))
  {
    var s' := Next(s, Begin(p));
    var (q, q') := (s.procs[p], s'.procs[p]);
    var c := NextCall(q.pc).value;
    TransactKeepsValid(c, s.tables);
    LaterReflexive(s, s', p);
    EventsStayOk(n, s, s');
    assert PcOk(n, s, p, q.pc);
    StepKeepsInv(n, s, s', p, q');
  }

  lemma StartKeepsInv(n: Naming, s: State, p: nat)
    requires Inv(n, s) && Enabled(n, s, StartProcess(p))
    ensures Inv(n, Next(s, StartProcess(p)))
  {
    var s' := Next(s, StartProcess(p));
    var q := s.procs[p];
    assert ProcOk(n, s, p, q);
    ExtendsReflexive(s.tables);
    hide ValidTables, Transact, ArgumentError, Extends, Recorded;
    var e := LaunchEvent(p, q.pc.x.key, q.pc.x.spec);
    EventsStayOk(n, s, s');
    StartedIsOk(n, s, s', e);
    StepKeepsInv(n, s, s', p, s'.procs[p]);
  }

  // The event of a launch, and no other of its key, is added.
  lemma StartedIsOk(n: Naming, s: State, s': State, e: LaunchEvent)
    requires GlobalOk(n, s) && Unlaunched(s, e.key) && EventOk(n, s, e)
    requires s' == s.(launched := s.launched + [e], procs := s'.procs)
    ensures GlobalOk(n, s')
  {
    hide ValidTables, Recorded;
    forall x | x in s'.launched ensures EventOk(n, s', x) {
      assert EventOk(n, s, x);
    }
  }

  lemma PublishKeepsInv(n: Naming, s: State, p: nat, succeeds: bool)
    requires Inv(n, s) && Enabled(n, s, Publish(p, succeeds))
    ensures Inv(n, Next(s, Publish(p, succeeds)))
  {
    var s' := Next(s, Publish(p, succeeds));
    assert ProcOk(n, s, p, s.procs[p]);
    LaterReflexive(s, s', p);
    EventsStayOk(n, s, s');
    StepKeepsInv(n, s, s', p, s'.procs[p]);
  }

  // ---- Steps that end a transaction ----

  // The state after a transaction of p has, or has not, taken effect.
  lemma AppliedKeepsGlobal(n: Naming, s: State, p: nat, c: Call, o: Outcome)
    requires Inv(n, s) && p in s.procs && s.procs[p].pending == Some(o) && NextCall(s.procs[p].pc) == Some(c) && o.Ok?
    ensures
      var s' := Unlocked(Applied(s, p, c, o), p);
      GlobalOk(n, s') && Later(s, s', p) && s'.procs == s.procs && s'.launched == s.launched
  {
    hide ValidTables, Extends, Transact, EventOk, Recorded, PcOk, NextCall, IsRead, ArgumentError;
    var s' := Unlocked(Applied(s, p, c, o), p);
    assert ProcOk(n, s, p, s.procs[p]);
    ExtendsReflexive(s.tables);
    if IsRead(c) {
      LaterReflexive(s, s', p);
    } else {
      TransactKeepsValid(c, s.tables);
      TransactExtends(c, s.tables);
      ClaimantFollows(s, p, c, o);
    }
    EventsStayOk(n, s, s');
  }

  lemma ClaimantFollows(s: State, p: nat, c: Call, o: Outcome)
    requires !IsRead(c) && o == Transact(c, s.tables) && o.Ok? && s.claimant.Keys == s.tables.launches.Keys
    ensures
      var s' := Applied(s, p, c, o);
      && s'.claimant.Keys == s'.tables.launches.Keys
      && (forall k :: k in s.claimant ==> k in s'.claimant && s'.claimant[k] == s.claimant[k])
  {
    hide ValidTables;
  }

  lemma UnappliedKeepsGlobal(n: Naming, s: State, p: nat)
    requires Inv(n, s)
    ensures GlobalOk(n, Unlocked(s, p)) && Later(s, Unlocked(s, p), p)
  {
    LaterReflexive(s, Unlocked(s, p), p);
    EventsStayOk(n, s, Unlocked(s, p));
  }

  lemma CrashKeepsInv(n: Naming, s: State, p: nat, commits: bool)
    requires Inv(n, s) && Enabled(n, s, Crash(p, commits))
    ensures Inv(n, Next(s, Crash(p, commits)))
  {
    var s' := Next(s, Crash(p, commits));
    var q := s.procs[p];
    if commits && q.pending.Some? && q.pending.value.Ok? && NextCall(q.pc).Some? {
      AppliedKeepsGlobal(n, s, p, NextCall(q.pc).value, q.pending.value);
      FinalProcKeepsInv(n, s, Unlocked(Applied(s, p, NextCall(q.pc).value, q.pending.value), p), p,
                        Process(Closed, Crashed, None));
    } else {
      UnappliedKeepsGlobal(n, s, p);
      FinalProcKeepsInv(n, s, Unlocked(s, p), p, Process(Closed, Crashed, None));
    }
  }

  lemma FinalProcKeepsInv(n: Naming, s: State, s1: State, p: nat, q: Process)
    requires Inv(n, s) && GlobalOk(n, s1) && Later(s, s1, p) && s1.procs == s.procs
    requires PcOk(n, s1, p, q.pc) && q.pending.None?
    ensures Inv(n, With(s1, p, q))
  {
    hide ValidTables, Transact, Extends, EventOk, Recorded, NextCall;
    ExtendsReflexive(s1.tables);
    var s' := With(s1, p, q);
    assert PcOk(n, s', p, q.pc) by { PcReadsLittle(n, s1, s', p, q.pc); }
    EventsStayOk(n, s1, s');
    StepKeepsInv(n, s, s', p, q);
  }

  lemma PcReadsLittle(n: Naming, s: State, s': State, p: nat, pc: Pc)
    requires PcOk(n, s, p, pc)
    requires s'.tables == s.tables && s'.claimant == s.claimant && s'.launched == s.launched
    ensures PcOk(n, s', p, pc)
  {
  }

  lemma FinishKeepsInv(n: Naming, s: State, p: nat, f: Faults)
    requires Inv(n, s) && Enabled(n, s, Finish(p, f))
    ensures Inv(n, Next(s, Finish(p, f)))
  {
    var q := s.procs[p];
    var (c, o) := (NextCall(q.pc).value, q.pending.value);
    var a := AuthorityHandle.Finish(s.tables, c, o, f);
    var s1 := Unlocked(if TakesEffect(o, f) then Applied(s, p, c, o) else s, p);
    var q' := Process(a.handle, Resume(q.pc, a.result), None);
    if TakesEffect(o, f) {
      AppliedKeepsGlobal(n, s, p, c, o);
    } else {
      UnappliedKeepsGlobal(n, s, p);
    }
    if a.result.Ok? {
      ResumeKeepsPc(n, s, p, c, o);
    }
    FinalProcKeepsInv(n, s, s1, p, q');
  }

  lemma ClaimApplied(t: Tables, c: Call)
    requires c.ClaimLaunch? && Transact(c, t).Ok?
    ensures
      var t' := Transact(c, t).value.0;
      c.key !in t.launches && Lookup(t'.bindings, c.key) == Some(c.hash) && c.key in t'.launches
  {
    hide ValidTables;
  }

  lemma AdvanceApplied(t: Tables, c: Call)
    requires (c.MarkUnknown? || c.RecordTerminal?) && Transact(c, t).Ok?
    ensures
      var t' := Transact(c, t).value.0;
      && t'.bindings == t.bindings && c.key in t'.launches
      && (c.MarkUnknown? ==> t'.launches[c.key].state.Unknown?)
      && (c.RecordTerminal? ==> Recorded(t', c.key, c.exitCode))
  {
    hide ValidTables;
  }

  // An acknowledged call leaves its controller with exactly what the next step of its program needs.
  lemma ResumeKeepsPc(n: Naming, s: State, p: nat, c: Call, o: Outcome)
    requires Inv(n, s) && p in s.procs && s.procs[p].pending == Some(o) && NextCall(s.procs[p].pc) == Some(c) && o.Ok?
    ensures PcOk(n, Unlocked(Applied(s, p, c, o), p), p, Resume(s.procs[p].pc, Ok(o.value.1)))
  {
    hide ValidTables, Extends, Transact, ArgumentError;
    var pc := s.procs[p].pc;
    assert ProcOk(n, s, p, s.procs[p]);
    match pc {
      case Claiming(x) =>
        ClaimApplied(s.tables, c);
        forall i | 0 <= i < |s.launched| ensures s.launched[i].key != x.key {
          assert EventOk(n, s, s.launched[i]);
        }
      case Marking(x) => AdvanceApplied(s.tables, c);
      case Recording(x, code) => AdvanceApplied(s.tables, c);
      case _ =>
    }
  }

  lemma NextKeepsInv(n: Naming, s: State, step: Step)
    requires Inv(n, s) && Enabled(n, s, step)
    ensures Inv(n, Next(s, step))
  {
    match step
    case Begin(p) => BeginKeepsInv(n, s, p);
    case Finish(p, f) => FinishKeepsInv(n, s, p, f);
    case StartProcess(p) => StartKeepsInv(n, s, p);
    case Publish(p, succeeds) => PublishKeepsInv(n, s, p, succeeds);
    case Crash(p, commits) => CrashKeepsInv(n, s, p, commits);
    case _ => LocalStepKeepsInv(n, s, step);
  }

  lemma {:induction false} InvAlways(n: Naming, ss: seq<State>, steps: seq<Step>, i: nat)
    requires IsRun(n, ss, steps) && i < |ss|
    ensures Inv(n, ss[i])
  {
    if i == 0 {
      EmptyIsValid();
    } else {
      InvAlways(n, ss, steps, i - 1);
      assert Enabled(n, ss[i - 1], steps[i - 1]) && ss[i] == Next(ss[i - 1], steps[i - 1]);
      NextKeepsInv(n, ss[i - 1], steps[i - 1]);
    }
  }
}
