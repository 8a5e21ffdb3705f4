/** Any number of controllers sharing one store: the program each one runs, and the steps a run may take.
    COMMITs may take effect without the caller learning of it, rollbacks may fail, and a controller may
    crash between any two steps or during a COMMIT. */
module LaunchProtocol {
  import opened Prelude
  import opened AuthorityTables
  import opened AuthorityHandle
  import CommandSpec

  type Spec = CommandSpec.Spec

  // What a client invocation is about: an authenticated revision, validated under one contract tree.
  datatype Target = Target(revision: string, contractTree: string)

  // How specifications are hashed and targets are named; fixed over a run.
  datatype Naming = Naming(isHash: (Spec, string) -> bool, isKey: (Target, string) -> bool)

  const SCOPE := "umbilical/workgraph-first-client/v1"

  // One run of execute_local_command; its hash is computed before the store is touched.
  datatype Execution = Execution(key: string, scope: string, generation: int, spec: Spec, hash: string,
                                 client: Option<Target>)

  datatype Job = Job(target: Target, key: string, spec: Spec, hash: string)

  // Where a controller is: about to make the call named, at an external effect, or between programs.
  datatype Pc =
    | Idle | Done | Failed | Crashed
    | Calling(call: Call)
    | Claiming(x: Execution) | Marking(x: Execution) | Launching(x: Execution) | Running(x: Execution)
    | Recording(x: Execution, exitCode: int)
    | CheckingKey(target: Target, key: string)
    | ReadingLaunch(target: Target, key: string)
    | Preparing(target: Target, key: string, known: bool)
    | Registering(job: Job) | Binding(job: Job) | ReadingGeneration(job: Job)
    | ReadingAdmission(job: Job, generation: int) | Admitting(job: Job, generation: int)
    | Publishing(target: Target, key: string, exitCode: int)

  function NextCall(pc: Pc): Option<Call> {
    match pc
    case Calling(c) => Some(c)
    case Claiming(x) => Some(ClaimLaunch(x.key, x.scope, x.generation, x.hash))
    case Marking(x) => Some(MarkUnknown(x.key, x.hash))
    case Recording(x, code) => Some(RecordTerminal(x.key, x.hash, code))
    case CheckingKey(_, k) => Some(KeyExists(k))
    case ReadingLaunch(_, k) => Some(ReadLaunch(k))
    case Registering(j) => Some(RegisterKey(j.key))
    case Binding(j) => Some(BindCommand(j.key, j.hash))
    case ReadingGeneration(_) => Some(ReadGeneration(SCOPE))
    case ReadingAdmission(j, _) => Some(AuthorityTables.ReadAdmission(j.key))
    case Admitting(j, g) => Some(Admit(j.key, SCOPE, g))
    case _ => None
  }

  function ExecutionOf(j: Job, g: int): Execution { Execution(j.key, SCOPE, g, j.spec, j.hash, Some(j.target)) }

  // The control flow of run_workgraph_client and execute_local_command; every error ends the program.
  function Resume(pc: Pc, r: Result<Reply, Error>): Pc {
    match r
    case Err(_) => Failed
    case Ok(reply) =>
      match pc
      case Claiming(x) => Marking(x)
      case Marking(x) => Launching(x)
      case Recording(x, code) =>
        (match x.client case None => Done case Some(t) => Publishing(t, x.key, code))
      case CheckingKey(t, k) =>
        if reply == Presence(true) then ReadingLaunch(t, k) else Preparing(t, k, false)
      case ReadingLaunch(t, k) =>
        if !reply.LaunchIs? then Failed
        else (match reply.prior
              case None => Preparing(t, k, true)
              case Some(l) =>
                if !l.state.Terminal? then Done
                else if l.exitCode.None? then Failed
                else Publishing(t, k, l.exitCode.value))
      case Registering(j) => Binding(j)
      case Binding(j) => ReadingGeneration(j)
      case ReadingGeneration(j) =>
        if reply.GenerationIs? && reply.current.Some? then ReadingAdmission(j, reply.current.value) else Failed
      case ReadingAdmission(j, g) =>
        if !reply.AdmissionIs? then Failed
        else (match reply.admission
              case None => Admitting(j, g)
              case Some(a) => if a.generation != g then Failed else Claiming(ExecutionOf(j, g)))
      case Admitting(j, g) => Claiming(ExecutionOf(j, g))
      case _ => Done
  }

  // pending is the outcome of an open transaction, computed when it began.
  datatype Process = Process(handle: Handle, pc: Pc, pending: Option<Outcome>)

  datatype LaunchEvent = LaunchEvent(pid: nat, key: string, spec: Spec)

  datatype Publication = Publication(target: Target, key: string, exitCode: int)

  datatype Entry = Entry(call: Call, reply: Reply)

  // The durable tables, who holds SQLite's write lock, the controllers, and what has happened so far:
  // physical launches, publications, committed transactions and the controller behind each claim.
  datatype State = State(
    tables: Tables,
    writer: Option<nat>,
    procs: map<nat, Process>,
    launched: seq<LaunchEvent>,
    published: seq<Publication>,
    log: seq<Entry>,
    claimant: map<string, nat>)

  const INITIAL := State(EMPTY, None, map[], [], [], [], map[])

  datatype Step =
    | Spawn(p: nat)
    | Invoke(p: nat, pc: Pc)
    | Begin(p: nat)
    | Refuse(p: nat, error: Error)
    | Finish(p: nat, faults: Faults)
    | Prepare(p: nat, built: Option<(Spec, string)>)
    | StartProcess(p: nat)
    | EndProcess(p: nat, exitCode: Option<int>)
    | Publish(p: nat, succeeds: bool)
    | Crash(p: nat, commits: bool)

  // A program a caller may start: a store call of its own, a local execution, or a client run.
  predicate IsProgram(n: Naming, pc: Pc) {
    match pc
    case Calling(_) => true
    case Claiming(x) => n.isHash(x.spec, x.hash) && x.client.None?
    case CheckingKey(t, k) => n.isKey(t, k)
    case _ => false
  }

  function With(s: State, p: nat, q: Process): State { s.(procs := s.procs[p := q]) }

  // The durable effect of a transaction of p that takes effect.
  function Applied(s: State, p: nat, c: Call, o: Outcome): State
    requires o.Ok?
  {
    if IsRead(c) then s
    else s.(tables := o.value.0,
            log := s.log + [Entry(c, o.value.1)],
            claimant := if c.ClaimLaunch? then s.claimant[c.key := p] else s.claimant)
  }

  function Unlocked(s: State, p: nat): State { if s.writer == Some(p) then s.(writer := None) else s }

  predicate TakesEffect(o: Outcome, f: Faults) {
    o.Ok? && !f.validationFails && !f.writeFails && !f.commit.Rejected?
  }

  predicate CanBegin(s: State, q: Process) {
    q.pending.None? && NextCall(q.pc).Some? && q.handle.Open? && ArgumentError(NextCall(q.pc).value).None? &&
    (IsRead(NextCall(q.pc).value) || s.writer.None?)
  }

  ghost predicate Enabled(n: Naming, s: State, step: Step) {
    if step.Spawn? then step.p !in s.procs else step.p in s.procs && Ready(n, s, s.procs[step.p], step)
  }

  ghost predicate Ready(n: Naming, s: State, q: Process, step: Step) {
    match step
    case Spawn(_) => false
    case Invoke(_, pc) => (q.pc.Idle? || q.pc.Done? || q.pc.Failed?) && q.pending.None? && IsProgram(n, pc)
    case Begin(_) => CanBegin(s, q)
    case Refuse(_, _) => q.pending.None? && NextCall(q.pc).Some?
    case Finish(_, _) => q.pending.Some? && NextCall(q.pc).Some?
    case Prepare(_, built) => q.pc.Preparing? && (built.Some? ==> n.isHash(built.value.0, built.value.1))
    case StartProcess(_) => q.pc.Launching?
    case EndProcess(_, _) => q.pc.Running?
    case Publish(_, _) => q.pc.Publishing?
    case Crash(_, _) => !q.pc.Crashed?
  }

  function Next(s: State, step: Step): State
    requires step.Spawn? || step.p in s.procs
    requires step.Begin? || step.Finish? ==> NextCall(s.procs[step.p].pc).Some?
    requires step.Finish? ==> s.procs[step.p].pending.Some?
    requires step.Prepare? ==> s.procs[step.p].pc.Preparing?
    requires step.StartProcess? ==> s.procs[step.p].pc.Launching?
    requires step.EndProcess? ==> s.procs[step.p].pc.Running?
    requires step.Publish? ==> s.procs[step.p].pc.Publishing?
  {
    if step.Spawn? then With(s, step.p, Process(Open, Idle, None))
    else
      var q := s.procs[step.p];
      match step
      case Invoke(p, pc) => With(s, p, q.(pc := pc))
      case Begin(p) =>
        var c := NextCall(q.pc).value;
        With(if IsRead(c) then s else s.(writer := Some(p)), p, q.(pending := Some(Transact(c, s.tables))))
      case Refuse(p, e) => With(s, p, q.(pc := Resume(q.pc, Err(e))))
      case Finish(p, f) =>
        var (c, o) := (NextCall(q.pc).value, q.pending.value);
        var a := AuthorityHandle.Finish(s.tables, c, o, f);
        With(Unlocked(if TakesEffect(o, f) then Applied(s, p, c, o) else s, p), p,
             Process(a.handle, Resume(q.pc, a.result), None))
      case Prepare(p, built) =>
        With(s, p, q.(pc := match built
                            case None => Failed
                            case Some((spec, hash)) =>
                              var j := Job(q.pc.target, q.pc.key, spec, hash);
                              if q.pc.known then Binding(j) else Registering(j)))
      case StartProcess(p) =>
        var x := q.pc.x;
        With(s.(launched := s.launched + [LaunchEvent(p, x.key, x.spec)]), p, q.(pc := Running(x)))
      case EndProcess(p, code) =>
        With(s, p, q.(pc := match code case None => Failed case Some(c) => Recording(q.pc.x, c)))
      case Publish(p, succeeds) =>
        With(s.(published := s.published + [Publication(q.pc.target, q.pc.key, q.pc.exitCode)]), p,
             q.(pc := if succeeds then Done else Failed))
      case Crash(p, commits) =>
        var applies := commits && q.pending.Some? && q.pending.value.Ok? && NextCall(q.pc).Some?;
        With(Unlocked(if applies then Applied(s, p, NextCall(q.pc).value, q.pending.value) else s, p), p,
             Process(Closed, Crashed, None))
  }

  ghost predicate IsRun(n: Naming, ss: seq<State>, steps: seq<Step>) {
    |ss| == |steps| + 1 && ss[0] == INITIAL &&
    forall i :: 0 <= i < |steps| ==> Enabled(n, ss[i], steps[i]) && ss[i + 1] == Next(ss[i], steps[i])
  }

  // A controller that crashes while a transaction is open leaves all of it or nothing, and it is not known which.
  lemma CrashGoesEitherWay(n: Naming, s: State, p: nat)
    requires p in s.procs && !s.procs[p].pc.Crashed? && NextCall(s.procs[p].pc).Some?
    requires s.procs[p].pending.Some? && s.procs[p].pending.value.Ok? && !IsRead(NextCall(s.procs[p].pc).value)
    ensures Enabled(n, s, Crash(p, true)) && Enabled(n, s, Crash(p, false))
    ensures Next(s, Crash(p, true)).tables == s.procs[p].pending.value.value.0
    ensures Next(s, Crash(p, false)).tables == s.tables
    ensures forall commits ::
      var s' := Next(s, Crash(p, commits));
      && s'.procs == s.procs[p := Process(Closed, Crashed, None)]
      && s'.writer == (if s.writer == Some(p) then None else s.writer)
      && s'.launched == s.launched && s'.published == s.published
  {
    hide ValidTables, Transact;
    assert forall commits :: Next(s, Crash(p, commits)).procs == s.procs[p := Process(Closed, Crashed, None)];
  }

  // A step of the protocol that finishes a transaction nobody interleaved with does to the store and
  // the handle exactly what one call on that handle does.
  lemma UninterruptedCallIsAttempt(s: State, p: nat, f: Faults)
    requires p in s.procs && CanBegin(s, s.procs[p]) && s.writer != Some(p)
    ensures
      var c := NextCall(s.procs[p].pc).value;
      var s' := Next(Next(s, Begin(p)), Finish(p, f));
      var a := Attempt(Open, s.tables, c, f.(beginFails := false));
      && s'.tables == a.tables && s'.writer == s.writer && s'.procs[p].handle == a.handle
      && s'.procs[p].pc == Resume(s.procs[p].pc, a.result)
  {
    hide Transact, ValidTables, Resume;
    var c := NextCall(s.procs[p].pc).value;
    var o := Transact(c, s.tables);
    var s1 := Next(s, Begin(p));
    assert s1.procs[p] == s.procs[p].(pending := Some(o)) && s1.tables == s.tables;
  }
}
