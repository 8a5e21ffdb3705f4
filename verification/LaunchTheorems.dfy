/** The promises of the authority protocol, over every run of any number of controllers. */
module LaunchTheorems {
  import opened Prelude
  import opened AuthorityTables
  import opened AuthorityHandle
  import opened LaunchProtocol
  import opened LaunchSafety
  import Bytes
  import CommandSpec
  import CanonicalSpec
  import ExecutionIdentity

  // ---- One physical launch per key ----

  // However controllers interleave, fail and crash, no key is launched twice, and what is launched
  // has been moved out of INTENT on durable record.
  lemma AtMostOneLaunch(n: Naming, ss: seq<State>, steps: seq<Step>, i: nat, a: nat, b: nat)
    requires IsRun(n, ss, steps) && i < |ss| && a < |ss[i].launched| && b < |ss[i].launched|
    requires ss[i].launched[a].key == ss[i].launched[b].key
    ensures a == b
    ensures ss[i].launched[a].key in ss[i].tables.launches
    ensures !ss[i].tables.launches[ss[i].launched[a].key].state.Intent?
  {
    InvAlways(n, ss, steps, i);
    assert EventOk(n, ss[i], ss[i].launched[a]);
  }

  // The controller holding the claim on k may still launch it.
  predicate MayLaunch(s: State, k: string) {
    k in s.claimant && s.claimant[k] in s.procs && AimsAt(s.procs[s.claimant[k]].pc, k)
  }

  predicate Orphaned(s: State, k: string) { k in s.claimant && Unlaunched(s, k) && !MayLaunch(s, k) }

  // Only the holder of the claim on k ever starts the process of k.
  lemma OrphanStaysUnlaunched(n: Naming, s: State, step: Step, k: string)
    requires Inv(n, s) && Enabled(n, s, step) && Orphaned(s, k)
    ensures Unlaunched(Next(s, step), k)
  {
    hide ValidTables, Transact, Resume, AuthorityHandle.Finish;
    if step.StartProcess? {
      assert PcOk(n, s, step.p, s.procs[step.p].pc);
      assert s.procs[step.p].pc.x.key != k;
    }
  }

  predicate AimsAt(pc: Pc, k: string) { (pc.Marking? || pc.Launching?) && pc.x.key == k }

  // Only a claim that is acknowledged leads towards launching a key.
  lemma OnlyClaimsAim(pc: Pc, r: Result<Reply, Error>, k: string)
    requires AimsAt(Resume(pc, r), k) && !AimsAt(pc, k)
    ensures r.Ok? && pc.Claiming? && pc.x.key == k
  {
  }

  // No step takes a controller towards launching a key that is claimed already.
  lemma NobodyAimsAnew(n: Naming, s: State, step: Step, k: string, p: nat)
    requires Inv(n, s) && Enabled(n, s, step) && k in s.claimant
    requires p in s.procs && !AimsAt(s.procs[p].pc, k)
    ensures !AimsAt(Next(s, step).procs[p].pc, k)
  {
    hide ValidTables, Extends, EventOk, Recorded, Named, Holds, Resume;
    assert PendingOk(s, p, s.procs[p]);
    hide Inv, GlobalOk;
    var pc := s.procs[p].pc;
    if !step.Spawn? && step.p == p && AimsAt(Next(s, step).procs[p].pc, k) {
      match step
      case Refuse(_, e) => OnlyClaimsAim(pc, Err(e), k);
      case Finish(_, f) =>
        OnlyClaimsAim(pc, AuthorityHandle.Finish(s.tables, NextCall(pc).value, s.procs[p].pending.value, f).result, k);
        SpentKey(s.tables, NextCall(pc).value);
      case _ =>
    }
  }

  lemma OrphanStepKeeps(n: Naming, s: State, step: Step, k: string)
    requires Inv(n, s) && Enabled(n, s, step) && Orphaned(s, k)
    ensures Orphaned(Next(s, step), k)
  {
    hide Inv, Enabled, Next;
    OrphanStaysUnlaunched(n, s, step, k);
    ClaimsStay(n, s, step, k);
    ProcsStay(n, s, step, s.claimant[k]);
    if s.claimant[k] in s.procs {
      NobodyAimsAnew(n, s, step, k, s.claimant[k]);
    }
  }

  lemma ProcsStay(n: Naming, s: State, step: Step, p: nat)
    requires Enabled(n, s, step)
    ensures p in s.procs ==> p in Next(s, step).procs
    ensures p !in s.procs && p in Next(s, step).procs ==> Next(s, step).procs[p].pc.Idle?
  {
  }

  lemma ClaimsStay(n: Naming, s: State, step: Step, k: string)
    requires Inv(n, s) && Enabled(n, s, step) && k in s.claimant
    ensures Lookup(Next(s, step).claimant, k) == Some(s.claimant[k])
  {
    if !step.Spawn? {
      assert ProcOk(n, s, step.p, s.procs[step.p]);
    }
  }

  // A key claimed by a controller that has crashed, failed or moved on without launching it is never
  // launched by anybody.
  lemma {:induction false} OrphanNeverLaunched(n: Naming, ss: seq<State>, steps: seq<Step>, i: nat, j: nat, k: string)
    requires IsRun(n, ss, steps) && i <= j < |ss| && Orphaned(ss[i], k)
    ensures Orphaned(ss[j], k)
  {
    hide Orphaned, Inv, Enabled, Next;
    if i < j {
      OrphanNeverLaunched(n, ss, steps, i, j - 1, k);
      InvAlways(n, ss, steps, j - 1);
      OrphanStepKeeps(n, ss[j - 1], steps[j - 1], k);
    }
  }

  // ---- Durable history ----

  lemma StepExtends(n: Naming, s: State, step: Step)
    requires Inv(n, s) && Enabled(n, s, step)
    ensures Extends(s.tables, Next(s, step).tables)
  {
    hide Extends, Transact, ValidTables, PcOk, GlobalOk, Resume;
    ExtendsReflexive(s.tables);
    if !step.Spawn? {
      var q := s.procs[step.p];
      assert ProcOk(n, s, step.p, q);
      if q.pending.Some? && q.pending.value.Ok? && !IsRead(NextCall(q.pc).value) {
        TransactExtends(NextCall(q.pc).value, s.tables);
      }
    }
  }

  // Registrations, bindings and admissions never change once made, a launch only moves forward, and a
  // terminal exit code is final.
  lemma {:induction false} HistoryIsWriteOnce(n: Naming, ss: seq<State>, steps: seq<Step>, i: nat, j: nat)
    requires IsRun(n, ss, steps) && i <= j < |ss|
    ensures Extends(ss[i].tables, ss[j].tables)
  {
    hide Extends, Inv, Enabled, Next;
    if i == j {
      ExtendsReflexive(ss[i].tables);
    } else {
      HistoryIsWriteOnce(n, ss, steps, i, j - 1);
      InvAlways(n, ss, steps, j - 1);
      StepExtends(n, ss[j - 1], steps[j - 1]);
      ExtendsTransitive(ss[i].tables, ss[j - 1].tables, ss[j].tables);
    }
  }

  // A store that only this code writes passes every validator in every reachable state, so no guarded update
  // misses its row, and a call reports the store malformed only when the database fails while validating it.
  lemma NeverMalformed(n: Naming, ss: seq<State>, steps: seq<Step>, i: nat, c: Call, h: Handle, f: Faults)
    requires IsRun(n, ss, steps) && i < |ss|
    ensures ValidTables(ss[i].tables)
    ensures ArgumentError(c).None? ==> Transact(c, ss[i].tables) != Err(Malformed)
    ensures Attempt(h, ss[i].tables, c, f).result == Err(Malformed) ==> f.validationFails
  {
    InvAlways(n, ss, steps, i);
    hide Transact, ValidTables, Attempt;
    if ArgumentError(c).None? {
      TransactKeepsValid(c, ss[i].tables);
    }
    AttemptIsAllOrNothing(h, ss[i].tables, c, f);
  }

  // ---- Fencing ----

  // Committed transactions in their order: grants for a scope increase, and every admission and claim
  // carries the newest grant made before it.
  ghost predicate Fenced(log: seq<Entry>) {
    && (forall i :: 0 <= i < |log| && log[i].call.AcquireGeneration? ==>
          log[i].reply.Acquired? && IsGeneration(log[i].reply.generation))
    && forall i, j :: 0 <= i < j < |log| && log[i].call.AcquireGeneration? && log[i].reply.Acquired? ==>
         FencedBy(log[i].call.scope, log[i].reply.generation, log[j])
  }

  predicate FencedBy(scope: string, g: int, e: Entry) {
    match e.call
    case AcquireGeneration(s) => s == scope ==> e.reply.Acquired? && g < e.reply.generation
    case Admit(_, s, h) => s == scope ==> g <= h
    case ClaimLaunch(_, s, h, _) => s == scope ==> g <= h
    case _ => true
  }

  // The tables hold at least every generation granted so far.
  ghost predicate Granted(log: seq<Entry>, t: Tables) {
    forall i :: 0 <= i < |log| && log[i].call.AcquireGeneration? && log[i].reply.Acquired? ==>
      Reaches(t.generations, log[i].call.scope, log[i].reply.generation)
  }

  lemma EntryIsFenced(t: Tables, c: Call, scope: string, g: int)
    requires ValidTables(t) && Transact(c, t).Ok? && !IsRead(c) && Reaches(t.generations, scope, g)
    ensures FencedBy(scope, g, Entry(c, Transact(c, t).value.1))
  {
  }

  lemma EntryIsGranted(t: Tables, c: Call)
    requires ValidTables(t) && Transact(c, t).Ok? && c.AcquireGeneration?
    ensures
      var (t', reply) := Transact(c, t).value;
      reply.Acquired? && IsGeneration(reply.generation) && Reaches(t'.generations, c.scope, reply.generation)
  {
  }

  lemma AppendKeepsFence(log: seq<Entry>, t: Tables, c: Call)
    requires ValidTables(t) && Transact(c, t).Ok? && !IsRead(c) && ArgumentError(c).None?
    requires Fenced(log) && Granted(log, t)
    ensures
      var (t', reply) := Transact(c, t).value;
      Fenced(log + [Entry(c, reply)]) && Granted(log + [Entry(c, reply)], t')
  {
    var (t', reply) := Transact(c, t).value;
    var log' := log + [Entry(c, reply)];
    TransactKeepsValid(c, t);
    TransactExtends(c, t);
    if c.AcquireGeneration? {
      EntryIsGranted(t, c);
    }
    forall i | 0 <= i < |log| && log[i].call.AcquireGeneration? && log[i].reply.Acquired?
      ensures FencedBy(log[i].call.scope, log[i].reply.generation, Entry(c, reply))
      ensures Reaches(t'.generations, log[i].call.scope, log[i].reply.generation)
    {
      EntryIsFenced(t, c, log[i].call.scope, log[i].reply.generation);
    }
  }

  lemma StepKeepsFence(n: Naming, s: State, step: Step)
    requires Inv(n, s) && Enabled(n, s, step) && Fenced(s.log) && Granted(s.log, s.tables)
    ensures Fenced(Next(s, step).log) && Granted(Next(s, step).log, Next(s, step).tables)
  {
    var s' := Next(s, step);
    if s'.log != s.log || s'.tables != s.tables {
      var q := s.procs[step.p];
      assert ProcOk(n, s, step.p, q);
      AppendKeepsFence(s.log, s.tables, NextCall(q.pc).value);
    }
  }

  // Generations granted for a scope strictly increase and never leave their range; once one has been
  // granted, nothing is admitted or claimed under a smaller one.
  lemma {:induction false} FencingHolds(n: Naming, ss: seq<State>, steps: seq<Step>, i: nat)
    requires IsRun(n, ss, steps) && i < |ss|
    ensures Fenced(ss[i].log) && Granted(ss[i].log, ss[i].tables)
  {
    if i > 0 {
      FencingHolds(n, ss, steps, i - 1);
      InvAlways(n, ss, steps, i - 1);
      assert Enabled(n, ss[i - 1], steps[i - 1]) && ss[i] == Next(ss[i - 1], steps[i - 1]);
      StepKeepsFence(n, ss[i - 1], steps[i - 1]);
    }
  }

  // How many acquisitions for a scope have been committed.
  function Grants(log: seq<Entry>, scope: string): nat {
    if log == [] then 0
    else
      var n := |log| - 1;
      Grants(log[..n], scope) + if log[n].call == AcquireGeneration(scope) then 1 else 0
  }

  predicate Counts(log: seq<Entry>, t: Tables, scope: string) {
    Lookup(t.generations, scope) == if Grants(log, scope) == 0 then None else Some(Grants(log, scope))
  }

  // The k-th committed acquisition for a scope was answered with generation k.
  ghost predicate Numbered(log: seq<Entry>) {
    forall i :: 0 <= i < |log| && log[i].call.AcquireGeneration? ==>
      log[i].reply == Acquired(Grants(log[..i + 1], log[i].call.scope))
  }

  lemma AppendCounts(log: seq<Entry>, t: Tables, c: Call, scope: string)
    requires ValidTables(t) && Transact(c, t).Ok? && !IsRead(c) && Counts(log, t, scope)
    ensures
      var (t', reply) := Transact(c, t).value;
      var log' := log + [Entry(c, reply)];
      && Counts(log', t', scope)
      && (c == AcquireGeneration(scope) ==> reply == Acquired(Grants(log', scope)))
  {
    var log' := log + [Entry(c, Transact(c, t).value.1)];
    assert log'[..|log|] == log;
  }

  lemma AppendNumbers(log: seq<Entry>, e: Entry)
    requires Numbered(log)
    requires e.call.AcquireGeneration? ==> e.reply == Acquired(Grants(log + [e], e.call.scope))
    ensures Numbered(log + [e])
  {
    var log' := log + [e];
    forall i | 0 <= i < |log'| && log'[i].call.AcquireGeneration?
      ensures log'[i].reply == Acquired(Grants(log'[..i + 1], log'[i].call.scope))
    {
      if i < |log| {
        assert log'[..i + 1] == log[..i + 1];
      } else {
        assert log'[..i + 1] == log';
      }
    }
  }

  lemma StepKeepsCount(n: Naming, s: State, step: Step)
    requires Inv(n, s) && Enabled(n, s, step)
    requires Numbered(s.log) && forall scope :: Counts(s.log, s.tables, scope)
    ensures Numbered(Next(s, step).log) && forall scope :: Counts(Next(s, step).log, Next(s, step).tables, scope)
  {
    hide ValidTables, Transact, Counts, Numbered, Resume, Grants;
    var s' := Next(s, step);
    if s'.log != s.log || s'.tables != s.tables {
      var q := s.procs[step.p];
      assert ProcOk(n, s, step.p, q);
      var c := NextCall(q.pc).value;
      var e := Entry(c, Transact(c, s.tables).value.1);
      assert s'.log == s.log + [e] && s'.tables == Transact(c, s.tables).value.0;
      forall scope ensures Counts(s'.log, s'.tables, scope) {
        AppendCounts(s.log, s.tables, c, scope);
      }
      if c.AcquireGeneration? {
        AppendCounts(s.log, s.tables, c, c.scope);
      }
      AppendNumbers(s.log, e);
    }
  }

  // Generations are handed out without gaps: the current one counts the acquisitions that took effect,
  // those whose caller never learned of it included, and each was answered with its own number.
  lemma {:induction false} GenerationsCountGrants(n: Naming, ss: seq<State>, steps: seq<Step>, i: nat)
    requires IsRun(n, ss, steps) && i < |ss|
    ensures Numbered(ss[i].log) && forall scope :: Counts(ss[i].log, ss[i].tables, scope)
  {
    if i > 0 {
      hide Counts, Numbered, Inv;
      GenerationsCountGrants(n, ss, steps, i - 1);
      InvAlways(n, ss, steps, i - 1);
      assert Enabled(n, ss[i - 1], steps[i - 1]) && ss[i] == Next(ss[i - 1], steps[i - 1]);
      StepKeepsCount(n, ss[i - 1], steps[i - 1]);
    }
  }

  // k is admitted under a generation that is no longer the current one, and nobody has claimed it.
  predicate Superseded(t: Tables, k: string) {
    k in t.admissions && k !in t.launches && t.admissions[k].scope in t.generations &&
    t.admissions[k].generation < t.generations[t.admissions[k].scope]
  }

  lemma SupersededStays(t: Tables, c: Call, k: string)
    requires ValidTables(t) && Superseded(t, k) && Transact(c, t).Ok?
    ensures Superseded(Transact(c, t).value.0, k)
  {
    TransactExtends(c, t);
    var t' := Transact(c, t).value.0;
    assert k !in t'.launches;
  }

  lemma SupersededStep(n: Naming, s: State, step: Step, k: string)
    requires Inv(n, s) && Enabled(n, s, step) && Superseded(s.tables, k)
    ensures Superseded(Next(s, step).tables, k)
  {
    hide ValidTables, Transact, Superseded, Resume, Extends;
    if Next(s, step).tables != s.tables {
      assert PendingOk(s, step.p, s.procs[step.p]);
      SupersededStays(s.tables, NextCall(s.procs[step.p].pc).value, k);
    }
  }

  lemma {:induction false} SupersededForGood(n: Naming, ss: seq<State>, steps: seq<Step>, i: nat, j: nat, k: string)
    requires IsRun(n, ss, steps) && i <= j < |ss| && Superseded(ss[i].tables, k)
    ensures Superseded(ss[j].tables, k)
  {
    hide Superseded, Inv, Enabled, Next;
    if i < j {
      SupersededForGood(n, ss, steps, i, j - 1, k);
      InvAlways(n, ss, steps, j - 1);
      SupersededStep(n, ss[j - 1], steps[j - 1], k);
    }
  }

  // The fence holds for good: such a key can never be claimed, so it is never launched.
  lemma SupersededNeverClaimed(n: Naming, ss: seq<State>, steps: seq<Step>, i: nat, j: nat, k: string)
    requires IsRun(n, ss, steps) && i <= j < |ss| && Superseded(ss[i].tables, k)
    ensures k !in ss[j].tables.launches && Unlaunched(ss[j], k)
  {
    SupersededForGood(n, ss, steps, i, j, k);
    InvAlways(n, ss, steps, j);
    forall e | 0 <= e < |ss[j].launched| ensures ss[j].launched[e].key != k {
      assert EventOk(n, ss[j], ss[j].launched[e]);
    }
  }

  // ---- Concrete hashes and keys ----

  const REPOSITORY := "github-repository-id:1338331328"
  const SUBJECT := "workgraph/repository-valid"
  const CONTRACT_PREFIX := "umbilical-workgraph-validation-tree:"

  function ClientIdentity(t: Target): ExecutionIdentity.Identity {
    ExecutionIdentity.Identity(REPOSITORY, SUBJECT, t.revision, CONTRACT_PREFIX + t.contractTree)
  }

  predicate IsHashOf(hexDigest: Bytes.Blob -> string, spec: Spec, hash: string) {
    CommandSpec.WellFormed(spec) && CanonicalSpec.CommandSpecHash(hexDigest, spec) == Ok(hash)
  }

  predicate IsKeyOf(t: Target, key: string) { ExecutionIdentity.DeriveExecutionKey(ClientIdentity(t)) == Ok(key) }

  ghost predicate Concrete(n: Naming, hexDigest: Bytes.Blob -> string) {
    && (forall spec, hash :: n.isHash(spec, hash) <==> IsHashOf(hexDigest, spec, hash))
    && (forall t, key :: n.isKey(t, key) <==> IsKeyOf(t, key))
  }

  // Whatever is launched hashes to the hash its key was bound to, at the launch and ever after.
  lemma LaunchMatchesBinding(n: Naming, hexDigest: Bytes.Blob -> string, ss: seq<State>, steps: seq<Step>,
                             i: nat, j: nat, a: nat)
    requires IsRun(n, ss, steps) && Concrete(n, hexDigest) && i <= j < |ss| && a < |ss[i].launched|
    ensures
      var e := ss[i].launched[a];
      e.key in ss[j].tables.bindings && IsHashOf(hexDigest, e.spec, ss[j].tables.bindings[e.key])
  {
    hide IsHashOf, IsKeyOf, ValidTables, PcOk, PendingOk;
    InvAlways(n, ss, steps, i);
    assert EventOk(n, ss[i], ss[i].launched[a]);
    HistoryIsWriteOnce(n, ss, steps, i, j);
  }

  // One command, or two whose canonical bytes are a collision of the digest.
  predicate SameOrCollision(hexDigest: Bytes.Blob -> string, s: Spec, t: Spec) {
    s == t ||
    (CommandSpec.WellFormed(s) && CanonicalSpec.CanonicalBytes(s).Ok? &&
     CommandSpec.WellFormed(t) && CanonicalSpec.CanonicalBytes(t).Ok? &&
     CanonicalSpec.Collision(hexDigest, CanonicalSpec.CanonicalBytes(s).value, CanonicalSpec.CanonicalBytes(t).value))
  }

  lemma HashDeterminesSpec(hexDigest: Bytes.Blob -> string, s: Spec, t: Spec, hash: string)
    requires IsHashOf(hexDigest, s, hash) && IsHashOf(hexDigest, t, hash)
    ensures SameOrCollision(hexDigest, s, t)
  {
    hide CommandSpec.WellFormed, CanonicalSpec.CanonicalBytes;
    CanonicalSpec.HashSeparates(hexDigest, s, t);
  }

  // A binding determines the command: in any two runs that bind a key to the same hash at some time, whatever
  // is launched under that key is the same specification, unless a collision of the digest has been found.
  lemma BindingFixesCommand(n: Naming, hexDigest: Bytes.Blob -> string, k: string,
                            ss: seq<State>, steps: seq<Step>, i: nat, j: nat, a: nat,
                            ss': seq<State>, steps': seq<Step>, i': nat, j': nat, a': nat)
    requires Concrete(n, hexDigest)
    requires IsRun(n, ss, steps) && i < |ss| && j < |ss| && a < |ss[j].launched| && ss[j].launched[a].key == k
    requires IsRun(n, ss', steps') && i' < |ss'| && j' < |ss'| && a' < |ss'[j'].launched|
    requires ss'[j'].launched[a'].key == k
    requires k in ss[i].tables.bindings && k in ss'[i'].tables.bindings
    requires ss[i].tables.bindings[k] == ss'[i'].tables.bindings[k]
    ensures SameOrCollision(hexDigest, ss[j].launched[a].spec, ss'[j'].launched[a'].spec)
  {
    hide IsHashOf, SameOrCollision, IsRun;
    LaunchMatchesBinding(n, hexDigest, ss, steps, j, j, a);
    LaunchMatchesBinding(n, hexDigest, ss', steps', j', j', a');
    if i <= j { HistoryIsWriteOnce(n, ss, steps, i, j); } else { HistoryIsWriteOnce(n, ss, steps, j, i); }
    if i' <= j' { HistoryIsWriteOnce(n, ss', steps', i', j'); } else { HistoryIsWriteOnce(n, ss', steps', j', i'); }
    HashDeterminesSpec(hexDigest, ss[j].launched[a].spec, ss'[j'].launched[a'].spec, ss[i].tables.bindings[k]);
  }

  // ---- Publications ----

  // Every publication carries the exit code on durable record, so all publications for a key agree,
  // and all are about the same revision and contract tree.
  lemma PublicationsAgree(n: Naming, hexDigest: Bytes.Blob -> string, ss: seq<State>, steps: seq<Step>,
                          i: nat, a: nat, b: nat)
    requires IsRun(n, ss, steps) && Concrete(n, hexDigest) && i < |ss|
    requires a < |ss[i].published| && b < |ss[i].published|
    requires ss[i].published[a].key == ss[i].published[b].key
    ensures ss[i].published[a] == ss[i].published[b]
    ensures Recorded(ss[i].tables, ss[i].published[a].key, ss[i].published[a].exitCode)
  {
    hide IsKeyOf;
    InvAlways(n, ss, steps, i);
    var (x, y) := (ss[i].published[a], ss[i].published[b]);
    assert x in ss[i].published && y in ss[i].published;
    KeyDeterminesTarget(x.target, y.target, x.key);
  }

  lemma KeyDeterminesTarget(t: Target, u: Target, key: string)
    requires IsKeyOf(t, key) && IsKeyOf(u, key)
    ensures t == u
  {
    hide ExecutionIdentity.DeriveExecutionKey;
    ExecutionIdentity.DeriveInjective(ClientIdentity(t), ClientIdentity(u));
    PrefixCancels(t.contractTree, u.contractTree);
  }

  lemma PrefixCancels(u: string, v: string)
    requires CONTRACT_PREFIX + u == CONTRACT_PREFIX + v
    ensures u == v
  {
    assert (CONTRACT_PREFIX + u)[|CONTRACT_PREFIX|..] == u;
    assert (CONTRACT_PREFIX + v)[|CONTRACT_PREFIX|..] == v;
  }

  lemma KeyOfTarget(t: Target, key: string, key': string)
    requires IsKeyOf(t, key) && IsKeyOf(t, key')
    ensures key == key'
  {
  }

  // Publications about one target agree, whichever client runs made them.
  lemma TargetHasOneResult(n: Naming, hexDigest: Bytes.Blob -> string, ss: seq<State>, steps: seq<Step>,
                           i: nat, a: nat, b: nat)
    requires IsRun(n, ss, steps) && Concrete(n, hexDigest) && i < |ss|
    requires a < |ss[i].published| && b < |ss[i].published|
    requires ss[i].published[a].target == ss[i].published[b].target
    ensures ss[i].published[a].exitCode == ss[i].published[b].exitCode
  {
    hide IsHashOf, IsKeyOf, ValidTables, Recorded, EventOk, ProcOk, IsRun, ClientIdentity;
    InvAlways(n, ss, steps, i);
    var (x, y) := (ss[i].published[a], ss[i].published[b]);
    assert x in ss[i].published && y in ss[i].published;
    KeyOfTarget(x.target, x.key, y.key);
    PublicationsAgree(n, hexDigest, ss, steps, i, a, b);
  }
}
