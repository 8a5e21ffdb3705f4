/** The five relational tables of the authority store, the relations its validators check, and what
    each transaction does to them. */
module AuthorityTables {
  import opened Prelude

  const MAX_GENERATION: int := 0x7FFF_FFFF_FFFF_FFFF
  const MIN_SQLITE_INTEGER: int := -0x8000_0000_0000_0000
  const MAX_SQLITE_INTEGER: int := 0x7FFF_FFFF_FFFF_FFFF

  datatype LaunchState = Intent | Unknown | Terminal

  datatype Admission = Admission(scope: string, generation: int)

  datatype Launch = Launch(hash: string, scope: string, generation: int, state: LaunchState, exitCode: Option<int>)

  datatype Tables = Tables(
    generations: map<string, int>,
    keys: set<string>,
    bindings: map<string, string>,
    admissions: map<string, Admission>,
    launches: map<string, Launch>)

  const EMPTY := Tables(map[], {}, map[], map[], map[])

  datatype Error =
    | StorePoisoned | StoreClosed
    | InvalidExecutionKey | InvalidScope | InvalidGeneration | InvalidCommandSpecHash | InvalidExitCode
    | Malformed | GenerationOverflow
    | KeyNotRegistered | CommandSpecConflict | KeyNotCommandBound | CommandSpecHashMismatch
    | GenerationNotCurrent | AdmissionConflict | AdmissionMissing | AdmissionMismatch
    | AlreadyClaimed | WrongLaunchState
    | OperationFailed | RollbackFailed | CommitUncertain

  // ---- What the validators check ----

  predicate IsGeneration(g: int) { 0 < g <= MAX_GENERATION }

  predicate IsExitCode(c: int) { MIN_SQLITE_INTEGER <= c <= MAX_SQLITE_INTEGER }

  // The generation current for a scope is at least g.
  predicate Reaches(generations: map<string, int>, scope: string, g: int) {
    scope in generations && IsGeneration(generations[scope]) && g <= generations[scope]
  }

  predicate ExitCodeFits(l: Launch) {
    match l.state
    case Terminal => l.exitCode.Some? && IsExitCode(l.exitCode.value)
    case _ => l.exitCode.None?
  }

  predicate AdmissionRowValid(t: Tables, k: string, a: Admission) {
    && k != "" && a.scope != "" && IsGeneration(a.generation)
    && k in t.keys && k in t.bindings && Reaches(t.generations, a.scope, a.generation)
  }

  predicate LaunchRowValid(t: Tables, k: string, l: Launch) {
    && k != "" && l.hash != "" && l.scope != "" && IsGeneration(l.generation) && ExitCodeFits(l)
    && k in t.keys && Lookup(t.bindings, k) == Some(l.hash)
    && Lookup(t.admissions, k) == Some(Admission(l.scope, l.generation))
    && Reaches(t.generations, l.scope, l.generation)
  }

  predicate GenerationsValid(t: Tables) {
    forall s :: s in t.generations ==> s != "" && IsGeneration(t.generations[s])
  }

  predicate KeysValid(t: Tables) { "" !in t.keys }

  predicate BindingsValid(t: Tables) {
    forall k :: k in t.bindings ==> k != "" && t.bindings[k] != "" && k in t.keys
  }

  predicate AdmissionsValid(t: Tables) {
    forall k :: k in t.admissions ==> AdmissionRowValid(t, k, t.admissions[k])
  }

  predicate LaunchesValid(t: Tables) {
    forall k :: k in t.launches ==> LaunchRowValid(t, k, t.launches[k])
  }

  predicate ValidTables(t: Tables) {
    GenerationsValid(t) && KeysValid(t) && BindingsValid(t) && AdmissionsValid(t) && LaunchesValid(t)
  }

  // ---- Calls and replies ----

  datatype Call =
    | AcquireGeneration(scope: string)
    | RegisterKey(key: string)
    | BindCommand(key: string, hash: string)
    | Admit(key: string, scope: string, generation: int)
    | ClaimLaunch(key: string, scope: string, generation: int, hash: string)
    | MarkUnknown(key: string, hash: string)
    | RecordTerminal(key: string, hash: string, exitCode: int)
    | ReadGeneration(scope: string)
    | KeyExists(key: string)
    | ReadCommandHash(key: string)
    | ReadAdmission(key: string)
    | ReadLaunch(key: string)

  datatype Reply =
    | Acquired(generation: int)
    | Registered(created: bool)
    | Bound(created: bool)
    | Admitted(created: bool)
    | LaunchNow(launch: Launch)
    | GenerationIs(current: Option<int>)
    | Presence(present: bool)
    | HashIs(hash: Option<string>)
    | AdmissionIs(admission: Option<Admission>)
    | LaunchIs(prior: Option<Launch>)

  predicate IsRead(c: Call) {
    c.ReadGeneration? || c.KeyExists? || c.ReadCommandHash? || c.ReadAdmission? || c.ReadLaunch?
  }

  // The three transitions after whose failed COMMIT the launch authority counts as consumed.
  predicate IsConsequential(c: Call) {
    c.ClaimLaunch? || c.MarkUnknown? || c.RecordTerminal?
  }

  // The argument checks made before a transaction begins, in the order the source makes them.
  function ArgumentError(c: Call): Option<Error> {
    if !c.AcquireGeneration? && !c.ReadGeneration? && c.key == "" then Some(InvalidExecutionKey)
    else match c
      case AcquireGeneration(s) => if s == "" then Some(InvalidScope) else None
      case ReadGeneration(s) => if s == "" then Some(InvalidScope) else None
      case BindCommand(_, h) => if h == "" then Some(InvalidCommandSpecHash) else None
      case Admit(_, s, g) =>
        if s == "" then Some(InvalidScope) else if !IsGeneration(g) then Some(InvalidGeneration) else None
      case ClaimLaunch(_, s, g, h) =>
        if s == "" then Some(InvalidScope)
        else if !IsGeneration(g) then Some(InvalidGeneration)
        else if h == "" then Some(InvalidCommandSpecHash) else None
      case MarkUnknown(_, h) => if h == "" then Some(InvalidCommandSpecHash) else None
      case RecordTerminal(_, h, c) =>
        if h == "" then Some(InvalidCommandSpecHash) else if !IsExitCode(c) then Some(InvalidExitCode) else None
      case _ => None
  }

  // ---- Transactions: the working tables and the reply, or the error that rolls them back ----

  type Outcome = Result<(Tables, Reply), Error>

  function AcquireTx(t: Tables, scope: string): Outcome {
    match Lookup(t.generations, scope)
    case None => Ok((t.(generations := t.generations[scope := 1]), Acquired(1)))
    case Some(g) =>
      if g == MAX_GENERATION then Err(GenerationOverflow)
      else Ok((t.(generations := t.generations[scope := g + 1]), Acquired(g + 1)))
  }

  function RegisterTx(t: Tables, key: string): Outcome {
    if key in t.keys then Ok((t, Registered(false)))
    else Ok((t.(keys := t.keys + {key}), Registered(true)))
  }

  function BindTx(t: Tables, key: string, hash: string): Outcome {
    if key !in t.keys then Err(KeyNotRegistered)
    else match Lookup(t.bindings, key)
      case None => Ok((t.(bindings := t.bindings[key := hash]), Bound(true)))
      case Some(h) => if h != hash then Err(CommandSpecConflict) else Ok((t, Bound(false)))
  }

  function AdmitTx(t: Tables, key: string, scope: string, generation: int): Outcome {
    if key !in t.keys then Err(KeyNotRegistered)
    else if key !in t.bindings then Err(KeyNotCommandBound)
    else if Lookup(t.generations, scope) != Some(generation) then Err(GenerationNotCurrent)
    else match Lookup(t.admissions, key)
      case None => Ok((t.(admissions := t.admissions[key := Admission(scope, generation)]), Admitted(true)))
      case Some(a) =>
        if a != Admission(scope, generation) then Err(AdmissionConflict) else Ok((t, Admitted(false)))
  }

  function ClaimTx(t: Tables, key: string, scope: string, generation: int, hash: string): Outcome {
    if key !in t.keys then Err(KeyNotRegistered)
    else if key !in t.bindings then Err(KeyNotCommandBound)
    else if t.bindings[key] != hash then Err(CommandSpecHashMismatch)
    else if key !in t.admissions then Err(AdmissionMissing)
    else if t.admissions[key] != Admission(scope, generation) then Err(AdmissionMismatch)
    else if Lookup(t.generations, scope) != Some(generation) then Err(GenerationNotCurrent)
    else if key in t.launches then Err(AlreadyClaimed)
    else
      var l := Launch(hash, scope, generation, Intent, None);
      Ok((t.(launches := t.launches[key := l]), LaunchNow(l)))
  }

  // An UPDATE guarded by the row it expects; the source raises when it does not hit exactly one row.
  function AdvanceTx(t: Tables, key: string, hash: string, from: LaunchState, to: LaunchState,
                     code: Option<int>): Outcome
  {
    if key !in t.launches then Err(WrongLaunchState)
    else
      var l := t.launches[key];
      if l.hash != hash then Err(CommandSpecHashMismatch)
      else if l.state != from then Err(WrongLaunchState)
      else if l.exitCode.Some? then Err(Malformed)
      else
        var l' := l.(state := to, exitCode := code);
        Ok((t.(launches := t.launches[key := l']), LaunchNow(l')))
  }

  function Write(c: Call, t: Tables): Outcome
    requires !IsRead(c)
  {
    match c
    case AcquireGeneration(s) => AcquireTx(t, s)
    case RegisterKey(k) => RegisterTx(t, k)
    case BindCommand(k, h) => BindTx(t, k, h)
    case Admit(k, s, g) => AdmitTx(t, k, s, g)
    case ClaimLaunch(k, s, g, h) => ClaimTx(t, k, s, g, h)
    case MarkUnknown(k, h) => AdvanceTx(t, k, h, Intent, Unknown, None)
    case RecordTerminal(k, h, code) => AdvanceTx(t, k, h, Unknown, Terminal, Some(code))
  }

  function Read(c: Call, t: Tables): Result<Reply, Error>
    requires IsRead(c)
  {
    match c
    case ReadGeneration(s) => Ok(GenerationIs(Lookup(t.generations, s)))
    case KeyExists(k) => Ok(Presence(k in t.keys))
    case ReadCommandHash(k) => if k !in t.keys then Err(KeyNotRegistered) else Ok(HashIs(Lookup(t.bindings, k)))
    case ReadAdmission(k) => if k !in t.keys then Err(KeyNotRegistered) else Ok(AdmissionIs(Lookup(t.admissions, k)))
    case ReadLaunch(k) => if k !in t.keys then Err(KeyNotRegistered) else Ok(LaunchIs(Lookup(t.launches, k)))
  }

  // Every transaction validates the whole store before it looks at anything.
  function Transact(c: Call, t: Tables): Outcome {
    if !ValidTables(t) then Err(Malformed)
    else if IsRead(c) then
      match Read(c, t) { case Ok(reply) => Ok((t, reply)) case Err(e) => Err(e) }
    else Write(c, t)
  }

  // ---- What every transaction keeps ----

  // A row that passed validation passes it again once more has been recorded around it.
  lemma RowsSurvive(t: Tables, t': Tables)
    requires ValidTables(t) && GenerationsValid(t') && t.keys <= t'.keys
    requires SubMap(t.bindings, t'.bindings) && SubMap(t.admissions, t'.admissions)
    requires forall s :: s in t.generations ==> s in t'.generations && t.generations[s] <= t'.generations[s]
    ensures forall k :: k in t.admissions ==> AdmissionRowValid(t', k, t.admissions[k])
    ensures forall k :: k in t.launches ==> LaunchRowValid(t', k, t.launches[k])
  {
    forall k | k in t.admissions ensures AdmissionRowValid(t', k, t.admissions[k]) {
      assert AdmissionRowValid(t, k, t.admissions[k]);
    }
    forall k | k in t.launches ensures LaunchRowValid(t', k, t.launches[k]) {
      assert LaunchRowValid(t, k, t.launches[k]);
    }
  }

  lemma AcquireKeepsValid(t: Tables, s: string)
    requires ValidTables(t) && s != "" && AcquireTx(t, s).Ok?
    ensures ValidTables(AcquireTx(t, s).value.0)
  {
    RowsSurvive(t, AcquireTx(t, s).value.0);
  }

  lemma RegisterKeepsValid(t: Tables, k: string)
    requires ValidTables(t) && k != ""
    ensures ValidTables(RegisterTx(t, k).value.0)
  {
    RowsSurvive(t, RegisterTx(t, k).value.0);
  }

  lemma BindKeepsValid(t: Tables, k: string, h: string)
    requires ValidTables(t) && k != "" && h != "" && BindTx(t, k, h).Ok?
    ensures ValidTables(BindTx(t, k, h).value.0)
  {
    RowsSurvive(t, BindTx(t, k, h).value.0);
  }

  lemma AdmitKeepsValid(t: Tables, k: string, s: string, g: int)
    requires ValidTables(t) && k != "" && s != "" && AdmitTx(t, k, s, g).Ok?
    ensures ValidTables(AdmitTx(t, k, s, g).value.0)
  {
    var t' := AdmitTx(t, k, s, g).value.0;
    RowsSurvive(t, t');
    assert AdmissionRowValid(t', k, Admission(s, g));
  }

  lemma ClaimKeepsValid(t: Tables, k: string, s: string, g: int, h: string)
    requires ValidTables(t) && h != "" && ClaimTx(t, k, s, g, h).Ok?
    ensures ValidTables(ClaimTx(t, k, s, g, h).value.0)
  {
    var t' := ClaimTx(t, k, s, g, h).value.0;
    RowsSurvive(t, t');
    assert AdmissionRowValid(t, k, t.admissions[k]);
    assert LaunchRowValid(t', k, t'.launches[k]);
  }

  lemma AdvanceKeepsValid(t: Tables, k: string, h: string, from: LaunchState, to: LaunchState, code: Option<int>)
    requires ValidTables(t) && !from.Terminal?
    requires if to.Terminal? then code.Some? && IsExitCode(code.value) else code.None?
    ensures AdvanceTx(t, k, h, from, to, code) != Err(Malformed)
    ensures AdvanceTx(t, k, h, from, to, code).Ok? ==> ValidTables(AdvanceTx(t, k, h, from, to, code).value.0)
  {
    if k in t.launches {
      assert LaunchRowValid(t, k, t.launches[k]);
      if AdvanceTx(t, k, h, from, to, code).Ok? {
        var t' := AdvanceTx(t, k, h, from, to, code).value.0;
        RowsSurvive(t, t');
        assert LaunchRowValid(t', k, t'.launches[k]);
      }
    }
  }

  // Nothing the validators check is ever broken, so no call ever finds the store malformed and no
  // guarded update misses its row.
  lemma TransactKeepsValid(c: Call, t: Tables)
    requires ValidTables(t) && ArgumentError(c).None?
    ensures Transact(c, t) != Err(Malformed)
    ensures Transact(c, t).Ok? ==> ValidTables(Transact(c, t).value.0)
  {
    match c
    case AcquireGeneration(s) => if AcquireTx(t, s).Ok? { AcquireKeepsValid(t, s); }
    case RegisterKey(k) => RegisterKeepsValid(t, k);
    case BindCommand(k, h) => if BindTx(t, k, h).Ok? { BindKeepsValid(t, k, h); }
    case Admit(k, s, g) => if AdmitTx(t, k, s, g).Ok? { AdmitKeepsValid(t, k, s, g); }
    case ClaimLaunch(k, s, g, h) => if ClaimTx(t, k, s, g, h).Ok? { ClaimKeepsValid(t, k, s, g, h); }
    case MarkUnknown(k, h) => AdvanceKeepsValid(t, k, h, Intent, Unknown, None);
    case RecordTerminal(k, h, code) => AdvanceKeepsValid(t, k, h, Unknown, Terminal, Some(code));
    case _ =>
  }

  lemma EmptyIsValid()
    ensures ValidTables(EMPTY)
  {
  }

  predicate SubMap<V(==)>(m: map<string, V>, m': map<string, V>) {
    forall k :: k in m ==> k in m' && m'[k] == m[k]
  }

  function Rank(s: LaunchState): nat {
    match s case Intent => 0 case Unknown => 1 case Terminal => 2
  }

  // A launch row only ever moves forward, and a terminal one not at all.
  predicate LaunchEvolves(l: Launch, l': Launch) {
    && l'.hash == l.hash && l'.scope == l.scope && l'.generation == l.generation
    && Rank(l.state) <= Rank(l'.state)
    && (l.state == l'.state ==> l' == l)
  }

  // Durable history as it may look later: everything is kept, generations grow, launches move on.
  predicate Extends(t: Tables, t': Tables) {
    && (forall s :: s in t.generations ==> s in t'.generations && t.generations[s] <= t'.generations[s])
    && t.keys <= t'.keys
    && SubMap(t.bindings, t'.bindings)
    && SubMap(t.admissions, t'.admissions)
    && (forall k :: k in t.launches ==> k in t'.launches && LaunchEvolves(t.launches[k], t'.launches[k]))
  }

  lemma ExtendsReflexive(t: Tables)
    ensures Extends(t, t)
  {
  }

  lemma ExtendsTransitive(t: Tables, t': Tables, t'': Tables)
    requires Extends(t, t') && Extends(t', t'')
    ensures Extends(t, t'')
  {
  }

  lemma AdvanceExtends(t: Tables, k: string, h: string, from: LaunchState, to: LaunchState, code: Option<int>)
    requires Rank(from) < Rank(to) && AdvanceTx(t, k, h, from, to, code).Ok?
    ensures Extends(t, AdvanceTx(t, k, h, from, to, code).value.0)
  {
  }

  lemma AcquireExtends(t: Tables, s: string)
    ensures AcquireTx(t, s).Ok? ==> Extends(t, AcquireTx(t, s).value.0)
  {
  }

  lemma KeyAndBindingExtend(t: Tables, k: string, h: string)
    ensures Extends(t, RegisterTx(t, k).value.0)
    ensures BindTx(t, k, h).Ok? ==> Extends(t, BindTx(t, k, h).value.0)
  {
  }

  lemma AdmissionExtends(t: Tables, k: string, s: string, g: int)
    ensures AdmitTx(t, k, s, g).Ok? ==> Extends(t, AdmitTx(t, k, s, g).value.0)
  {
  }

  lemma ClaimExtends(t: Tables, k: string, s: string, g: int, h: string)
    ensures ClaimTx(t, k, s, g, h).Ok? ==> Extends(t, ClaimTx(t, k, s, g, h).value.0)
  {
  }

  lemma WriteExtends(c: Call, t: Tables)
    requires !IsRead(c) && Write(c, t).Ok?
    ensures Extends(t, Write(c, t).value.0)
  {
    hide Extends;
    match c
    case AcquireGeneration(s) => AcquireExtends(t, s);
    case RegisterKey(k) => KeyAndBindingExtend(t, k, "");
    case BindCommand(k, h) => KeyAndBindingExtend(t, k, h);
    case Admit(k, s, g) => AdmissionExtends(t, k, s, g);
    case ClaimLaunch(k, s, g, h) => ClaimExtends(t, k, s, g, h);
    case MarkUnknown(k, h) => AdvanceExtends(t, k, h, Intent, Unknown, None);
    case RecordTerminal(k, h, code) => AdvanceExtends(t, k, h, Unknown, Terminal, Some(code));
  }

  lemma TransactExtends(c: Call, t: Tables)
    requires Transact(c, t).Ok?
    ensures Extends(t, Transact(c, t).value.0)
  {
    if !IsRead(c) {
      WriteExtends(c, t);
    }
  }

  // When a claim goes through, said without naming its checks one by one: the key is bound to this
  // very command, admitted under this very generation, which is still the current one, and unclaimed.
  lemma ClaimSucceedsExactly(t: Tables, key: string, scope: string, generation: int, hash: string)
    requires ValidTables(t)
    ensures Transact(ClaimLaunch(key, scope, generation, hash), t).Ok? <==>
            && Lookup(t.bindings, key) == Some(hash)
            && Lookup(t.admissions, key) == Some(Admission(scope, generation))
            && Lookup(t.generations, scope) == Some(generation)
            && key !in t.launches
  {
    assert key in t.admissions ==> AdmissionRowValid(t, key, t.admissions[key]);
  }

  // A launch row spends its key: it can never be claimed again, and once terminal it is final.
  lemma SpentKey(t: Tables, c: Call)
    requires c.ClaimLaunch? || c.MarkUnknown? || c.RecordTerminal?
    requires c.key in t.launches
    requires c.ClaimLaunch? || t.launches[c.key].state.Terminal?
    ensures Transact(c, t).Err?
  {
  }

  // Claiming, marking and recording in this order always go through, and walk one row through its life.
  lemma LaunchLifeCycle(t: Tables, key: string, scope: string, generation: int, hash: string, code: int)
    requires ArgumentError(ClaimLaunch(key, scope, generation, hash)).None? && IsExitCode(code)
    requires ValidTables(t) && ClaimTx(t, key, scope, generation, hash).Ok?
    ensures
      var t1 := ClaimTx(t, key, scope, generation, hash).value.0;
      var r2 := Transact(MarkUnknown(key, hash), t1);
      r2.Ok? && var r3 := Transact(RecordTerminal(key, hash, code), r2.value.0);
      r3.Ok? && r3.value.0 == t.(launches := t.launches[key := Launch(hash, scope, generation, Terminal, Some(code))])
  {
    hide ValidTables;
    ClaimKeepsValid(t, key, scope, generation, hash);
    var t1 := ClaimTx(t, key, scope, generation, hash).value.0;
    AdvanceKeepsValid(t1, key, hash, Intent, Unknown, None);
    var t2 := AdvanceTx(t1, key, hash, Intent, Unknown, None).value.0;
    var t3 := AdvanceTx(t2, key, hash, Unknown, Terminal, Some(code)).value.0;
    assert t3.launches == t.launches[key := Launch(hash, scope, generation, Terminal, Some(code))];
  }
}
