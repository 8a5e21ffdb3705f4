/** The validators accept exactly the stores that the transactions can produce. */
module AuthorityReach {
  import opened Prelude
  import opened AuthorityTables
  import opened AuthorityOutcomes

  // The calls, made one after the other on a new store with arguments that pass the checks, all go through and
  // leave these tables.
  ghost predicate LeadsTo(calls: seq<Call>, t: Tables) {
    if calls == [] then t == EMPTY
    else
      var (init, c) := (calls[..|calls| - 1], calls[|calls| - 1]);
      ArgumentError(c).None? && exists t0 :: LeadsTo(init, t0) && Transact(c, t0).Ok? && Transact(c, t0).value.0 == t
  }

  ghost predicate Reachable(t: Tables) { exists calls :: LeadsTo(calls, t) }

  lemma {:induction false} ReachableIsValid(calls: seq<Call>, t: Tables)
    requires LeadsTo(calls, t)
    ensures ValidTables(t)
  {
    hide ValidTables, Transact, ArgumentError;
    if calls == [] {
      EmptyIsValid();
    } else {
      var (init, c) := (calls[..|calls| - 1], calls[|calls| - 1]);
      var t0 :| LeadsTo(init, t0) && Transact(c, t0).Ok? && Transact(c, t0).value.0 == t;
      ReachableIsValid(init, t0);
      TransactKeepsValid(c, t0);
    }
  }

  lemma OneCallMore(t0: Tables, c: Call, t: Tables)
    requires Reachable(t0) && ArgumentError(c).None? && Transact(c, t0).Ok? && Transact(c, t0).value.0 == t
    ensures Reachable(t)
  {
    hide Transact, ArgumentError;
    var calls :| LeadsTo(calls, t0);
    assert (calls + [c])[..|calls|] == calls;
    assert LeadsTo(calls + [c], t);
  }

  // ---- A measure that every call but a repetition makes grow ----

  ghost function Pick(m: map<string, int>): (s: string)
    requires m != map[]
    ensures s in m
  {
    var s :| s in m; s
  }

  ghost function Total(m: map<string, int>): int
    decreases |m|
  {
    if m == map[] then 0
    else
      var s := Pick(m);
      m[s] + Total(m - {s})
  }

  lemma {:induction false} TotalWithout(m: map<string, int>, s: string)
    requires s in m
    ensures Total(m) == m[s] + Total(m - {s})
    decreases |m|
  {
    var p := Pick(m);
    if p != s {
      TotalWithout(m - {p}, s);
      TotalWithout(m - {s}, p);
      assert m - {p} - {s} == m - {s} - {p};
    }
  }

  lemma {:induction false} TotalIsNatural(m: map<string, int>)
    requires forall s :: s in m ==> m[s] > 0
    ensures Total(m) >= 0
    decreases |m|
  {
    if m != map[] {
      TotalIsNatural(m - {Pick(m)});
    }
  }

  ghost function Moved(t: Tables): set<string> { set k | k in t.launches && !t.launches[k].state.Intent? }

  // The tables before a row of this call was written.
  function WithoutBinding(t: Tables, k: string): Tables { t.(bindings := t.bindings - {k}) }

  function WithoutAdmission(t: Tables, k: string): Tables { t.(admissions := t.admissions - {k}) }

  function WithoutLaunch(t: Tables, k: string): Tables { t.(launches := t.launches - {k}) }

  function BackToIntent(t: Tables, k: string): Tables
    requires k in t.launches
  {
    t.(launches := t.launches[k := t.launches[k].(state := Intent, exitCode := None)])
  }

  function BeforeGrant(t: Tables, s: string): Tables
    requires s in t.generations
  {
    t.(generations := if t.generations[s] == 1 then t.generations - {s}
                      else t.generations[s := t.generations[s] - 1])
  }

  // ---- Taking back the last call ----

  lemma LaunchRowsStand(t: Tables, t': Tables)
    requires ValidTables(t) && t'.keys == t.keys && t'.bindings == t.bindings
    requires t'.admissions == t.admissions && t'.generations == t.generations
    requires forall k :: k in t'.launches ==>
      && k in t.launches
      && (t'.launches[k] == t.launches[k] || t'.launches[k] == t.launches[k].(state := Intent, exitCode := None))
    ensures ValidTables(t')
  {
    forall k | k in t'.admissions ensures AdmissionRowValid(t', k, t'.admissions[k]) {
      assert AdmissionRowValid(t, k, t.admissions[k]);
    }
    forall k | k in t'.launches ensures LaunchRowValid(t', k, t'.launches[k]) {
      assert LaunchRowValid(t, k, t.launches[k]);
    }
  }

  lemma MarkForward(t0: Tables, k: string) returns (t1: Tables)
    requires ValidTables(t0) && Reachable(t0) && k in t0.launches && t0.launches[k].state.Intent?
    ensures ValidTables(t1) && Reachable(t1)
    ensures t1 == t0.(launches := t0.launches[k := t0.launches[k].(state := Unknown)])
  {
    var l := t0.launches[k];
    assert LaunchRowValid(t0, k, l);
    var c := MarkUnknown(k, l.hash);
    hide ValidTables, Reachable, Transact;
    MarkSucceedsExactly(t0, k, l.hash);
    TransactKeepsValid(c, t0);
    t1 := Transact(c, t0).value.0;
    assert t1.launches == t0.launches[k := l.(state := Unknown)];
    OneCallMore(t0, c, t1);
  }

  lemma RecordForward(t1: Tables, k: string, code: int) returns (t2: Tables)
    requires ValidTables(t1) && Reachable(t1) && k in t1.launches && t1.launches[k].state.Unknown? && IsExitCode(code)
    ensures Reachable(t2)
    ensures t2 == t1.(launches := t1.launches[k := t1.launches[k].(state := Terminal, exitCode := Some(code))])
  {
    var l := t1.launches[k];
    assert LaunchRowValid(t1, k, l);
    var c := RecordTerminal(k, l.hash, code);
    hide ValidTables, Reachable, Transact;
    assert ArgumentError(c).None?;
    RecordSucceedsExactly(t1, k, l.hash, code);
    hide IsExitCode, ArgumentError;
    t2 := Transact(c, t1).value.0;
    assert t2.launches == t1.launches[k := l.(state := Terminal, exitCode := Some(code))];
    OneCallMore(t1, c, t2);
  }

  lemma CodeOfRow(t: Tables, k: string)
    requires ValidTables(t) && k in t.launches
    ensures
      var l := t.launches[k];
      if l.state.Terminal? then l.exitCode.Some? && IsExitCode(l.exitCode.value) else l.exitCode.None?
  {
    assert LaunchRowValid(t, k, t.launches[k]);
  }

  // Marking and recording bring a launch row back to where it was.
  lemma MovesForward(t: Tables, k: string)
    requires ValidTables(t) && k in t.launches && !t.launches[k].state.Intent?
    requires ValidTables(BackToIntent(t, k)) && Reachable(BackToIntent(t, k))
    ensures Reachable(t)
  {
    hide ValidTables, Reachable, IsExitCode;
    CodeOfRow(t, k);
    var l := t.launches[k];
    var t1 := MarkForward(BackToIntent(t, k), k);
    if l.state.Unknown? {
      assert t1.launches == t.launches;
    } else {
      var t2 := RecordForward(t1, k, l.exitCode.value);
      assert t2.launches == t.launches;
    }
  }

  lemma LaunchesAreBound(t: Tables, k: string)
    requires ValidTables(t) && k in t.launches
    ensures
      var l := t.launches[k];
      && ArgumentError(ClaimLaunch(k, l.scope, l.generation, l.hash)).None?
      && Lookup(t.bindings, k) == Some(l.hash) && Lookup(t.admissions, k) == Some(Admission(l.scope, l.generation))
      && (l.state.Intent? ==> l.exitCode.None?)
  {
    assert LaunchRowValid(t, k, t.launches[k]);
  }

  lemma ClaimForward(t: Tables, k: string)
    requires ValidTables(t) && k in t.launches && t.launches[k].state.Intent?
    requires Lookup(t.generations, t.launches[k].scope) == Some(t.launches[k].generation)
    requires ValidTables(WithoutLaunch(t, k)) && Reachable(WithoutLaunch(t, k))
    ensures Reachable(t)
  {
    hide ValidTables, Reachable, Transact, ArgumentError;
    var (t0, l) := (WithoutLaunch(t, k), t.launches[k]);
    LaunchesAreBound(t, k);
    var c := ClaimLaunch(k, l.scope, l.generation, l.hash);
    ClaimSucceedsExactly(t0, k, l.scope, l.generation, l.hash);
    var t1 := Transact(c, t0).value.0;
    assert t1 == t by {
      ClaimOutcomeExactly(t0, k, l.scope, l.generation, l.hash);
      assert t1.launches == t.launches;
    }
    OneCallMore(t0, c, t1);
  }

  lemma AdmissionsStand(t: Tables, k: string)
    requires ValidTables(t) && k !in t.launches
    ensures ValidTables(WithoutAdmission(t, k))
  {
    var t' := WithoutAdmission(t, k);
    forall j | j in t'.admissions ensures AdmissionRowValid(t', j, t'.admissions[j]) {
      assert AdmissionRowValid(t, j, t.admissions[j]);
    }
    forall j | j in t'.launches ensures LaunchRowValid(t', j, t'.launches[j]) {
      assert LaunchRowValid(t, j, t.launches[j]);
    }
  }

  lemma AdmitForward(t: Tables, k: string)
    requires ValidTables(t) && k in t.admissions && k !in t.launches
    requires Lookup(t.generations, t.admissions[k].scope) == Some(t.admissions[k].generation)
    requires ValidTables(WithoutAdmission(t, k)) && Reachable(WithoutAdmission(t, k))
    ensures Reachable(t)
  {
    var (t0, a) := (WithoutAdmission(t, k), t.admissions[k]);
    assert AdmissionRowValid(t, k, a);
    AdmitSucceedsExactly(t0, k, a.scope, a.generation);
    var c := Admit(k, a.scope, a.generation);
    var t1 := Transact(c, t0).value.0;
    hide ValidTables, Reachable, Transact;
    assert t1.admissions == t.admissions;
    OneCallMore(t0, c, t1);
  }

  // No row depends on the current generation of this scope.
  ghost predicate Unused(t: Tables, s: string) {
    && s in t.generations
    && (forall k :: k in t.admissions && t.admissions[k].scope == s ==> t.admissions[k].generation < t.generations[s])
    && (forall k :: k in t.launches && t.launches[k].scope == s ==> t.launches[k].generation < t.generations[s])
  }

  lemma GrantTakenBack(t: Tables, s: string)
    requires ValidTables(t) && Unused(t, s)
    ensures ValidTables(BeforeGrant(t, s))
  {
    var t' := BeforeGrant(t, s);
    forall k | k in t'.admissions ensures AdmissionRowValid(t', k, t'.admissions[k]) {
      assert AdmissionRowValid(t, k, t.admissions[k]);
    }
    forall k | k in t'.launches ensures LaunchRowValid(t', k, t'.launches[k]) {
      assert LaunchRowValid(t, k, t.launches[k]);
    }
  }

  lemma GrantForward(t: Tables, s: string)
    requires ValidTables(t) && s in t.generations
    requires ValidTables(BeforeGrant(t, s)) && Reachable(BeforeGrant(t, s))
    ensures Reachable(t)
  {
    var t0 := BeforeGrant(t, s);
    AcquireSucceedsExactly(t0, s);
    var c := AcquireGeneration(s);
    var t1 := Transact(c, t0).value.0;
    hide Reachable, Transact;
    assert t1.generations == t.generations;
    OneCallMore(t0, c, t1);
  }

  lemma GrantCounts(t: Tables, s: string)
    requires ValidTables(t) && s in t.generations
    ensures 0 <= Total(BeforeGrant(t, s).generations) < Total(t.generations)
  {
    var m := BeforeGrant(t, s).generations;
    TotalWithout(t.generations, s);
    TotalIsNatural(m);
    if t.generations[s] > 1 {
      TotalWithout(m, s);
      assert m - {s} == t.generations - {s};
    }
  }

  lemma BindForward(t: Tables, k: string)
    requires ValidTables(t) && k in t.bindings
    requires ValidTables(WithoutBinding(t, k)) && Reachable(WithoutBinding(t, k))
    ensures Reachable(t)
  {
    var (t0, h) := (WithoutBinding(t, k), t.bindings[k]);
    BindSucceedsExactly(t0, k, h);
    var t1 := Transact(BindCommand(k, h), t0).value.0;
    hide Reachable, Transact;
    assert t1.bindings == t.bindings;
    OneCallMore(t0, BindCommand(k, h), t1);
  }

  lemma RegisterForward(t: Tables, k: string)
    requires ValidTables(t) && k in t.keys
    requires ValidTables(t.(keys := t.keys - {k})) && Reachable(t.(keys := t.keys - {k}))
    ensures Reachable(t)
  {
    var t0 := t.(keys := t.keys - {k});
    RegisterSucceeds(t0, k);
    var t1 := Transact(RegisterKey(k), t0).value.0;
    hide Reachable, Transact;
    assert t1.keys == t.keys;
    OneCallMore(t0, RegisterKey(k), t1);
  }

  lemma RowsHaveScopes(t: Tables)
    requires ValidTables(t)
    ensures forall k :: k in t.admissions ==> t.admissions[k].scope in t.generations
    ensures forall k :: k in t.launches ==> t.launches[k].scope in t.generations
  {
    forall k | k in t.admissions ensures t.admissions[k].scope in t.generations {
      assert AdmissionRowValid(t, k, t.admissions[k]);
    }
    forall k | k in t.launches ensures t.launches[k].scope in t.generations {
      assert LaunchRowValid(t, k, t.launches[k]);
    }
  }

  lemma NothingLeft(t: Tables)
    requires ValidTables(t) && t.generations == map[]
    ensures t.admissions == map[] && t.launches == map[]
  {
    RowsHaveScopes(t);
    hide ValidTables;
  }

  // When no launch and no admission is of a current generation, no current generation is used.
  lemma CurrentIsUnused(t: Tables, s: string)
    requires ValidTables(t) && s in t.generations
    requires forall k :: k in t.admissions ==>
      Lookup(t.generations, t.admissions[k].scope) != Some(t.admissions[k].generation)
    ensures Unused(t, s)
  {
    forall k | k in t.admissions && t.admissions[k].scope == s ensures t.admissions[k].generation < t.generations[s] {
      assert AdmissionRowValid(t, k, t.admissions[k]);
    }
    forall k | k in t.launches && t.launches[k].scope == s ensures t.launches[k].generation < t.generations[s] {
      assert LaunchRowValid(t, k, t.launches[k]);
      assert t.admissions[k] == Admission(s, t.launches[k].generation);
    }
  }

  lemma LaunchIsOfAdmission(t: Tables, k: string)
    requires ValidTables(t) && k in t.launches
    ensures k in t.admissions && t.admissions[k] == Admission(t.launches[k].scope, t.launches[k].generation)
  {
    assert LaunchRowValid(t, k, t.launches[k]);
  }

  // A predecessor has fewer rows, the later ones counting first.
  lemma IntentIsSmaller(t: Tables, k: string)
    requires k in Moved(t)
    ensures BackToIntent(t, k).generations == t.generations && |Moved(BackToIntent(t, k))| < |Moved(t)|
  {
    assert Moved(BackToIntent(t, k)) == Moved(t) - {k};
  }

  lemma WithoutLaunchIsSmaller(t: Tables, k: string)
    requires k in t.launches && k !in Moved(t)
    ensures WithoutLaunch(t, k).generations == t.generations && Moved(WithoutLaunch(t, k)) == Moved(t)
    ensures |WithoutLaunch(t, k).launches| < |t.launches|
  {
    assert WithoutLaunch(t, k).launches.Keys == t.launches.Keys - {k};
    assert |t.launches.Keys| == |t.launches|;
  }

  lemma WithoutAdmissionIsSmaller(t: Tables, k: string)
    requires k in t.admissions
    ensures
      var t0 := WithoutAdmission(t, k);
      t0.generations == t.generations && t0.launches == t.launches && |t0.admissions| < |t.admissions|
    ensures Moved(WithoutAdmission(t, k)) == Moved(t)
  {
    assert WithoutAdmission(t, k).admissions.Keys == t.admissions.Keys - {k};
  }

  lemma LaunchTakenBack(t: Tables, k: string)
    requires ValidTables(t) && k in t.launches
    ensures ValidTables(BackToIntent(t, k)) && ValidTables(WithoutLaunch(t, k))
  {
    hide ValidTables;
    LaunchRowsStand(t, BackToIntent(t, k));
    LaunchRowsStand(t, WithoutLaunch(t, k));
  }

  // Every valid store is what some calls on a new store come to: the last call is taken back, launches that have
  // moved on first, then those of a current generation, admissions of a current generation, grants, bindings and
  // keys.
  lemma {:induction false} ValidIsReachable(t: Tables)
    requires ValidTables(t)
    ensures Reachable(t)
    decreases Total(t.generations), |Moved(t)|, |t.launches|, |t.admissions|, |t.bindings|, |t.keys|
  {
    GenerationsArePositive(t);
    TotalIsNatural(t.generations);
    hide ValidTables, Reachable, BackToIntent, WithoutLaunch, WithoutAdmission, BeforeGrant, Total;
    if k :| k in Moved(t) {
      LaunchTakenBack(t, k);
      IntentIsSmaller(t, k);
      ValidIsReachable(BackToIntent(t, k));
      MovesForward(t, k);
    } else if k :| k in t.launches && Lookup(t.generations, t.launches[k].scope) == Some(t.launches[k].generation) {
      assert k !in Moved(t);
      LaunchTakenBack(t, k);
      WithoutLaunchIsSmaller(t, k);
      ValidIsReachable(WithoutLaunch(t, k));
      ClaimForward(t, k);
    } else if k :| k in t.admissions &&
                   Lookup(t.generations, t.admissions[k].scope) == Some(t.admissions[k].generation) {
      if k in t.launches {
        LaunchIsOfAdmission(t, k);
        assert false;
      }
      AdmissionsStand(t, k);
      WithoutAdmissionIsSmaller(t, k);
      ValidIsReachable(WithoutAdmission(t, k));
      AdmitForward(t, k);
    } else if s :| s in t.generations {
      CurrentIsUnused(t, s);
      GrantTakenBack(t, s);
      GrantCounts(t, s);
      ValidIsReachable(BeforeGrant(t, s));
      GrantForward(t, s);
    } else {
      RegistrationsAreReachable(t);
    }
  }

  lemma GenerationsArePositive(t: Tables)
    requires ValidTables(t)
    ensures forall s :: s in t.generations ==> t.generations[s] > 0
  {
  }

  // A store without generations has nothing but keys and bindings.
  lemma {:induction false} RegistrationsAreReachable(t: Tables)
    requires ValidTables(t) && t.generations == map[]
    ensures Reachable(t)
    decreases |t.bindings|, |t.keys|
  {
    hide Reachable;
    NothingLeft(t);
    if k :| k in t.bindings {
      RegistrationsAreReachable(WithoutBinding(t, k));
      BindForward(t, k);
    } else if k :| k in t.keys {
      assert t.bindings == map[];
      RegistrationsAreReachable(t.(keys := t.keys - {k}));
      RegisterForward(t, k);
    } else {
      assert t.bindings == map[] && t.keys == {} && t.generations == map[];
      NewIsReachable();
    }
  }

  lemma NewIsReachable()
    ensures Reachable(EMPTY)
  {
    assert LeadsTo([], EMPTY);
  }

  // What the validators accept is what a store that only ever saw these transactions can look like, no more and
  // no less.
  lemma ValidExactlyReachable(t: Tables)
    ensures ValidTables(t) <==> Reachable(t)
  {
    if ValidTables(t) {
      ValidIsReachable(t);
    }
    if calls :| LeadsTo(calls, t) {
      ReachableIsValid(calls, t);
    }
  }
}
