/** The loops of the source: construction checks, snapshotting and canonical encoding, each proved
    against the function that specifies it. */
module LocalCommandSpecs {
  import opened Prelude
  import opened Bytes
  import opened CommandSpec
  import opened CanonicalSpec
  import Utf8

  // An error found in a prefix is the error of the whole.
  lemma {:induction false} ArgvErrorStays(argv: seq<string>, i: nat)
    requires i <= |argv| && ArgvError(argv[..i]).Some?
    ensures ArgvError(argv) == ArgvError(argv[..i])
  {
    if i < |argv| {
      assert argv[..|argv| - 1][..i] == argv[..i];
      ArgvErrorStays(argv[..|argv| - 1], i);
    } else {
      assert argv[..i] == argv;
    }
  }

  lemma {:induction false} ItemsErrorStays(items: seq<Item>, i: nat)
    requires i <= |items| && ItemsError(items[..i]).Some?
    ensures ItemsError(items) == ItemsError(items[..i])
  {
    if i < |items| {
      assert items[..|items| - 1][..i] == items[..i];
      ItemsErrorStays(items[..|items| - 1], i);
    } else {
      assert items[..i] == items;
    }
  }

  lemma {:induction false} EnvironmentErrorStays(env: seq<Item>, i: nat)
    requires i <= |env| && EnvironmentError(env[..i]).Some?
    ensures EnvironmentError(env) == EnvironmentError(env[..i])
  {
    if i < |env| {
      assert env[..|env| - 1][..i] == env[..i];
      EnvironmentErrorStays(env[..|env| - 1], i);
    } else {
      assert env[..i] == env;
    }
  }

  lemma NamesGrow(items: seq<Item>, i: nat)
    requires i < |items|
    ensures Names(items[..i + 1]) == Names(items[..i]) + {items[i].0}
  {
    assert items[..i + 1][..i] == items[..i];
  }

  method CheckArgv(argv: seq<string>) returns (e: Option<SpecError>)
    ensures e == if argv == [] then Some(EmptyArgv) else ArgvError(argv)
  {
    if argv == [] {
      return Some(EmptyArgv);
    }
    for i := 0 to |argv|
      invariant ArgvError(argv[..i]).None?
    {
      e := TextError(argv[i], true);
      assert argv[..i + 1][..i] == argv[..i];
      if e.Some? {
        ArgvErrorStays(argv, i + 1);
        return;
      }
    }
    assert argv[..|argv|] == argv;
    return None;
  }

  lemma EnvironmentGrows(env: seq<Item>, i: nat)
    requires i < |env| && EnvironmentError(env[..i]).None?
    ensures EnvironmentError(env[..i + 1]) == EntryError(Names(env[..i]), LastNameBytes(env[..i]), env[i])
    ensures LastNameBytes(env[..i + 1]) == Some(Utf8.Encode(env[i].0))
  {
    assert env[..i + 1][..i] == env[..i];
  }

  method CheckEnvironment(env: seq<Item>) returns (e: Option<SpecError>)
    ensures e == EnvironmentError(env)
  {
    var previous: Option<Blob> := None;
    var seen: set<string> := {};
    for i := 0 to |env|
      invariant EnvironmentError(env[..i]).None?
      invariant seen == Names(env[..i])
      invariant previous == LastNameBytes(env[..i])
    {
      EnvironmentGrows(env, i);
      NamesGrow(env, i);
      e := ItemError(env[i]);
      if e.None? {
        if env[i].0 in seen {
          e := Some(DuplicateName);
        } else if previous.Some? && !Less(previous.value, Utf8.Encode(env[i].0)) {
          e := Some(UnsortedNames);
        }
      }
      if e.Some? {
        EnvironmentErrorStays(env, i + 1);
        return;
      }
      previous := Some(Utf8.Encode(env[i].0));
      seen := seen + {env[i].0};
    }
    assert env[..|env|] == env;
    return None;
  }

  method PostInit(isAbsolute: string -> bool, s: Spec) returns (e: Option<SpecError>)
    ensures e == PostInitError(isAbsolute, s)
    ensures e.None? <==> WellFormed(s) && isAbsolute(s.executable) && isAbsolute(s.workingDirectory)
  {
    PostInitMeans(isAbsolute, s);
    e := PathError(isAbsolute, s.executable);
    if e.Some? { return; }
    e := CheckArgv(s.argv);
    if e.Some? { return; }
    e := PathError(isAbsolute, s.workingDirectory);
    if e.Some? { return; }
    e := CheckEnvironment(s.environment);
    if e.Some? { return; }
    e := TimeoutError(s.timeout);
  }

  method CollectItems(items: seq<Item>) returns (r: Result<seq<Item>, SpecError>)
    ensures r == match ItemsError(items) { case Some(e) => Err(e) case None => Ok(items) }
  {
    var validated: seq<Item> := [];
    var seen: set<string> := {};
    for i := 0 to |items|
      invariant ItemsError(items[..i]).None?
      invariant seen == Names(items[..i]) && validated == items[..i]
    {
      assert items[..i + 1][..i] == items[..i];
      NamesGrow(items, i);
      var e := ItemError(items[i]);
      if e.None? && items[i].0 in seen {
        e := Some(DuplicateName);
      }
      if e.Some? {
        ItemsErrorStays(items, i + 1);
        return Err(e.value);
      }
      seen := seen + {items[i].0};
      validated := validated + [items[i]];
    }
    assert validated == items;
    return Ok(validated);
  }

  method TakeSnapshot(isAbsolute: string -> bool, executable: string, argv: seq<string>, workingDirectory: string,
                      items: seq<Item>, timeout: int) returns (r: Result<Spec, SpecError>)
    ensures r == Snapshot(isAbsolute, executable, argv, workingDirectory, items, timeout)
  {
    var collected := CollectItems(items);
    if collected.Err? {
      return Err(collected.error);
    }
    var s := Spec(executable, argv, workingDirectory, SortByName(collected.value), timeout);
    var e := PostInit(isAbsolute, s);
    if e.Some? {
      return Err(e.value);
    }
    return Ok(s);
  }

  method EncodeArgv(argv: seq<string>) returns (b: Blob)
    ensures b == Texts(argv)
  {
    b := [];
    for i := 0 to |argv|
      invariant b == Texts(argv[..i])
    {
      assert argv[..i + 1][..i] == argv[..i];
      b := b + Text(argv[i]);
    }
    assert argv[..|argv|] == argv;
  }

  method EncodeEnvironment(env: seq<Item>) returns (b: Blob)
    ensures b == Items(env)
  {
    b := [];
    for i := 0 to |env|
      invariant b == Items(env[..i])
    {
      assert env[..i + 1][..i] == env[..i];
      b := b + Text(env[i].0);
      b := b + Text(env[i].1);
    }
    assert env[..|env|] == env;
  }

  method CanonicalCommandSpecBytes(s: Spec) returns (r: Result<Blob, SpecError>)
    requires WellFormed(s)
    ensures r == CanonicalBytes(s)
    ensures r.Ok? ==> DecodeSpec(r.value) == Some((s, []))
  {
    var l := V1();
    var payload := l.domain;
    payload := payload + (l.executable + Text(s.executable));
    if |s.argv| > MAX_FRAMED {
      return Err(CountTooLong);
    }
    var arguments := EncodeArgv(s.argv);
    payload := payload + (l.argv + U64(|s.argv|) + arguments);
    payload := payload + (l.directory + Text(s.workingDirectory));
    if |s.environment| > MAX_FRAMED {
      return Err(CountTooLong);
    }
    var environment := EncodeEnvironment(s.environment);
    payload := payload + (l.environment + U64(|s.environment|) + environment);
    payload := payload + (l.timeout + U64(s.timeout));
    assert payload == Payload(l, s);
    Suffix(payload, payload);
    CanonicalDecodesAs(s, payload, []);
    return Ok(payload);
  }
}
