/** Local command specifications: validation, snapshots of caller-owned containers, canonical bytes and hash. */
module CommandSpec {
  import opened Prelude
  import opened Bytes
  import opened Sorting
  import Utf8

  type Item = (string, string)

  datatype Spec = Spec(
    executable: string,
    argv: seq<string>,
    workingDirectory: string,
    environment: seq<Item>,
    timeout: int)

  datatype SpecError =
    | EmptyText | ContainsNul | TextTooLong
    | NotAbsolute | EmptyArgv | NameHasEquals | DuplicateName | UnsortedNames | BadTimeout
    | CountTooLong

  // ---- Validation ----

  // The first check a text fails; its bytes are Utf8.Encode(value) otherwise.
  function TextError(value: string, allowEmpty: bool): Option<SpecError> {
    if value == "" && !allowEmpty then Some(EmptyText)
    else if '\0' in value then Some(ContainsNul)
    else if |Utf8.Encode(value)| > MAX_FRAMED then Some(TextTooLong)
    else None
  }

  function ItemError(item: Item): Option<SpecError> {
    match TextError(item.0, false)
    case Some(e) => Some(e)
    case None => if '=' in item.0 then Some(NameHasEquals) else TextError(item.1, true)
  }

  function Names(items: seq<Item>): set<string> {
    if items == [] then {} else Names(items[..|items| - 1]) + {items[|items| - 1].0}
  }

  // snapshot's loop over the mapping's items.
  function ItemsError(items: seq<Item>): Option<SpecError> {
    if items == [] then None
    else
      var n := |items| - 1;
      match ItemsError(items[..n])
      case Some(e) => Some(e)
      case None =>
        match ItemError(items[n])
        case Some(e) => Some(e)
        case None => if items[n].0 in Names(items[..n]) then Some(DuplicateName) else None
  }

  function ArgvError(argv: seq<string>): Option<SpecError> {
    if argv == [] then None
    else match ArgvError(argv[..|argv| - 1])
      case Some(e) => Some(e)
      case None => TextError(argv[|argv| - 1], true)
  }

  // Byte strings compare lexicographically.
  predicate Less(a: Blob, b: Blob) {
    b != [] && (a == [] || a[0] < b[0] || (a[0] == b[0] && Less(a[1..], b[1..])))
  }

  // What is wrong with one environment entry, given the names and the name bytes before it.
  function EntryError(seen: set<string>, previous: Option<Blob>, item: Item): Option<SpecError> {
    match ItemError(item)
    case Some(e) => Some(e)
    case None =>
      if item.0 in seen then Some(DuplicateName)
      else if previous.Some? && !Less(previous.value, Utf8.Encode(item.0)) then Some(UnsortedNames)
      else None
  }

  function LastNameBytes(env: seq<Item>): Option<Blob> {
    if env == [] then None else Some(Utf8.Encode(env[|env| - 1].0))
  }

  // __post_init__'s loop over the environment, which in addition insists on the order.
  function EnvironmentError(env: seq<Item>): Option<SpecError> {
    if env == [] then None
    else
      var init := env[..|env| - 1];
      match EnvironmentError(init)
      case Some(e) => Some(e)
      case None => EntryError(Names(init), LastNameBytes(init), env[|env| - 1])
  }

  // The path rules of the platform are a parameter.
  function PathError(isAbsolute: string -> bool, path: string): Option<SpecError> {
    match TextError(path, false)
    case Some(e) => Some(e)
    case None => if isAbsolute(path) then None else Some(NotAbsolute)
  }

  function TimeoutError(timeout: int): Option<SpecError> {
    if 0 < timeout <= MAX_FRAMED then None else Some(BadTimeout)
  }

  function First(e: Option<SpecError>, f: Option<SpecError>): Option<SpecError> {
    if e.Some? then e else f
  }

  function PostInitError(isAbsolute: string -> bool, s: Spec): Option<SpecError> {
    First(PathError(isAbsolute, s.executable),
    First(if s.argv == [] then Some(EmptyArgv) else ArgvError(s.argv),
    First(PathError(isAbsolute, s.workingDirectory),
    First(EnvironmentError(s.environment),
          TimeoutError(s.timeout)))))
  }

  // ---- What validation means ----

  predicate IsText(value: string) { '\0' !in value && |Utf8.Encode(value)| <= MAX_FRAMED }

  predicate IsItem(item: Item) { item.0 != "" && IsText(item.0) && '=' !in item.0 && IsText(item.1) }

  predicate StrictlySorted(env: seq<Item>) {
    forall i, j :: 0 <= i < j < |env| ==> Less(Utf8.Encode(env[i].0), Utf8.Encode(env[j].0))
  }

  predicate DistinctNames(items: seq<Item>) {
    forall i, j :: 0 <= i < j < |items| ==> items[i].0 != items[j].0
  }

  // What a specification that exists looks like, the path rules of the platform apart.
  predicate WellFormed(s: Spec) {
    && s.executable != "" && IsText(s.executable)
    && s.argv != [] && (forall a :: a in s.argv ==> IsText(a))
    && s.workingDirectory != "" && IsText(s.workingDirectory)
    && (forall item :: item in s.environment ==> IsItem(item)) && StrictlySorted(s.environment)
    && 0 < s.timeout <= MAX_FRAMED
  }

  lemma {:induction false} LessIrreflexive(a: Blob)
    ensures !Less(a, a)
  {
    if a != [] { LessIrreflexive(a[1..]); }
  }

  lemma {:induction false} LessTransitive(a: Blob, b: Blob, c: Blob)
    requires Less(a, b) && Less(b, c)
    ensures Less(a, c)
  {
    if a != [] && a[0] == b[0] == c[0] { LessTransitive(a[1..], b[1..], c[1..]); }
  }

  lemma {:induction false} LessTotal(a: Blob, b: Blob)
    ensures a == b || Less(a, b) || Less(b, a)
  {
    if a != [] && b != [] && a[0] == b[0] {
      LessTotal(a[1..], b[1..]);
      assert a == [a[0]] + a[1..] && b == [b[0]] + b[1..];
    }
  }

  lemma {:induction false} NamesMean(items: seq<Item>, name: string)
    ensures name in Names(items) <==> exists i :: 0 <= i < |items| && items[i].0 == name
  {
    if items != [] {
      NamesMean(items[..|items| - 1], name);
    }
  }

  lemma DistinctSplits(items: seq<Item>, n: nat)
    requires |items| == n + 1
    ensures DistinctNames(items) <==> DistinctNames(items[..n]) && items[n].0 !in Names(items[..n])
  {
    NamesMean(items[..n], items[n].0);
  }

  lemma ItemErrorMeans(item: Item)
    ensures ItemError(item).None? <==> IsItem(item)
  {
  }

  lemma {:induction false} ItemsErrorMeans(items: seq<Item>)
    ensures ItemsError(items).None? <==> (forall item :: item in items ==> IsItem(item)) && DistinctNames(items)
  {
    hide ItemError, IsItem, DistinctNames, Names;
    if items == [] {
      NothingRepeated();
    } else {
      var n := |items| - 1;
      ItemsErrorMeans(items[..n]);
      DistinctSplits(items, n);
      assert forall item :: item in items <==> item in items[..n] || item == items[n];
      ItemErrorMeans(items[n]);
    }
  }

  lemma NothingRepeated()
    ensures DistinctNames([])
  {
  }

  lemma {:induction false} ArgvErrorMeans(argv: seq<string>)
    ensures ArgvError(argv).None? <==> forall a :: a in argv ==> IsText(a)
  {
    if argv != [] {
      var n := |argv| - 1;
      ArgvErrorMeans(argv[..n]);
      assert forall a :: a in argv <==> a in argv[..n] || a == argv[n];
      if ArgvError(argv[..n]).None? {
        assert TextError(argv[n], true).None? <==> IsText(argv[n]);
      } else {
        assert ArgvError(argv).Some?;
      }
    }
  }

  lemma ExtendSorted(env: seq<Item>, item: Item)
    requires StrictlySorted(env) && (env != [] ==> Less(Utf8.Encode(env[|env| - 1].0), Utf8.Encode(item.0)))
    ensures StrictlySorted(env + [item])
    ensures item.0 !in Names(env)
  {
    hide Less, Utf8.Encode;
    NamesMean(env, item.0);
    var n := |env|;
    forall i | 0 <= i < n ensures Less(Utf8.Encode(env[i].0), Utf8.Encode(item.0)) {
      if i < n - 1 {
        LessTransitive(Utf8.Encode(env[i].0), Utf8.Encode(env[n - 1].0), Utf8.Encode(item.0));
      }
    }
    LessIrreflexive(Utf8.Encode(item.0));
  }

  lemma EntryErrorMeans(init: seq<Item>, item: Item)
    ensures EntryError(Names(init), LastNameBytes(init), item).None? <==>
            IsItem(item) && item.0 !in Names(init) &&
            (init != [] ==> Less(Utf8.Encode(init[|init| - 1].0), Utf8.Encode(item.0)))
  {
    hide Names, Less, ItemError, IsItem, Utf8.Encode;
    ItemErrorMeans(item);
  }

  lemma SortedSplits(init: seq<Item>, item: Item)
    ensures StrictlySorted(init + [item]) <==>
            StrictlySorted(init) && item.0 !in Names(init) &&
            (init != [] ==> Less(Utf8.Encode(init[|init| - 1].0), Utf8.Encode(item.0)))
  {
    hide Names, Less, Utf8.Encode;
    var env := init + [item];
    if StrictlySorted(init) && (init != [] ==> Less(Utf8.Encode(init[|init| - 1].0), Utf8.Encode(item.0))) {
      ExtendSorted(init, item);
    }
    assert forall i :: 0 <= i < |init| ==> env[i] == init[i];
    assert env[|init|] == item;
  }

  lemma {:induction false} EnvironmentErrorMeans(env: seq<Item>)
    ensures EnvironmentError(env).None? <==> (forall item :: item in env ==> IsItem(item)) && StrictlySorted(env)
  {
    hide StrictlySorted, EntryError, IsItem, Names, LastNameBytes, Utf8.Encode, Less;
    if env == [] {
      NothingUnsorted();
    } else {
      var n := |env| - 1;
      EnvironmentErrorMeans(env[..n]);
      EntryErrorMeans(env[..n], env[n]);
      SortedSplits(env[..n], env[n]);
      assert env == env[..n] + [env[n]];
      assert forall item :: item in env <==> item in env[..n] || item == env[n];
    }
  }

  lemma NothingUnsorted()
    ensures StrictlySorted([])
  {
  }

  // Construction succeeds exactly for well-formed specifications with two absolute paths.
  lemma PostInitMeans(isAbsolute: string -> bool, s: Spec)
    ensures PostInitError(isAbsolute, s).None? <==>
            WellFormed(s) && isAbsolute(s.executable) && isAbsolute(s.workingDirectory)
  {
    ArgvErrorMeans(s.argv);
    EnvironmentErrorMeans(s.environment);
  }

  // ---- Snapshots ----

  predicate NameOrder(x: Item, y: Item) { !Less(Utf8.Encode(y.0), Utf8.Encode(x.0)) }

  function ByName(): (Item, Item) -> bool { (x, y) => NameOrder(x, y) }

  function SortByName(items: seq<Item>): seq<Item> { Sort(ByName(), items) }

  function Snapshot(isAbsolute: string -> bool, executable: string, argv: seq<string>, workingDirectory: string,
                    items: seq<Item>, timeout: int): Result<Spec, SpecError>
  {
    match ItemsError(items)
    case Some(e) => Err(e)
    case None =>
      var s := Spec(executable, argv, workingDirectory, SortByName(items), timeout);
      match PostInitError(isAbsolute, s) { case Some(e) => Err(e) case None => Ok(s) }
  }

  lemma NameOrderIsTotal()
    ensures TotalPreorder(ByName())
  {
    var le := ByName();
    forall x, y ensures le(x, y) || le(y, x) {
      LessTotal(Utf8.Encode(x.0), Utf8.Encode(y.0));
      if Less(Utf8.Encode(x.0), Utf8.Encode(y.0)) && Less(Utf8.Encode(y.0), Utf8.Encode(x.0)) {
        LessTransitive(Utf8.Encode(x.0), Utf8.Encode(y.0), Utf8.Encode(x.0));
        LessIrreflexive(Utf8.Encode(x.0));
      }
    }
    forall x, y, z | le(x, y) && le(y, z) ensures le(x, z) {
      var (a, b, c) := (Utf8.Encode(x.0), Utf8.Encode(y.0), Utf8.Encode(z.0));
      LessTotal(a, b);
      LessTotal(b, c);
      if Less(c, a) {
        if Less(a, b) { LessTransitive(c, a, b); }
      }
    }
  }

  lemma DistinctByMultiset(xs: seq<Item>, ys: seq<Item>)
    requires multiset(xs) == multiset(ys) && DistinctNames(xs)
    ensures DistinctNames(ys)
  {
    DistinctPermutes(xs, ys);
    forall i, j | 0 <= i < j < |ys| ensures ys[i].0 != ys[j].0 {
      assert ys[i] in multiset(xs) && ys[j] in multiset(xs);
    }
  }

  // The sort that snapshot makes always satisfies the order that construction insists on.
  lemma SortedItemsPass(items: seq<Item>)
    requires ItemsError(items).None?
    ensures EnvironmentError(SortByName(items)).None?
    ensures multiset(SortByName(items)) == multiset(items)
  {
    var le := ByName();
    var env := Sort(le, items);
    NameOrderIsTotal();
    SortSorts(le, items);
    ItemsErrorMeans(items);
    EnvironmentErrorMeans(env);
    DistinctByMultiset(items, env);
    forall item | item in env ensures IsItem(item) {
      assert item in multiset(items);
    }
    forall i, j | 0 <= i < j < |env| ensures Less(Utf8.Encode(env[i].0), Utf8.Encode(env[j].0)) {
      assert le(env[i], env[j]);
      LessTotal(Utf8.Encode(env[i].0), Utf8.Encode(env[j].0));
      if Utf8.Encode(env[i].0) == Utf8.Encode(env[j].0) {
        Utf8.EncodeInjective(env[i].0, env[j].0);
      }
    }
  }

  // A snapshot holds exactly the caller's items and never fails on their order.
  lemma SnapshotCanonicalises(isAbsolute: string -> bool, executable: string, argv: seq<string>,
                              workingDirectory: string, items: seq<Item>, timeout: int)
    ensures
      var r := Snapshot(isAbsolute, executable, argv, workingDirectory, items, timeout);
      && r != Err(UnsortedNames)
      && (r.Ok? <==>
          && (forall item :: item in items ==> IsItem(item)) && DistinctNames(items)
          && PostInitError(isAbsolute, Spec(executable, argv, workingDirectory, [], timeout)).None?)
      && (r.Ok? ==> multiset(r.value.environment) == multiset(items) && WellFormed(r.value)
                    && r.value == Spec(executable, argv, workingDirectory, r.value.environment, timeout))
  {
    ItemsErrorMeans(items);
    if ItemsError(items).None? {
      SortedItemsPass(items);
      var s := Spec(executable, argv, workingDirectory, SortByName(items), timeout);
      PostInitMeans(isAbsolute, s);
      PostInitNotUnsorted(isAbsolute, s);
    } else {
      ItemsNeverUnsorted(items);
    }
  }

  lemma {:induction false} ItemsNeverUnsorted(items: seq<Item>)
    ensures ItemsError(items) != Some(UnsortedNames)
  {
    if items != [] { ItemsNeverUnsorted(items[..|items| - 1]); }
  }

  lemma {:induction false} ArgvNeverUnsorted(argv: seq<string>)
    ensures ArgvError(argv) != Some(UnsortedNames)
  {
    if argv != [] { ArgvNeverUnsorted(argv[..|argv| - 1]); }
  }

  lemma PostInitNotUnsorted(isAbsolute: string -> bool, s: Spec)
    requires EnvironmentError(s.environment).None?
    ensures PostInitError(isAbsolute, s) != Some(UnsortedNames)
  {
    ArgvNeverUnsorted(s.argv);
  }

  lemma SameItemsSortAlike(items: seq<Item>, items': seq<Item>)
    requires ItemsError(items).None? && ItemsError(items').None? && multiset(items) == multiset(items')
    ensures SortByName(items) == SortByName(items')
  {
    var le := ByName();
    var (env, env') := (Sort(le, items), Sort(le, items'));
    NameOrderIsTotal();
    SortSorts(le, items);
    SortSorts(le, items');
    SortedItemsPass(items);
    EnvironmentErrorMeans(env);
    forall x, y | x in env && y in env && le(x, y) && le(y, x) ensures x == y {
      var i :| 0 <= i < |env| && env[i] == x;
      var j :| 0 <= j < |env| && env[j] == y;
      assert i == j;
    }
    SortedUnique(le, env, env');
  }

  // Two mappings with the same items give the same snapshot, whatever order they are iterated in.
  lemma SnapshotIgnoresOrder(isAbsolute: string -> bool, executable: string, argv: seq<string>,
                             workingDirectory: string, items: seq<Item>, items': seq<Item>, timeout: int)
    requires multiset(items) == multiset(items')
    ensures
      var r := Snapshot(isAbsolute, executable, argv, workingDirectory, items, timeout);
      var r' := Snapshot(isAbsolute, executable, argv, workingDirectory, items', timeout);
      r.Ok? || r'.Ok? ==> r == r'
  {
    ItemsErrorMeans(items);
    ItemsErrorMeans(items');
    if ItemsError(items).None? {
      DistinctByMultiset(items, items');
      forall item | item in items' ensures IsItem(item) { assert item in multiset(items); }
      SameItemsSortAlike(items, items');
    } else if ItemsError(items').None? {
      DistinctByMultiset(items', items);
      forall item | item in items ensures IsItem(item) { assert item in multiset(items'); }
      assert false;
    }
  }

  // ---- The order of names, and what each error tells ----

  // The byte strings agree before place n, where the first one ends or has the smaller byte.
  predicate SmallerAt(a: Blob, b: Blob, n: nat) {
    n <= |a| && n < |b| && a[..n] == b[..n] && (n == |a| || a[n] < b[n])
  }

  lemma SmallerBehind(a: Blob, b: Blob, n: nat)
    requires a != [] && b != [] && a[0] == b[0]
    ensures SmallerAt(a, b, n + 1) <==> SmallerAt(a[1..], b[1..], n)
  {
    if n < |a| && n < |b| {
      assert a[..n + 1] == [a[0]] + a[1..][..n] && b[..n + 1] == [b[0]] + b[1..][..n];
      assert a[..n + 1][1..] == a[1..][..n] && b[..n + 1][1..] == b[1..][..n];
    }
  }

  lemma SmallerAtFirst(a: Blob, b: Blob)
    requires a != [] && b != []
    ensures SmallerAt(a, b, 0) <==> a[0] < b[0]
    ensures a[0] != b[0] ==> forall n: nat :: n > 0 ==> !SmallerAt(a, b, n)
  {
    assert a[..0] == b[..0];
    forall n: nat | n > 0 && SmallerAt(a, b, n) ensures a[0] == b[0] {
      SameStart(a, b, n);
    }
  }

  lemma SameStart(a: Blob, b: Blob, n: nat)
    requires n > 0 && SmallerAt(a, b, n)
    ensures a != [] && a[0] == b[0]
  {
    assert a[..n][0] == b[..n][0];
  }

  // Byte strings are compared at the first place where they differ; a proper beginning comes first.
  lemma {:induction false} LessMeans(a: Blob, b: Blob)
    ensures Less(a, b) <==> exists n: nat :: SmallerAt(a, b, n)
  {
    if a == [] && b != [] {
      assert a[..0] == b[..0];
      assert SmallerAt(a, b, 0);
    } else if a != [] && b != [] {
      SmallerAtFirst(a, b);
      if a[0] == b[0] {
        LessMeans(a[1..], b[1..]);
        if Less(a[1..], b[1..]) {
          var n: nat :| SmallerAt(a[1..], b[1..], n);
          SmallerBehind(a, b, n);
          assert SmallerAt(a, b, n + 1);
        }
        forall n: nat | SmallerAt(a, b, n) ensures Less(a, b) {
          SmallerBehind(a, b, n - 1);
        }
      }
    }
  }

  // The first thing wrong with a text.
  lemma TextErrorMeans(value: string, allowEmpty: bool)
    ensures
      var e := TextError(value, allowEmpty);
      && (e == Some(EmptyText) <==> value == "" && !allowEmpty)
      && (e == Some(ContainsNul) <==> '\0' in value)
      && (e == Some(TextTooLong) <==> '\0' !in value && |Utf8.Encode(value)| > 0xFFFF_FFFF_FFFF_FFFF)
      && e in {None, Some(EmptyText), Some(ContainsNul), Some(TextTooLong)}
  {
    assert Utf8.Encode("") == [];
  }

  // A path is rejected as a text first.
  lemma PathErrorMeans(isAbsolute: string -> bool, path: string)
    ensures
      var e := PathError(isAbsolute, path);
      && (e == Some(EmptyText) <==> path == "")
      && (e == Some(ContainsNul) <==> '\0' in path)
      && (e == Some(TextTooLong) <==> '\0' !in path && |Utf8.Encode(path)| > 0xFFFF_FFFF_FFFF_FFFF)
      && (e == Some(NotAbsolute) <==> path != "" && IsText(path) && !isAbsolute(path))
      && e in {None, Some(EmptyText), Some(ContainsNul), Some(TextTooLong), Some(NotAbsolute)}
  {
    TextErrorMeans(path, false);
    hide Utf8.Encode, TextError;
  }

  // An item is rejected for its name first, then for an equals sign in it, then for its value.
  lemma ItemErrorTells(item: Item)
    ensures
      var (name, value, e) := (item.0, item.1, ItemError(item));
      && (TextError(name, false).Some? ==> e == TextError(name, false))
      && (TextError(name, false).None? ==> (e == Some(NameHasEquals) <==> '=' in name))
      && (TextError(name, false).None? && '=' !in name ==> e == TextError(value, true))
  {
    TextErrorMeans(item.1, true);
    hide TextError;
  }

  // The argument at place i is the first one to be rejected.
  predicate RejectsArgument(argv: seq<string>, i: nat, e: SpecError) {
    i < |argv| && (forall a :: a in argv[..i] ==> IsText(a)) && TextError(argv[i], true) == Some(e)
  }

  lemma {:induction false} ArgvErrorTells(argv: seq<string>, e: SpecError)
    ensures ArgvError(argv) == Some(e) <==> exists i: nat :: RejectsArgument(argv, i, e)
  {
    if argv != [] {
      var n := |argv| - 1;
      ArgvErrorTells(argv[..n], e);
      ArgvErrorMeans(argv[..n]);
      forall i: nat | i < n ensures RejectsArgument(argv, i, e) <==> RejectsArgument(argv[..n], i, e) {
        assert argv[..n][..i] == argv[..i];
      }
      hide TextError, IsText;
      assert RejectsArgument(argv, n, e) <==> ArgvError(argv[..n]).None? && TextError(argv[n], true) == Some(e);
    }
  }

  // The item at place i is the first one to be rejected, on its own or for repeating a name.
  predicate RejectsItem(items: seq<Item>, i: nat, e: SpecError) {
    && i < |items| && (forall item :: item in items[..i] ==> IsItem(item)) && DistinctNames(items[..i])
    && if IsItem(items[i]) then e == DuplicateName && Repeats(items, i) else ItemError(items[i]) == Some(e)
  }

  predicate Repeats(items: seq<Item>, i: nat)
    requires i < |items|
  {
    exists j :: 0 <= j < i && items[j].0 == items[i].0
  }

  lemma RepeatsMeans(items: seq<Item>, i: nat)
    requires i < |items|
    ensures Repeats(items, i) <==> items[i].0 in Names(items[..i])
  {
    NamesMean(items[..i], items[i].0);
  }

  lemma RejectsItemEarlier(items: seq<Item>, i: nat, n: nat, e: SpecError)
    requires i < n <= |items|
    ensures RejectsItem(items, i, e) <==> RejectsItem(items[..n], i, e)
  {
    RepeatsMeans(items, i);
    RepeatsMeans(items[..n], i);
    assert items[..n][..i] == items[..i];
    hide IsItem, ItemError, DistinctNames, Repeats, Names;
  }

  lemma RejectsItemLast(items: seq<Item>, n: nat, e: SpecError)
    requires |items| == n + 1
    ensures RejectsItem(items, n, e) <==>
            ItemsError(items[..n]).None? &&
            if ItemError(items[n]).Some? then ItemError(items[n]) == Some(e)
            else e == DuplicateName && items[n].0 in Names(items[..n])
  {
    hide IsItem, ItemError, DistinctNames, Repeats, Names, ItemsError;
    RepeatsMeans(items, n);
    ItemErrorMeans(items[n]);
    ItemsErrorMeans(items[..n]);
  }

  lemma {:induction false} ItemsErrorTells(items: seq<Item>, e: SpecError)
    ensures ItemsError(items) == Some(e) <==> exists i: nat :: RejectsItem(items, i, e)
  {
    hide RejectsItem, ItemError, Names;
    if items == [] {
      NothingRejected(e);
    } else {
      var n := |items| - 1;
      ItemsErrorTells(items[..n], e);
      RejectsItemLast(items, n, e);
      forall i: nat ensures RejectsItem(items, i, e) <==>
                            (i == n && RejectsItem(items, n, e)) || RejectsItem(items[..n], i, e)
      {
        RejectsWithin(items, i, e);
        RejectsWithin(items[..n], i, e);
        if i < n { RejectsItemEarlier(items, i, n, e); }
      }
    }
  }

  lemma RejectsWithin(items: seq<Item>, i: nat, e: SpecError)
    ensures RejectsItem(items, i, e) || RejectsEntry(items, i, e) ==> i < |items|
  {
  }

  lemma NothingRejected(e: SpecError)
    ensures forall i: nat :: !RejectsItem([], i, e) && !RejectsEntry([], i, e)
  {
  }

  // The environment entry at place i is the first one to be rejected, on its own, for repeating a name, or for
  // coming behind a name that is not smaller.
  predicate RejectsEntry(env: seq<Item>, i: nat, e: SpecError) {
    && i < |env| && (forall item :: item in env[..i] ==> IsItem(item)) && StrictlySorted(env[..i])
    && if !IsItem(env[i]) then ItemError(env[i]) == Some(e)
       else if Repeats(env, i) then e == DuplicateName
       else e == UnsortedNames && i > 0 && !Less(Utf8.Encode(env[i - 1].0), Utf8.Encode(env[i].0))
  }

  lemma RejectsEntryEarlier(env: seq<Item>, i: nat, n: nat, e: SpecError)
    requires i < n <= |env|
    ensures RejectsEntry(env, i, e) <==> RejectsEntry(env[..n], i, e)
  {
    RepeatsMeans(env, i);
    RepeatsMeans(env[..n], i);
    assert env[..n][..i] == env[..i];
    hide IsItem, ItemError, StrictlySorted, Repeats, Names, Less, Utf8.Encode;
  }

  lemma RejectsEntryLast(env: seq<Item>, n: nat, e: SpecError)
    requires |env| == n + 1
    ensures RejectsEntry(env, n, e) <==>
            EnvironmentError(env[..n]).None? && EntryError(Names(env[..n]), LastNameBytes(env[..n]), env[n]) == Some(e)
  {
    hide IsItem, ItemError, StrictlySorted, Repeats, Names, Less, Utf8.Encode, EnvironmentError;
    RepeatsMeans(env, n);
    ItemErrorMeans(env[n]);
    EnvironmentErrorMeans(env[..n]);
  }

  lemma {:induction false} EnvironmentErrorTells(env: seq<Item>, e: SpecError)
    ensures EnvironmentError(env) == Some(e) <==> exists i: nat :: RejectsEntry(env, i, e)
  {
    hide RejectsEntry, EntryError, Names, LastNameBytes;
    if env == [] {
      NothingRejected(e);
    } else {
      var n := |env| - 1;
      EnvironmentErrorTells(env[..n], e);
      RejectsEntryLast(env, n, e);
      forall i: nat ensures RejectsEntry(env, i, e) <==>
                            (i == n && RejectsEntry(env, n, e)) || RejectsEntry(env[..n], i, e)
      {
        RejectsWithin(env, i, e);
        RejectsWithin(env[..n], i, e);
        if i < n { RejectsEntryEarlier(env, i, n, e); }
      }
    }
  }

  // A snapshot that fails reports the first item that is rejected, and without one what is wrong with the rest.
  lemma SnapshotReportsTheFirst(isAbsolute: string -> bool, executable: string, argv: seq<string>,
                                workingDirectory: string, items: seq<Item>, timeout: int, e: SpecError)
    ensures
      Snapshot(isAbsolute, executable, argv, workingDirectory, items, timeout) == Err(e) <==>
      if (forall item :: item in items ==> IsItem(item)) && DistinctNames(items)
      then PostInitError(isAbsolute, Spec(executable, argv, workingDirectory, [], timeout)) == Some(e)
      else exists i: nat :: RejectsItem(items, i, e)
  {
    ItemsErrorMeans(items);
    ItemsErrorTells(items, e);
    hide IsItem, DistinctNames, ItemsError, RejectsItem;
    if ItemsError(items).None? {
      SortedItemsPass(items);
    }
    hide ArgvError, PathError, TimeoutError, SortByName;
  }

  // A construction that fails reports the executable first, then the arguments, the directory, the environment and
  // the timeout.
  lemma PostInitReportsTheFirst(isAbsolute: string -> bool, s: Spec)
    ensures
      var e := PostInitError(isAbsolute, s);
      && (PathError(isAbsolute, s.executable).Some? ==> e == PathError(isAbsolute, s.executable))
      && (PathError(isAbsolute, s.executable).None? ==>
            && (s.argv == [] ==> e == Some(EmptyArgv))
            && (s.argv != [] && ArgvError(s.argv).Some? ==> e == ArgvError(s.argv))
            && (s.argv != [] && ArgvError(s.argv).None? ==>
                  && (PathError(isAbsolute, s.workingDirectory).Some? ==>
                        e == PathError(isAbsolute, s.workingDirectory))
                  && (PathError(isAbsolute, s.workingDirectory).None? && EnvironmentError(s.environment).Some? ==>
                        e == EnvironmentError(s.environment))
                  && (PathError(isAbsolute, s.workingDirectory).None? && EnvironmentError(s.environment).None? ==>
                        e == if 1 <= s.timeout <= 0xFFFF_FFFF_FFFF_FFFF then None else Some(BadTimeout))))
  {
    hide ArgvError, EnvironmentError, PathError;
  }
}
