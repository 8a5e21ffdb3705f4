/** The canonical bytes of a command specification, a decoder for them, and the hash built on them. */
module CanonicalSpec {
  import opened Prelude
  import opened Bytes
  import opened CommandSpec
  import Utf8

  const HASH_PREFIX := "ucsh1:sha256:"

  function Domain(): Blob { Ascii("umbilical-local-command-spec-v1\0") }

  function Label(name: string): Blob
    requires IsAscii(name)
  {
    Frame(Ascii(name))
  }

  function Text(value: string): Blob { Frame(Utf8.Encode(value)) }

  function Texts(values: seq<string>): Blob {
    if values == [] then [] else Texts(values[..|values| - 1]) + Text(values[|values| - 1])
  }

  function Items(env: seq<Item>): Blob {
    if env == [] then []
    else
      var n := |env| - 1;
      Items(env[..n]) + Text(env[n].0) + Text(env[n].1)
  }

  // The constant parts of the format: the domain prefix and the framed field names.
  datatype Labels =
    Labels(domain: Blob, executable: Blob, argv: Blob, directory: Blob, environment: Blob, timeout: Blob)

  function V1(): Labels {
    Labels(Domain(), Label("executable"), Label("argv"), Label("working_directory"), Label("environment"),
           Label("timeout_seconds"))
  }

  function Payload(l: Labels, s: Spec): Blob
    requires s.timeout >= 0
  {
    l.domain
    + (l.executable + Text(s.executable))
    + (l.argv + U64(|s.argv|) + Texts(s.argv))
    + (l.directory + Text(s.workingDirectory))
    + (l.environment + U64(|s.environment|) + Items(s.environment))
    + (l.timeout + U64(s.timeout))
  }

  // to_bytes refuses a count that does not fit eight bytes; nothing else can go wrong.
  function CanonicalBytes(s: Spec): Result<Blob, SpecError>
    requires WellFormed(s)
  {
    if |s.argv| > MAX_FRAMED || |s.environment| > MAX_FRAMED then Err(CountTooLong) else Ok(Payload(V1(), s))
  }

  // SHA-256 in hexadecimal is a parameter.
  function CommandSpecHash(hexDigest: Blob -> string, s: Spec): Result<string, SpecError>
    requires WellFormed(s)
  {
    match CanonicalBytes(s) { case Err(e) => Err(e) case Ok(b) => Ok(HASH_PREFIX + hexDigest(b)) }
  }

  // ---- The decoder ----

  function Skip(prefix: Blob, s: Blob): Option<Blob> {
    if prefix <= s then Some(s[|prefix|..]) else None
  }

  function TakeText(s: Blob): (r: Option<(string, Blob)>)
    ensures r.Some? ==> |r.value.1| < |s|
  {
    match TakeFrame(s)
    case None => None
    case Some((value, rest)) =>
      match Utf8.Decode(value) { case None => None case Some(text) => Some((text, rest)) }
  }

  function TakeTexts(n: nat, s: Blob): Option<(seq<string>, Blob)> {
    if n == 0 then Some(([], s))
    else match TakeText(s)
      case None => None
      case Some((value, rest)) =>
        match TakeTexts(n - 1, rest) { case None => None case Some((more, rest)) => Some(([value] + more, rest)) }
  }

  function TakeItems(n: nat, s: Blob): Option<(seq<Item>, Blob)> {
    if n == 0 then Some(([], s))
    else match TakeTexts(2, s)
      case None => None
      case Some((pair, rest)) =>
        match TakeItems(n - 1, rest)
        case None => None
        case Some((more, rest)) => if |pair| == 2 then Some(([(pair[0], pair[1])] + more, rest)) else None
  }

  function TakeField(tag: Blob, s: Blob): Option<(string, Blob)> {
    match Skip(tag, s) { case None => None case Some(rest) => TakeText(rest) }
  }

  function TakeCount(tag: Blob, s: Blob): Option<(nat, Blob)> {
    match Skip(tag, s) { case None => None case Some(rest) => TakeU64(rest) }
  }

  function TakeArgv(tag: Blob, s: Blob): Option<(seq<string>, Blob)> {
    match TakeCount(tag, s) { case None => None case Some((n, rest)) => TakeTexts(n, rest) }
  }

  function TakeEnvironment(tag: Blob, s: Blob): Option<(seq<Item>, Blob)> {
    match TakeCount(tag, s) { case None => None case Some((n, rest)) => TakeItems(n, rest) }
  }

  // Reads one specification off the front of s and returns what follows it.
  function Decode(l: Labels, s: Blob): Option<(Spec, Blob)> {
    match Skip(l.domain, s)
    case None => None
    case Some(s) =>
      match TakeField(l.executable, s)
      case None => None
      case Some((executable, s)) =>
        match TakeArgv(l.argv, s)
        case None => None
        case Some((argv, s)) =>
          match TakeField(l.directory, s)
          case None => None
          case Some((directory, s)) =>
            match TakeEnvironment(l.environment, s)
            case None => None
            case Some((env, s)) =>
              match TakeCount(l.timeout, s)
              case None => None
              case Some((timeout, rest)) => Some((Spec(executable, argv, directory, env, timeout), rest))
  }

  function DecodeSpec(s: Blob): Option<(Spec, Blob)> { Decode(V1(), s) }

  lemma TextDecodes(value: string, rest: Blob)
    requires IsText(value)
    ensures TakeText(Text(value) + rest) == Some((value, rest))
  {
    FrameDecodes(Utf8.Encode(value), rest);
    Utf8.EncodeDecodes(value);
  }

  // Taking one more text after n of them.
  lemma {:induction false} TakeTextsSnoc(n: nat, s: Blob, values: seq<string>, value: string, mid: Blob, rest: Blob)
    requires TakeTexts(n, s) == Some((values, mid)) && TakeText(mid) == Some((value, rest))
    ensures TakeTexts(n + 1, s) == Some((values + [value], rest))
  {
    hide TakeText;
    if n == 0 {
      assert TakeTexts(0, rest) == Some(([], rest));
      assert [value] + [] == [] + [value];
    } else {
      var (v, s') := TakeText(s).value;
      var more := TakeTexts(n - 1, s').value.0;
      TakeTextsSnoc(n - 1, s', more, value, mid, rest);
      assert [v] + (more + [value]) == ([v] + more) + [value];
    }
  }

  lemma TakeNoTexts(s: Blob)
    ensures TakeTexts(0, s) == Some(([], s))
  {
  }

  lemma {:induction false} TextsDecode(values: seq<string>, rest: Blob)
    requires forall v :: v in values ==> IsText(v)
    ensures TakeTexts(|values|, Texts(values) + rest) == Some((values, rest))
  {
    hide TakeText, Text, Utf8.Encode, Utf8.Decode, IsText, TakeTexts;
    if values == [] {
      assert Texts(values) + rest == rest;
      TakeNoTexts(rest);
    } else {
      var n := |values| - 1;
      var (init, v) := (values[..n], values[n]);
      TextsDecode(init, Text(v) + rest);
      TextDecodes(v, rest);
      assert Texts(values) + rest == Texts(init) + (Text(v) + rest);
      TakeTextsSnoc(n, Texts(values) + rest, init, v, Text(v) + rest, rest);
      assert init + [v] == values;
    }
  }

  lemma PairDecodes(item: Item, rest: Blob)
    requires IsItem(item)
    ensures TakeTexts(2, Text(item.0) + (Text(item.1) + rest)) == Some(([item.0, item.1], rest))
  {
    hide TakeText, Text, TakeTexts, IsText, Utf8.Encode, Utf8.Decode;
    TextDecodes(item.0, Text(item.1) + rest);
    TextDecodes(item.1, rest);
    var s := Text(item.0) + (Text(item.1) + rest);
    TakeNoTexts(s);
    TakeTextsSnoc(0, s, [], item.0, s, Text(item.1) + rest);
    assert [] + [item.0] == [item.0] && [item.0] + [item.1] == [item.0, item.1];
    TakeTextsSnoc(1, s, [item.0], item.1, Text(item.1) + rest, rest);
  }

  lemma {:induction false} TakeItemsSnoc(n: nat, s: Blob, env: seq<Item>, item: Item, mid: Blob, rest: Blob)
    requires TakeItems(n, s) == Some((env, mid)) && TakeTexts(2, mid) == Some(([item.0, item.1], rest))
    ensures TakeItems(n + 1, s) == Some((env + [item], rest))
  {
    hide TakeTexts;
    if n == 0 {
      assert TakeItems(0, rest) == Some(([], rest));
      assert [item] + [] == [] + [item];
    } else {
      var (pair, s') := TakeTexts(2, s).value;
      var more := TakeItems(n - 1, s').value.0;
      TakeItemsSnoc(n - 1, s', more, item, mid, rest);
      assert [(pair[0], pair[1])] + (more + [item]) == ([(pair[0], pair[1])] + more) + [item];
    }
  }

  lemma ItemsSnoc(init: seq<Item>, item: Item, rest: Blob)
    ensures Items(init + [item]) + rest == Items(init) + (Text(item.0) + (Text(item.1) + rest))
  {
    hide Text;
    var env := init + [item];
    assert env[..|init|] == init && env[|init|] == item;
    assert Items(env) == Items(init) + Text(item.0) + Text(item.1);
    assert Items(init) + Text(item.0) + Text(item.1) + rest == Items(init) + (Text(item.0) + (Text(item.1) + rest));
  }

  lemma TakeNoItems(s: Blob)
    ensures TakeItems(0, s) == Some(([], s))
  {
  }

  lemma {:induction false} ItemsDecode(env: seq<Item>, rest: Blob)
    requires forall item :: item in env ==> IsItem(item)
    ensures TakeItems(|env|, Items(env) + rest) == Some((env, rest))
  {
    hide TakeItems, Text, IsItem;
    if env == [] {
      assert Items(env) + rest == rest;
      TakeNoItems(rest);
    } else {
      var n := |env| - 1;
      var (init, item) := (env[..n], env[n]);
      assert init + [item] == env;
      var mid := Text(item.0) + (Text(item.1) + rest);
      ItemsDecode(init, mid);
      PairDecodes(item, rest);
      ItemsSnoc(init, item, rest);
      TakeItemsSnoc(n, Items(env) + rest, init, item, mid, rest);
    }
  }

  lemma SkipDecodes(prefix: Blob, rest: Blob)
    ensures Skip(prefix, prefix + rest) == Some(rest)
  {
  }

  lemma FieldDecodes(tag: Blob, value: string, rest: Blob)
    requires IsText(value)
    ensures TakeField(tag, (tag + Text(value)) + rest) == Some((value, rest))
  {
    hide TakeText, Text, Skip, IsText;
    assert (tag + Text(value)) + rest == tag + (Text(value) + rest);
    SkipDecodes(tag, Text(value) + rest);
    TextDecodes(value, rest);
  }

  lemma CountDecodes(tag: Blob, n: nat, rest: Blob)
    requires n <= MAX_FRAMED
    ensures TakeCount(tag, (tag + U64(n)) + rest) == Some((n, rest))
  {
    hide TakeU64, U64, Skip;
    assert (tag + U64(n)) + rest == tag + (U64(n) + rest);
    SkipDecodes(tag, U64(n) + rest);
    U64Decodes(n, rest);
  }

  lemma ArgvDecodes(tag: Blob, argv: seq<string>, rest: Blob)
    requires |argv| <= MAX_FRAMED && forall a :: a in argv ==> IsText(a)
    ensures TakeArgv(tag, (tag + U64(|argv|) + Texts(argv)) + rest) == Some((argv, rest))
  {
    hide TakeCount, TakeTexts, U64, Texts, IsText;
    CountDecodes(tag, |argv|, Texts(argv) + rest);
    assert (tag + U64(|argv|) + Texts(argv)) + rest == (tag + U64(|argv|)) + (Texts(argv) + rest);
    TextsDecode(argv, rest);
  }

  lemma EnvironmentDecodes(tag: Blob, env: seq<Item>, rest: Blob)
    requires |env| <= MAX_FRAMED && forall item :: item in env ==> IsItem(item)
    ensures TakeEnvironment(tag, (tag + U64(|env|) + Items(env)) + rest) == Some((env, rest))
  {
    hide TakeCount, TakeItems, U64, Items, IsItem;
    CountDecodes(tag, |env|, Items(env) + rest);
    assert (tag + U64(|env|) + Items(env)) + rest == (tag + U64(|env|)) + (Items(env) + rest);
    ItemsDecode(env, rest);
  }

  lemma Regroup(a: Blob, b: Blob, c: Blob, d: Blob, e: Blob, f: Blob, rest: Blob)
    ensures a + b + c + d + e + f + rest == a + (b + (c + (d + (e + (f + rest)))))
  {
  }

  lemma PayloadDecodes(l: Labels, s: Spec, rest: Blob)
    requires WellFormed(s) && |s.argv| <= MAX_FRAMED && |s.environment| <= MAX_FRAMED
    ensures Decode(l, Payload(l, s) + rest) == Some((s, rest))
  {
    hide TakeCount, TakeEnvironment, TakeArgv, TakeField, Skip, U64, Items, Texts, Text, StrictlySorted, IsItem, IsText;
    var b := l.executable + Text(s.executable);
    var c := l.argv + U64(|s.argv|) + Texts(s.argv);
    var d := l.directory + Text(s.workingDirectory);
    var e := l.environment + U64(|s.environment|) + Items(s.environment);
    var f := l.timeout + U64(s.timeout);
    CountDecodes(l.timeout, s.timeout, rest);
    EnvironmentDecodes(l.environment, s.environment, f + rest);
    FieldDecodes(l.directory, s.workingDirectory, e + (f + rest));
    ArgvDecodes(l.argv, s.argv, d + (e + (f + rest)));
    FieldDecodes(l.executable, s.executable, c + (d + (e + (f + rest))));
    SkipDecodes(l.domain, b + (c + (d + (e + (f + rest)))));
    Regroup(l.domain, b, c, d, e, f, rest);
  }

  // The decoder recovers the exact specification and stops exactly at its last byte.
  lemma CanonicalDecodes(s: Spec, rest: Blob)
    requires WellFormed(s) && CanonicalBytes(s).Ok?
    ensures DecodeSpec(CanonicalBytes(s).value + rest) == Some((s, rest))
  {
    PayloadDecodes(V1(), s, rest);
  }

  lemma CanonicalDecodesAs(s: Spec, b: Blob, rest: Blob)
    requires WellFormed(s) && CanonicalBytes(s).Ok? && b == CanonicalBytes(s).value + rest
    ensures DecodeSpec(b) == Some((s, rest))
  {
    CanonicalDecodes(s, rest);
  }

  lemma Suffix(b: Blob, c: Blob)
    requires b <= c
    ensures c == b + c[|b|..] && c == c + []
  {
  }

  // Different specifications have different bytes, and no encoding starts another one.
  lemma CanonicalPrefixFree(s: Spec, t: Spec)
    requires WellFormed(s) && WellFormed(t) && CanonicalBytes(s).Ok? && CanonicalBytes(t).Ok?
    requires CanonicalBytes(s).value <= CanonicalBytes(t).value
    ensures s == t
  {
    var (b, c) := (CanonicalBytes(s).value, CanonicalBytes(t).value);
    Suffix(b, c);
    CanonicalDecodesAs(s, c, c[|b|..]);
    CanonicalDecodesAs(t, c, []);
  }

  // Two byte strings that share a digest.
  predicate Collision(hexDigest: Blob -> string, b: Blob, c: Blob) { b != c && hexDigest(b) == hexDigest(c) }

  // Two commands with one hash are the same command, or their canonical bytes are a collision of the digest.
  lemma HashSeparates(hexDigest: Blob -> string, s: Spec, t: Spec)
    requires WellFormed(s) && WellFormed(t)
    requires CommandSpecHash(hexDigest, s).Ok? && CommandSpecHash(hexDigest, s) == CommandSpecHash(hexDigest, t)
    ensures CanonicalBytes(s).Ok? && CanonicalBytes(t).Ok?
    ensures s == t || Collision(hexDigest, CanonicalBytes(s).value, CanonicalBytes(t).value)
  {
    hide Payload, WellFormed;
    var (b, c) := (CanonicalBytes(s).value, CanonicalBytes(t).value);
    var (p, q) := (hexDigest(b), hexDigest(c));
    assert (HASH_PREFIX + p)[|HASH_PREFIX|..] == p && (HASH_PREFIX + q)[|HASH_PREFIX|..] == q;
    if b == c {
      CanonicalPrefixFree(s, t);
    }
  }

  // ---- The format ----

  lemma DomainBytes()
    ensures Domain() == [117, 109, 98, 105, 108, 105, 99, 97, 108, 45, 108, 111, 99, 97, 108, 45, 99, 111, 109, 109, 97,
                         110, 100, 45, 115, 112, 101, 99, 45, 118, 49, 0]
  {
  }

  lemma ExecutableLabel()
    ensures Label("executable") == [0, 0, 0, 0, 0, 0, 0, 10] + [101, 120, 101, 99, 117, 116, 97, 98, 108, 101]
  {
    SmallU64(10);
    hide U64;
    assert Ascii("executable") == [101, 120, 101, 99, 117, 116, 97, 98, 108, 101];
  }

  lemma ArgvLabel()
    ensures Label("argv") == [0, 0, 0, 0, 0, 0, 0, 4] + [97, 114, 103, 118]
  {
    SmallU64(4);
    hide U64;
    assert Ascii("argv") == [97, 114, 103, 118];
  }

  lemma DirectoryLabel()
    ensures Label("working_directory")
         == [0, 0, 0, 0, 0, 0, 0, 17]
            + [119, 111, 114, 107, 105, 110, 103, 95, 100, 105, 114, 101, 99, 116, 111, 114, 121]
  {
    SmallU64(17);
    hide U64;
    assert Ascii("working_directory")
        == [119, 111, 114, 107, 105, 110, 103, 95, 100, 105, 114, 101, 99, 116, 111, 114, 121];
  }

  lemma EnvironmentLabel()
    ensures Label("environment") == [0, 0, 0, 0, 0, 0, 0, 11] + [101, 110, 118, 105, 114, 111, 110, 109, 101, 110, 116]
  {
    SmallU64(11);
    hide U64;
    assert Ascii("environment") == [101, 110, 118, 105, 114, 111, 110, 109, 101, 110, 116];
  }

  lemma TimeoutLabel()
    ensures Label("timeout_seconds")
         == [0, 0, 0, 0, 0, 0, 0, 15] + [116, 105, 109, 101, 111, 117, 116, 95, 115, 101, 99, 111, 110, 100, 115]
  {
    SmallU64(15);
    hide U64;
    assert Ascii("timeout_seconds") == [116, 105, 109, 101, 111, 117, 116, 95, 115, 101, 99, 111, 110, 100, 115];
  }

  // The bytes of every specification: the domain prefix; then the five field names with their lengths in eight
  // bytes, each followed by its text, its number, or its count and texts.
  lemma BytesFormat(s: Spec)
    requires WellFormed(s) && CanonicalBytes(s).Ok?
    ensures CanonicalBytes(s).value
      == [117, 109, 98, 105, 108, 105, 99, 97, 108, 45, 108, 111, 99, 97, 108, 45, 99, 111, 109, 109, 97,
          110, 100, 45, 115, 112, 101, 99, 45, 118, 49, 0]
         + (([0, 0, 0, 0, 0, 0, 0, 10] + [101, 120, 101, 99, 117, 116, 97, 98, 108, 101]) + Text(s.executable))
         + (([0, 0, 0, 0, 0, 0, 0, 4] + [97, 114, 103, 118]) + U64(|s.argv|) + Texts(s.argv))
         + (([0, 0, 0, 0, 0, 0, 0, 17]
             + [119, 111, 114, 107, 105, 110, 103, 95, 100, 105, 114, 101, 99, 116, 111, 114, 121])
            + Text(s.workingDirectory))
         + (([0, 0, 0, 0, 0, 0, 0, 11] + [101, 110, 118, 105, 114, 111, 110, 109, 101, 110, 116])
            + U64(|s.environment|) + Items(s.environment))
         + (([0, 0, 0, 0, 0, 0, 0, 15] + [116, 105, 109, 101, 111, 117, 116, 95, 115, 101, 99, 111, 110, 100, 115])
            + U64(s.timeout))
  {
    DomainBytes();
    ExecutableLabel();
    ArgvLabel();
    DirectoryLabel();
    EnvironmentLabel();
    TimeoutLabel();
    hide Label, Domain, Text, Texts, Items, U64, WellFormed;
  }

  // The texts of a list follow one another in its order, those of an entry name first.
  lemma TextsFormat(values: seq<string>, value: string, env: seq<Item>, item: Item)
    ensures Texts(values + [value]) == Texts(values) + (U64(|Utf8.Encode(value)|) + Utf8.Encode(value))
    ensures Texts([]) == [] && Items([]) == []
    ensures Items(env + [item]) == Items(env) + (U64(|Utf8.Encode(item.0)|) + Utf8.Encode(item.0))
                                              + (U64(|Utf8.Encode(item.1)|) + Utf8.Encode(item.1))
  {
    assert (values + [value])[..|values|] == values && (env + [item])[..|env|] == env;
    hide U64, Utf8.Encode;
  }

  // A hash is the digest of the canonical bytes with the tag of its format in front.
  lemma HashFormat(hexDigest: Blob -> string, s: Spec)
    requires WellFormed(s)
    ensures CommandSpecHash(hexDigest, s).Ok? <==>
            |s.argv| <= 0xFFFF_FFFF_FFFF_FFFF && |s.environment| <= 0xFFFF_FFFF_FFFF_FFFF
    ensures CommandSpecHash(hexDigest, s).Ok? ==>
              && CanonicalBytes(s).Ok?
              && CommandSpecHash(hexDigest, s).value == "ucsh1:sha256:" + hexDigest(CanonicalBytes(s).value)
  {
    hide Payload, WellFormed;
  }
}
