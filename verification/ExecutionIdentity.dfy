/** Canonical execution keys: four framed identities behind a domain prefix, in base64url. */
module ExecutionIdentity {
  import opened Prelude
  import opened Bytes
  import Utf8
  import Base64Url

  const KEY_PREFIX := "uek1:"

  datatype IdentityError = EmptyComponent(name: string) | ComponentTooLong(name: string)

  datatype Identity = Identity(repository: string, subject: string, revision: string, causalRoot: string)

  function Domain(): Blob { Ascii("umbilical-execution-key-v1\0") }

  function FrameComponent(name: string, value: string): Result<Blob, IdentityError> {
    if value == "" then Err(EmptyComponent(name))
    else if |Utf8.Encode(value)| > MAX_FRAMED then Err(ComponentTooLong(name))
    else Ok(Frame(Utf8.Encode(value)))
  }

  function DeriveExecutionKey(i: Identity): Result<string, IdentityError> {
    match FrameComponent("RepositoryIdentity", i.repository)
    case Err(e) => Err(e)
    case Ok(a) =>
      match FrameComponent("SubjectIdentity", i.subject)
      case Err(e) => Err(e)
      case Ok(b) =>
        match FrameComponent("RevisionIdentity", i.revision)
        case Err(e) => Err(e)
        case Ok(c) =>
          match FrameComponent("CausalRoot", i.causalRoot)
          case Err(e) => Err(e)
          case Ok(d) => Ok(KEY_PREFIX + Base64Url.Encode(Domain() + a + b + c + d))
  }

  // ---- The decoder ----

  function TakeComponent(s: Blob): Option<(string, Blob)> {
    match TakeFrame(s)
    case None => None
    case Some((value, rest)) =>
      match Utf8.Decode(value) { case None => None case Some(text) => Some((text, rest)) }
  }

  function DecodeComponents(s: Blob, n: nat): Option<seq<string>> {
    if n == 0 then (if s == [] then Some([]) else None)
    else match TakeComponent(s)
      case None => None
      case Some((text, rest)) =>
        match DecodeComponents(rest, n - 1) { case None => None case Some(more) => Some([text] + more) }
  }

  function DecodePayload(domain: Blob, payload: Blob): Option<Identity> {
    if !(domain <= payload) then None
    else match DecodeComponents(payload[|domain|..], 4)
      case None => None
      case Some(c) => if |c| == 4 then Some(Identity(c[0], c[1], c[2], c[3])) else None
  }

  function DecodeExecutionKey(key: string): Option<Identity> {
    if !(KEY_PREFIX <= key) then None
    else match Base64Url.Decode(key[|KEY_PREFIX|..])
      case None => None
      case Some(payload) => DecodePayload(Domain(), payload)
  }

  predicate Admissible(value: string) { value != "" && |Utf8.Encode(value)| <= MAX_FRAMED }

  lemma ComponentDecodes(value: string, rest: Blob)
    requires Admissible(value)
    ensures TakeComponent(Frame(Utf8.Encode(value)) + rest) == Some((value, rest))
  {
    FrameDecodes(Utf8.Encode(value), rest);
    Utf8.EncodeDecodes(value);
  }

  function Components(values: seq<string>): Blob {
    if values == [] then [] else Frame(Utf8.Encode(values[0])) + Components(values[1..])
  }

  lemma {:induction false} ComponentsDecode(values: seq<string>)
    requires forall v :: v in values ==> Admissible(v)
    ensures DecodeComponents(Components(values), |values|) == Some(values)
  {
    if values != [] {
      ComponentDecodes(values[0], Components(values[1..]));
      ComponentsDecode(values[1..]);
      assert values == [values[0]] + values[1..];
    }
  }

  lemma FourComponents(p: string, q: string, r: string, s: string)
    ensures Components([p, q, r, s])
            == Frame(Utf8.Encode(p)) + (Frame(Utf8.Encode(q)) + (Frame(Utf8.Encode(r)) + (Frame(Utf8.Encode(s)) + [])))
  {
    assert [p, q, r, s][1..] == [q, r, s] && [q, r, s][1..] == [r, s] && [r, s][1..] == [s] && [s][1..] == [];
    assert Components([s]) == Frame(Utf8.Encode(s)) + [];
    assert Components([r, s]) == Frame(Utf8.Encode(r)) + Components([s]);
    assert Components([q, r, s]) == Frame(Utf8.Encode(q)) + Components([r, s]);
  }

  lemma Regrouped(z: Blob, a: Blob, b: Blob, c: Blob, d: Blob)
    ensures z + a + b + c + d == z + (a + (b + (c + (d + []))))
  {
  }

  lemma PayloadDecodes(domain: Blob, i: Identity, a: Blob, b: Blob, c: Blob, d: Blob)
    requires Admissible(i.repository) && Admissible(i.subject) && Admissible(i.revision) && Admissible(i.causalRoot)
    requires a == Frame(Utf8.Encode(i.repository)) && b == Frame(Utf8.Encode(i.subject))
    requires c == Frame(Utf8.Encode(i.revision)) && d == Frame(Utf8.Encode(i.causalRoot))
    ensures DecodePayload(domain, domain + a + b + c + d) == Some(i)
  {
    var values := [i.repository, i.subject, i.revision, i.causalRoot];
    ComponentsDecode(values);
    FourComponents(i.repository, i.subject, i.revision, i.causalRoot);
    Regrouped(domain, a, b, c, d);
    assert (domain + Components(values))[|domain|..] == Components(values);
  }

  // A key exists exactly for four non-empty identities that fit their frames.
  lemma DeriveSucceedsExactly(i: Identity)
    ensures DeriveExecutionKey(i).Ok? <==>
            Admissible(i.repository) && Admissible(i.subject) && Admissible(i.revision) && Admissible(i.causalRoot)
  {
  }

  // All four identities can be read back from a key.
  lemma DeriveDecodes(i: Identity)
    requires DeriveExecutionKey(i).Ok?
    ensures DecodeExecutionKey(DeriveExecutionKey(i).value) == Some(i)
  {
    var a, b := Frame(Utf8.Encode(i.repository)), Frame(Utf8.Encode(i.subject));
    var c, d := Frame(Utf8.Encode(i.revision)), Frame(Utf8.Encode(i.causalRoot));
    PayloadDecodes(Domain(), i, a, b, c, d);
    Base64Url.EncodeDecodes(Domain() + a + b + c + d);
    var body := Base64Url.Encode(Domain() + a + b + c + d);
    assert (KEY_PREFIX + body)[|KEY_PREFIX|..] == body;
  }

  // Distinct identities never share a key.
  lemma DeriveInjective(i: Identity, j: Identity)
    requires DeriveExecutionKey(i).Ok? && DeriveExecutionKey(i) == DeriveExecutionKey(j)
    ensures i == j
  {
    DeriveDecodes(i);
    DeriveDecodes(j);
  }

  // A key that cannot be derived is refused for the first identity, in this order, that is empty or too long.
  lemma DeriveFailsForTheFirst(i: Identity)
    requires DeriveExecutionKey(i).Err?
    ensures
      var (first, name) :=
        if !Admissible(i.repository) then (i.repository, "RepositoryIdentity")
        else if !Admissible(i.subject) then (i.subject, "SubjectIdentity")
        else if !Admissible(i.revision) then (i.revision, "RevisionIdentity")
        else (i.causalRoot, "CausalRoot");
      DeriveExecutionKey(i).error == if first == "" then EmptyComponent(name) else ComponentTooLong(name)
  {
  }
}
