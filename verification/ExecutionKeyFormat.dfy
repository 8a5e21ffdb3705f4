/** The key format in bytes and letters, down to one key that is frozen with the format. */
module ExecutionKeyFormat {
  import opened Prelude
  import opened Bytes
  import opened ExecutionIdentity
  import Utf8
  import Base64Url

  lemma DomainBytes()
    ensures Domain() == [117, 109, 98, 105, 108, 105, 99, 97, 108, 45, 101, 120, 101, 99, 117, 116, 105, 111, 110, 45,
                         107, 101, 121, 45, 118, 49, 0]
  {
  }

  // Every key, in the numbers and letters of the format: a tag, and in base64url the domain prefix and four texts in
  // UTF-8, each with its length in eight bytes.
  lemma KeyFormat(i: Identity)
    requires DeriveExecutionKey(i).Ok?
    ensures
      var (a, b) := (Utf8.Encode(i.repository), Utf8.Encode(i.subject));
      var (c, d) := (Utf8.Encode(i.revision), Utf8.Encode(i.causalRoot));
      DeriveExecutionKey(i).value
      == "uek1:" + Base64Url.Encode(
           [117, 109, 98, 105, 108, 105, 99, 97, 108, 45, 101, 120, 101, 99, 117, 116, 105, 111, 110, 45,
            107, 101, 121, 45, 118, 49, 0]
           + (U64(|a|) + a) + (U64(|b|) + b) + (U64(|c|) + c) + (U64(|d|) + d))
  {
    DomainBytes();
    hide Domain, Base64Url.Encode, Utf8.Encode, U64;
  }

  lemma AsciiIsUtf8(s: string)
    requires IsAscii(s)
    ensures Utf8.Encode(s) == Ascii(s)
  {
    Utf8.EncodeAscii(s);
  }

  lemma FrameOfAscii(s: string)
    requires IsAscii(s) && |s| < 256
    ensures Frame(Utf8.Encode(s)) == [0, 0, 0, 0, 0, 0, 0, |s|] + Ascii(s)
  {
    AsciiIsUtf8(s);
    SmallU64(|s|);
  }

  // ---- The key that the format freezes for four given identities ----

  // The groups of its payload: three of the domain prefix, two of the framed repository, two of the framed subject,
  // and the rest of the framed revision and causal root.
  const GOLDEN: seq<Blob> := [
    [117, 109, 98, 105, 108, 105, 99, 97, 108],
    [45, 101, 120, 101, 99, 117, 116, 105, 111],
    [110, 45, 107, 101, 121, 45, 118, 49, 0],
    [0, 0, 0, 0, 0, 0],
    [0, 4, 114, 101, 112, 111],
    [0, 0, 0, 0, 0, 0, 0, 7, 115],
    [117, 98, 106, 101, 99, 116],
    [0, 0, 0, 0, 0, 0],
    [0, 8, 114, 101, 118, 105],
    [115, 105, 111, 110, 0, 0],
    [0, 0, 0, 0, 0, 4],
    [114, 111, 111, 116]]

  lemma FirstGroup()
    ensures Base64Url.Encode([117, 109, 98, 105, 108, 105, 99, 97, 108]) == "dW1iaWxpY2Fs"
  {
    hide Base64Url.Encode;
    Base64Url.EncodeNothing();
    Base64Url.EncodeGroup(99, 97, 108, []);
    Base64Url.EncodeGroup(105, 108, 105, [99, 97, 108]);
    Base64Url.EncodeGroup(117, 109, 98, [105, 108, 105, 99, 97, 108]);
    assert [99, 97, 108] + [] == [99, 97, 108];
    assert [105, 108, 105] + [99, 97, 108] == [105, 108, 105, 99, 97, 108];
    assert [117, 109, 98] + [105, 108, 105, 99, 97, 108] == [117, 109, 98, 105, 108, 105, 99, 97, 108];
  }

  lemma SecondGroup()
    ensures Base64Url.Encode([45, 101, 120, 101, 99, 117, 116, 105, 111]) == "LWV4ZWN1dGlv"
  {
    hide Base64Url.Encode;
    assert Base64Url.Encode([116, 105, 111]) == "dGlv" by {
      Base64Url.EncodeNothing();
      Base64Url.EncodeGroup(116, 105, 111, []);
      assert [116, 105, 111] + [] == [116, 105, 111];
    }
    assert Base64Url.Encode([101, 99, 117, 116, 105, 111]) == "ZWN1dGlv" by {
      Base64Url.EncodeGroup(101, 99, 117, [116, 105, 111]);
      assert [101, 99, 117] + [116, 105, 111] == [101, 99, 117, 116, 105, 111];
    }
    Base64Url.EncodeGroup(45, 101, 120, [101, 99, 117, 116, 105, 111]);
    assert [45, 101, 120] + [101, 99, 117, 116, 105, 111] == [45, 101, 120, 101, 99, 117, 116, 105, 111];
  }

  lemma ThirdGroup()
    ensures Base64Url.Encode([110, 45, 107, 101, 121, 45, 118, 49, 0]) == "bi1rZXktdjEA"
  {
    hide Base64Url.Encode;
    Base64Url.EncodeNothing();
    Base64Url.EncodeGroup(118, 49, 0, []);
    Base64Url.EncodeGroup(101, 121, 45, [118, 49, 0]);
    Base64Url.EncodeGroup(110, 45, 107, [101, 121, 45, 118, 49, 0]);
    assert [118, 49, 0] + [] == [118, 49, 0];
    assert [101, 121, 45] + [118, 49, 0] == [101, 121, 45, 118, 49, 0];
    assert [110, 45, 107] + [101, 121, 45, 118, 49, 0] == [110, 45, 107, 101, 121, 45, 118, 49, 0];
  }

  lemma FourthGroup()
    ensures Base64Url.Encode([0, 0, 0, 0, 0, 0]) == "AAAAAAAA"
  {
  }

  lemma FifthGroup()
    ensures Base64Url.Encode([0, 4, 114, 101, 112, 111]) == "AARyZXBv"
  {
  }

  lemma SixthGroup()
    ensures Base64Url.Encode([0, 0, 0, 0, 0, 0, 0, 7, 115]) == "AAAAAAAAAAdz"
  {
    hide Base64Url.Encode;
    Base64Url.EncodeNothing();
    Base64Url.EncodeGroup(0, 7, 115, []);
    Base64Url.EncodeGroup(0, 0, 0, [0, 7, 115]);
    Base64Url.EncodeGroup(0, 0, 0, [0, 0, 0, 0, 7, 115]);
    assert [0, 7, 115] + [] == [0, 7, 115];
    assert [0, 0, 0] + [0, 7, 115] == [0, 0, 0, 0, 7, 115];
    assert [0, 0, 0] + [0, 0, 0, 0, 7, 115] == [0, 0, 0, 0, 0, 0, 0, 7, 115];
  }

  lemma SeventhGroup()
    ensures Base64Url.Encode([117, 98, 106, 101, 99, 116]) == "dWJqZWN0"
  {
  }

  lemma EighthGroup()
    ensures Base64Url.Encode([0, 0, 0, 0, 0, 0]) == "AAAAAAAA"
  {
  }

  lemma NinthGroup()
    ensures Base64Url.Encode([0, 8, 114, 101, 118, 105]) == "AAhyZXZp"
  {
  }

  lemma TenthGroup()
    ensures Base64Url.Encode([115, 105, 111, 110, 0, 0]) == "c2lvbgAA"
  {
  }

  lemma EleventhGroup()
    ensures Base64Url.Encode([0, 0, 0, 0, 0, 4]) == "AAAAAAAE"
  {
  }

  lemma TwelfthGroup()
    ensures Base64Url.Encode([114, 111, 111, 116]) == "cm9vdA=="
  {
  }

  lemma FramesOfAscii(s: string)
    requires IsAscii(s) && 0 < |s| < 256
    ensures FrameComponent("RepositoryIdentity", s) == FrameComponent("SubjectIdentity", s)
         == FrameComponent("RevisionIdentity", s) == FrameComponent("CausalRoot", s)
         == Ok([0, 0, 0, 0, 0, 0, 0, |s|] + Ascii(s))
  {
    FrameOfAscii(s);
    AsciiIsUtf8(s);
  }

  lemma GoldenParts()
    ensures Domain() == GOLDEN[0] + GOLDEN[1] + GOLDEN[2]
    ensures [0, 0, 0, 0, 0, 0, 0, 4] + Ascii("repo") == GOLDEN[3] + GOLDEN[4]
    ensures [0, 0, 0, 0, 0, 0, 0, 7] + Ascii("subject") == GOLDEN[5] + GOLDEN[6]
  {
    DomainBytes();
  }

  lemma GoldenEnd()
    ensures [0, 0, 0, 0, 0, 0, 0, 8] + Ascii("revision") == GOLDEN[7] + GOLDEN[8] + GOLDEN[9][..4]
    ensures [0, 0, 0, 0, 0, 0, 0, 4] + Ascii("root") == GOLDEN[9][4..] + GOLDEN[10] + GOLDEN[11]
  {
  }

  lemma PartsRegroup(g: seq<Blob>, x: Blob, y: Blob)
    requires |g| == 12 && x + y == g[9]
    ensures (g[0] + g[1] + g[2]) + (g[3] + g[4]) + (g[5] + g[6]) + (g[7] + g[8] + x) + (y + g[10] + g[11])
         == g[0] + (g[1] + (g[2] + (g[3] + (g[4] + (g[5] + (g[6] + (g[7] + (g[8] + (g[9] + (g[10] + g[11]))))))))))
  {
    assert (g[7] + g[8] + x) + (y + g[10] + g[11]) == g[7] + (g[8] + ((x + y) + (g[10] + g[11])));
  }

  lemma GroupsEncode(g: seq<Blob>, e: seq<string>)
    requires |g| == |e| == 12 && forall i :: 0 <= i < 11 ==> |g[i]| % 3 == 0
    requires forall i :: 0 <= i < 12 ==> Base64Url.Encode(g[i]) == e[i]
    ensures Base64Url.Encode(
              g[0] + (g[1] + (g[2] + (g[3] + (g[4] + (g[5] + (g[6] + (g[7] + (g[8] + (g[9] + (g[10] + g[11])))))))))))
         == e[0] + (e[1] + (e[2] + (e[3] + (e[4] + (e[5] + (e[6] + (e[7] + (e[8] + (e[9] + (e[10] + e[11]))))))))))
  {
    hide Base64Url.Encode;
    Base64Url.EncodeJoins(g[10], g[11]);
    Base64Url.EncodeJoins(g[9], g[10] + g[11]);
    Base64Url.EncodeJoins(g[8], g[9] + (g[10] + g[11]));
    Base64Url.EncodeJoins(g[7], g[8] + (g[9] + (g[10] + g[11])));
    Base64Url.EncodeJoins(g[6], g[7] + (g[8] + (g[9] + (g[10] + g[11]))));
    Base64Url.EncodeJoins(g[5], g[6] + (g[7] + (g[8] + (g[9] + (g[10] + g[11])))));
    Base64Url.EncodeJoins(g[4], g[5] + (g[6] + (g[7] + (g[8] + (g[9] + (g[10] + g[11]))))));
    Base64Url.EncodeJoins(g[3], g[4] + (g[5] + (g[6] + (g[7] + (g[8] + (g[9] + (g[10] + g[11])))))));
    Base64Url.EncodeJoins(g[2], g[3] + (g[4] + (g[5] + (g[6] + (g[7] + (g[8] + (g[9] + (g[10] + g[11]))))))));
    Base64Url.EncodeJoins(
      g[1], g[2] + (g[3] + (g[4] + (g[5] + (g[6] + (g[7] + (g[8] + (g[9] + (g[10] + g[11])))))))));
    Base64Url.EncodeJoins(
      g[0], g[1] + (g[2] + (g[3] + (g[4] + (g[5] + (g[6] + (g[7] + (g[8] + (g[9] + (g[10] + g[11]))))))))));
  }

  lemma LineOfRepository()
    ensures "dW1iaWxpY2Fs" + ("LWV4ZWN1dGlv" + ("bi1rZXktdjEA" + ("AAAAAAAA" + "AARyZXBv")))
         == "dW1iaWxpY2FsLWV4ZWN1dGlvbi1rZXktdjEAAAAAAAAAAARyZXBv"
  {
  }

  lemma LineOfSubject()
    ensures "AAAAAAAAAAdz" + ("dWJqZWN0") == "AAAAAAAAAAdzdWJqZWN0"
  {
  }

  lemma LineOfRevision()
    ensures "AAAAAAAA" + ("AAhyZXZp") == "AAAAAAAAAAhyZXZp"
  {
  }

  lemma LineOfRoot()
    ensures "c2lvbgAA" + ("AAAAAAAE" + ("cm9vdA==")) == "c2lvbgAAAAAAAAAEcm9vdA=="
  {
  }

  lemma LinesRegroup(p: string, e: seq<string>)
    requires |e| == 12
    ensures p + (e[0] + (e[1] + (e[2] + (e[3] + (e[4] + (e[5] +
                (e[6] + (e[7] + (e[8] + (e[9] + (e[10] + e[11])))))))))))
         == p + (e[0] + (e[1] + (e[2] + (e[3] + e[4])))) + (e[5] + e[6]) + (e[7] + e[8]) + (e[9] + (e[10] + e[11]))
  {
  }

  // The key that the format freezes for four given identities.
  lemma GoldenKey()
    ensures DeriveExecutionKey(Identity("repo", "subject", "revision", "root"))
         == Ok("uek1:" + "dW1iaWxpY2FsLWV4ZWN1dGlvbi1rZXktdjEAAAAAAAAAAARyZXBv" + "AAAAAAAAAAdzdWJqZWN0" +
               "AAAAAAAAAAhyZXZp" + "c2lvbgAAAAAAAAAEcm9vdA==")
  {
    hide FrameComponent, Base64Url.Encode, Ascii, Domain;
    FramesOfAscii("repo");
    FramesOfAscii("subject");
    FramesOfAscii("revision");
    FramesOfAscii("root");
    GoldenParts();
    GoldenEnd();
    PartsRegroup(GOLDEN, GOLDEN[9][..4], GOLDEN[9][4..]);
    FirstGroup();
    SecondGroup();
    ThirdGroup();
    FourthGroup();
    FifthGroup();
    SixthGroup();
    SeventhGroup();
    EighthGroup();
    NinthGroup();
    TenthGroup();
    EleventhGroup();
    TwelfthGroup();
    var e := ["dW1iaWxpY2Fs", "LWV4ZWN1dGlv", "bi1rZXktdjEA", "AAAAAAAA", "AARyZXBv", "AAAAAAAAAAdz", "dWJqZWN0",
              "AAAAAAAA", "AAhyZXZp", "c2lvbgAA", "AAAAAAAE", "cm9vdA=="];
    GroupsEncode(GOLDEN, e);
    LineOfRepository();
    LineOfSubject();
    LineOfRevision();
    LineOfRoot();
    LinesRegroup(KEY_PREFIX, e);
  }
}
