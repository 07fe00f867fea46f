/**
 What a browser signs when it vouches for another one, and how the signature
 travels: canonical unpadded base64url (sections 5 and 3.5 of RFC 4648).
 */
module Endorsement {
  import opened Base

  const UUID_BYTES := 16
  const PUBLIC_KEY_BYTES := 32
  const SIGNATURE_BYTES := 64
  const SIGNATURE_WIRE_LENGTH := 86

  // ---- base64url -------------------------------------------------------------

  type Sextet = n: int | 0 <= n < 64

  function Digit(n: Sextet): (c: char) {
    if n < 26 then 'A' + n as char
    else if n < 52 then 'a' + (n - 26) as char
    else if n < 62 then '0' + (n - 52) as char
    else if n == 62 then '-' else '_'
  }

  function Undigit(c: char): (r: Option<Sextet>)
    ensures r.Some? ==> Digit(r.value) == c
  {
    if 'A' <= c <= 'Z' then Some((c - 'A') as int)
    else if 'a' <= c <= 'z' then Some((c - 'a') as int + 26)
    else if '0' <= c <= '9' then Some((c - '0') as int + 52)
    else if c == '-' then Some(62)
    else if c == '_' then Some(63)
    else None
  }

  lemma UndigitDigit(n: Sextet)
    ensures Undigit(Digit(n)) == Some(n)
  {
  }

  function Encode(b: seq<Byte>): (s: string)
  {
    if b == [] then []
    else if |b| == 1 then [Digit(b[0] / 4), Digit(b[0] % 4 * 16)]
    else if |b| == 2 then [Digit(b[0] / 4), Digit(b[0] % 4 * 16 + b[1] / 16), Digit(b[1] % 16 * 4)]
    else Group(b[0], b[1], b[2]) + Encode(b[3..])
  }

  /** Three bytes as four digits. */
  function Group(x: Byte, y: Byte, z: Byte): (s: string)
    ensures |s| == 4
  {
    [Digit(x / 4), Digit(x % 4 * 16 + y / 16), Digit(y % 16 * 4 + z / 64), Digit(z % 64)]
  }

  /** Four digits as three bytes. */
  function Ungroup(a: Sextet, b: Sextet, c: Sextet, d: Sextet): (r: seq<Byte>)
    ensures |r| == 3
  {
    [a * 4 + b / 16, b % 16 * 16 + c / 4, c % 4 * 64 + d]
  }

  /** Strict decoding: unused trailing bits must be zero. */
  function Decode(s: string): (r: Option<seq<Byte>>)
  {
    if s == [] then Some([])
    else if |s| == 1 then None
    else
      var a, b := Undigit(s[0]), Undigit(s[1]);
      if a.None? || b.None? then None
      else if |s| == 2 then
        if b.value % 16 == 0 then Some([a.value * 4 + b.value / 16]) else None
      else
        var c := Undigit(s[2]);
        if c.None? then None
        else if |s| == 3 then
          if c.value % 4 == 0 then Some([a.value * 4 + b.value / 16, b.value % 16 * 16 + c.value / 4]) else None
        else
          var d, rest := Undigit(s[3]), Decode(s[4..]);
          if d.None? || rest.None? then None
          else Some(Ungroup(a.value, b.value, c.value, d.value) + rest.value)
  }

  lemma OneByteRoundTrip(x: Byte)
    ensures Decode([Digit(x / 4), Digit(x % 4 * 16)]) == Some([x])
  {
    UndigitDigit(x / 4);
    UndigitDigit(x % 4 * 16);
    assert x % 4 * 16 % 16 == 0 && x % 4 * 16 / 16 == x % 4;
  }

  lemma TwoByteRoundTrip(x: Byte, y: Byte)
    ensures Decode([Digit(x / 4), Digit(x % 4 * 16 + y / 16), Digit(y % 16 * 4)]) == Some([x, y])
  {
    var m, l := x % 4 * 16 + y / 16, y % 16 * 4;
    UndigitDigit(x / 4);
    UndigitDigit(m);
    UndigitDigit(l);
    assert m / 16 == x % 4 && m % 16 == y / 16 && l / 4 == y % 16 && l % 4 == 0;
  }

  lemma DecodeEncodeShort(b: seq<Byte>)
    requires |b| < 3
    ensures Decode(Encode(b)) == Some(b)
    ensures |Encode(b)| == (|b| * 4 + 2) / 3
  {
    if |b| == 1 {
      OneByteRoundTrip(b[0]);
      assert b == [b[0]];
    } else if |b| == 2 {
      TwoByteRoundTrip(b[0], b[1]);
      assert b == [b[0], b[1]];
    }
  }

  lemma DecodeGroup(x: Byte, y: Byte, z: Byte, t: string)
    requires Decode(t).Some?
    ensures Decode(Group(x, y, z) + t) == Some([x, y, z] + Decode(t).value)
  {
    var s := Group(x, y, z) + t;
    assert s[4..] == t;
    UndigitDigit(x / 4);
    UndigitDigit(x % 4 * 16 + y / 16);
    UndigitDigit(y % 16 * 4 + z / 64);
    UndigitDigit(z % 64);
    UngroupGroup(x, y, z);
  }

  lemma {:induction false} DecodeEncode(b: seq<Byte>)
    ensures Decode(Encode(b)) == Some(b)
    ensures |Encode(b)| == (|b| * 4 + 2) / 3
  {
    if |b| < 3 {
      DecodeEncodeShort(b);
    } else {
      DecodeEncode(b[3..]);
      DecodeGroup(b[0], b[1], b[2], Encode(b[3..]));
      assert b == [b[0], b[1], b[2]] + b[3..];
    }
  }

  lemma UngroupGroup(x: Byte, y: Byte, z: Byte)
    ensures Ungroup(x / 4, x % 4 * 16 + y / 16, y % 16 * 4 + z / 64, z % 64) == [x, y, z]
  {
  }

  lemma GroupUngroup(a: Sextet, b: Sextet, c: Sextet, d: Sextet)
    ensures var r := Ungroup(a, b, c, d); Group(r[0], r[1], r[2]) == [Digit(a), Digit(b), Digit(c), Digit(d)]
  {
    var r := Ungroup(a, b, c, d);
    assert r[0] / 4 == a && r[0] % 4 == b / 16;
    assert r[1] / 16 == b % 16 && r[1] % 16 == c / 4;
    assert r[2] / 64 == c % 4 && r[2] % 64 == d;
  }

  /** The bytes of an incomplete group give back its digits. */
  lemma ShortGroup(a: Sextet, b: Sextet, c: Sextet)
    ensures var x, y := a * 4 + b / 16, b % 16 * 16 + c / 4;
            x / 4 == a && x % 4 * 16 + y / 16 == b && (b % 16 == 0 ==> x % 4 * 16 == b)
            && (c % 4 == 0 ==> y % 16 * 4 == c)
  {
  }

  /** Decoding accepts only what encoding produces. */
  lemma {:induction false} EncodeDecode(s: string)
    requires Decode(s).Some?
    ensures Encode(Decode(s).value) == s
  {
    if |s| < 4 {
      EncodeDecodeShort(s);
    } else {
      EncodeDecode(s[4..]);
      EncodeDecodeGroup(s);
    }
  }

  lemma EncodeDecodeShort(s: string)
    requires Decode(s).Some? && |s| < 4
    ensures Encode(Decode(s).value) == s
  {
    if |s| == 2 {
      EncodeDecodeTwo(s);
    } else if |s| == 3 {
      EncodeDecodeThree(s);
    }
  }

  lemma EncodeDecodeTwo(s: string)
    requires Decode(s).Some? && |s| == 2
    ensures Encode(Decode(s).value) == s
  {
    var a: int, b: int := Undigit(s[0]).value, Undigit(s[1]).value;
    ShortGroup(a, b, 0);
    assert Decode(s) == Some([a * 4 + b / 16]);
    assert s == [s[0], s[1]];
  }

  lemma EncodeDecodeThree(s: string)
    requires Decode(s).Some? && |s| == 3
    ensures Encode(Decode(s).value) == s
  {
    DecodeThree(s);
    var a: Sextet, b: Sextet, c: Sextet := Undigit(s[0]).value, Undigit(s[1]).value, Undigit(s[2]).value;
    ShortGroup(a, b, c);
    EncodeTwo(a * 4 + b / 16, b % 16 * 16 + c / 4);
    assert s == [Digit(a), Digit(b), Digit(c)];
  }

  lemma DecodeThree(s: string)
    requires Decode(s).Some? && |s| == 3
    ensures Undigit(s[0]).Some? && Undigit(s[1]).Some? && Undigit(s[2]).Some? && Undigit(s[2]).value % 4 == 0
    ensures var a: int, b: int, c: int := Undigit(s[0]).value, Undigit(s[1]).value, Undigit(s[2]).value;
            Decode(s) == Some([a * 4 + b / 16, b % 16 * 16 + c / 4])
  {
  }

  lemma EncodeTwo(x: Byte, y: Byte)
    ensures Encode([x, y]) == [Digit(x / 4), Digit(x % 4 * 16 + y / 16), Digit(y % 16 * 4)]
  {
  }

  lemma EncodeDecodeGroup(s: string)
    requires Decode(s).Some? && |s| >= 4
    ensures Decode(s[4..]).Some?
    ensures Encode(Decode(s).value) == s[..4] + Encode(Decode(s[4..]).value)
  {
    var a, b, c, d := Undigit(s[0]).value, Undigit(s[1]).value, Undigit(s[2]).value, Undigit(s[3]).value;
    var g, rest := Ungroup(a, b, c, d), Decode(s[4..]).value;
    GroupUngroup(a, b, c, d);
    assert (g + rest)[3..] == rest;
    assert s[..4] == [s[0], s[1], s[2], s[3]];
  }

  /** The digits, in the order of table 2 of RFC 4648. */
  lemma DigitsAre(n: Sextet)
    ensures Digit(0) == 'A' && Digit(26) == 'a' && Digit(52) == '0' && Digit(62) == '-' && Digit(63) == '_'
    ensures n !in {0, 26, 52, 62, 63} ==> Digit(n) as int == Digit(n - 1) as int + 1
  {
  }

  // ---- Signatures on the wire ----------------------------------------------

  function SignatureToWire(signature: seq<Byte>): (s: string) { Encode(signature) }

  function SignatureFromWire(value: string): (r: Option<seq<Byte>>)
  {
    if |value| != SIGNATURE_WIRE_LENGTH || '=' in value then None
    else match Decode(value)
      case None => None
      case Some(decoded) =>
        if |decoded| != SIGNATURE_BYTES then None
        else if Encode(decoded) != value then None
        else Some(decoded)
  }

  lemma {:induction false} EncodeHasNoPadding(b: seq<Byte>)
    ensures '=' !in Encode(b)
  {
    if |b| >= 3 {
      EncodeHasNoPadding(b[3..]);
    }
  }

  /** The accepted strings are exactly the canonical encodings of 64 bytes, and decoding inverts them. */
  lemma WireIsCanonical(value: string, signature: seq<Byte>)
    ensures SignatureFromWire(value) == Some(signature)
       <==> |signature| == SIGNATURE_BYTES && value == SignatureToWire(signature)
  {
    if |signature| == SIGNATURE_BYTES && value == SignatureToWire(signature) {
      DecodeEncode(signature);
      EncodeHasNoPadding(signature);
    }
  }

  /** The re-encoding comparison never rejects what strict decoding accepted at 64 bytes. */
  lemma ReencodingIsRedundant(value: string)
    requires Decode(value).Some? && |Decode(value).value| == SIGNATURE_BYTES
    ensures SignatureFromWire(value) == Decode(value)
  {
    EncodeDecode(value);
    DecodeEncode(Decode(value).value);
    EncodeHasNoPadding(Decode(value).value);
  }

  // ---- Transcripts -----------------------------------------------------------

  type PublicKey = seq<Byte>
  type Signature = seq<Byte>

  /** "SPAWN-BROWSER-ENDORSE-V1" */
  const BROWSER_MAGIC: seq<Byte> :=
    [0x53, 0x50, 0x41, 0x57, 0x4e, 0x2d, 0x42, 0x52, 0x4f, 0x57, 0x53, 0x45,
     0x52, 0x2d, 0x45, 0x4e, 0x44, 0x4f, 0x52, 0x53, 0x45, 0x2d, 0x56, 0x31]
  /** "SPAWN-ACCT-ENDORSE-V1" */
  const ACCT_MAGIC: seq<Byte> :=
    [0x53, 0x50, 0x41, 0x57, 0x4e, 0x2d, 0x41, 0x43, 0x43, 0x54, 0x2d,
     0x45, 0x4e, 0x44, 0x4f, 0x52, 0x53, 0x45, 0x2d, 0x56, 0x31]
  const VERSION: Byte := 1

  lemma MagicsAre(i: nat)
    ensures |BROWSER_MAGIC| == |"SPAWN-BROWSER-ENDORSE-V1"| && |ACCT_MAGIC| == |"SPAWN-ACCT-ENDORSE-V1"|
    ensures i < |BROWSER_MAGIC| ==> BROWSER_MAGIC[i] as char == "SPAWN-BROWSER-ENDORSE-V1"[i]
    ensures i < |ACCT_MAGIC| ==> ACCT_MAGIC[i] as char == "SPAWN-ACCT-ENDORSE-V1"[i]
  {
  }

  datatype BrowserTranscript = BrowserTranscript(
    userId: seq<Byte>, hostKey: PublicKey, endorserKey: PublicKey, endorsedKey: PublicKey, deviceId: seq<Byte>)
  {
    predicate WellSized() {
      && |userId| == UUID_BYTES && |deviceId| == UUID_BYTES
      && |hostKey| == PUBLIC_KEY_BYTES && |endorserKey| == PUBLIC_KEY_BYTES && |endorsedKey| == PUBLIC_KEY_BYTES
    }

    function Encoded(): (b: seq<Byte>) {
      BROWSER_MAGIC + [VERSION] + userId + hostKey + endorserKey + endorsedKey + deviceId
    }
  }

  datatype AcctTranscript = AcctTranscript(
    accountId: seq<Byte>, endorserKey: PublicKey, endorsedKey: PublicKey, deviceId: seq<Byte>)
  {
    predicate WellSized() {
      && |accountId| == UUID_BYTES && |deviceId| == UUID_BYTES
      && |endorserKey| == PUBLIC_KEY_BYTES && |endorsedKey| == PUBLIC_KEY_BYTES
    }

    function Encoded(): (b: seq<Byte>) {
      ACCT_MAGIC + [VERSION] + accountId + endorserKey + endorsedKey + deviceId
    }
  }

  /** Reading a per-host transcript back: every field sits at a fixed place. */
  lemma BrowserFieldsAt(t: BrowserTranscript)
    requires t.WellSized()
    ensures var b := t.Encoded();
            |b| == 153 && b[25..41] == t.userId && b[41..73] == t.hostKey && b[73..105] == t.endorserKey
            && b[105..137] == t.endorsedKey && b[137..] == t.deviceId
  {
  }

  lemma AcctFieldsAt(t: AcctTranscript)
    requires t.WellSized()
    ensures var b := t.Encoded();
            |b| == 118 && b[22..38] == t.accountId && b[38..70] == t.endorserKey
            && b[70..102] == t.endorsedKey && b[102..] == t.deviceId
  {
  }

  lemma BrowserEncodingInjective(t: BrowserTranscript, u: BrowserTranscript)
    requires t.WellSized() && u.WellSized() && t.Encoded() == u.Encoded()
    ensures t == u
  {
    BrowserFieldsAt(t);
    BrowserFieldsAt(u);
  }

  lemma AcctEncodingInjective(t: AcctTranscript, u: AcctTranscript)
    requires t.WellSized() && u.WellSized() && t.Encoded() == u.Encoded()
    ensures t == u
  {
    AcctFieldsAt(t);
    AcctFieldsAt(u);
  }

  /** No account transcript is the beginning, the whole or an extension of a per-host one. */
  lemma EncodingsDisjoint(t: BrowserTranscript, u: AcctTranscript)
    ensures !(t.Encoded() <= u.Encoded()) && !(u.Encoded() <= t.Encoded())
  {
    assert t.Encoded()[6] == 0x42 && u.Encoded()[6] == 0x41;
  }

  // ---- Verification ------------------------------------------------------------

  /** Whether a signature over a message verifies under a key: the library's strict check. */
  type Verifier = (PublicKey, seq<Byte>, Signature) -> bool

  datatype EndorsementError = WrongHost | UntrustedEndorser | SelfEndorsement | InvalidSignature

  function BuildBrowser(userId: seq<Byte>, hostKey: PublicKey, endorserKey: PublicKey, endorsedKey: PublicKey,
                        deviceId: seq<Byte>): (r: Result<BrowserTranscript, EndorsementError>)
  {
    if endorserKey == endorsedKey then Err(SelfEndorsement)
    else Ok(BrowserTranscript(userId, hostKey, endorserKey, endorsedKey, deviceId))
  }

  function VerifyBrowser(t: BrowserTranscript, signature: Signature, hostKey: PublicKey,
                         trusted: seq<PublicKey>, verify: Verifier): (r: Result<(), EndorsementError>)
    ensures r.Ok? <==> t.hostKey == hostKey && t.endorserKey in trusted && verify(t.endorserKey, t.Encoded(), signature)
  {
    if t.hostKey != hostKey then Err(WrongHost)
    else if t.endorserKey !in trusted then Err(UntrustedEndorser)
    else if !verify(t.endorserKey, t.Encoded(), signature) then Err(InvalidSignature)
    else Ok(())
  }

  function VerifyAcct(t: AcctTranscript, signature: Signature, trusted: seq<PublicKey>, verify: Verifier)
    : (r: Result<(), EndorsementError>)
    ensures r.Ok? <==> t.endorserKey in trusted && verify(t.endorserKey, t.Encoded(), signature)
  {
    if t.endorserKey !in trusted then Err(UntrustedEndorser)
    else if !verify(t.endorserKey, t.Encoded(), signature) then Err(InvalidSignature)
    else Ok(())
  }

  /** A signature that signs one message under a key. */
  ghost predicate SignsOne(verify: Verifier, key: PublicKey, signature: Signature) {
    forall m, m' :: verify(key, m, signature) && verify(key, m', signature) ==> m == m'
  }

  /**
   One signature, one endorsement: it cannot be moved to another host, account,
   device or key, nor passed between the per-host and the account form.
   */
  lemma NoRepointing(t: BrowserTranscript, u: BrowserTranscript, a: AcctTranscript, signature: Signature,
                     host: PublicKey, otherHost: PublicKey, trusted: seq<PublicKey>, verify: Verifier)
    requires t.WellSized() && u.WellSized() && a.WellSized()
    requires t.endorserKey == u.endorserKey == a.endorserKey && SignsOne(verify, t.endorserKey, signature)
    requires VerifyBrowser(t, signature, host, trusted, verify).Ok?
    ensures VerifyBrowser(u, signature, otherHost, trusted, verify).Ok? ==> u == t && otherHost == host
    ensures VerifyAcct(a, signature, trusted, verify).Err?
  {
    if VerifyBrowser(u, signature, otherHost, trusted, verify).Ok? {
      BrowserEncodingInjective(t, u);
    }
    EncodingsDisjoint(t, a);
  }
}
