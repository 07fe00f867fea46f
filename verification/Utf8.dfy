/**
 UTF-8 (sections 3 and 4 of RFC 3629): the encoding of a scalar value, the
 standard library's validation of a byte buffer, and a one-shot decoder that
 skips whatever is ill-formed.
 */
module Utf8 {
  import opened Base

  predicate Scalar(cp: int) { 0 <= cp <= 0x10ffff && !(0xd800 <= cp <= 0xdfff) }

  function Encode(cp: int): (r: seq<Byte>)
    requires Scalar(cp)
    ensures 1 <= |r| <= 4
  {
    if cp < 0x80 then [cp]
    else if cp < 0x800 then [0xc0 + cp / 64, 0x80 + cp % 64]
    else if cp < 0x10000 then [0xe0 + cp / 4096, 0x80 + cp / 64 % 64, 0x80 + cp % 64]
    else [0xf0 + cp / 262144, 0x80 + cp / 4096 % 64, 0x80 + cp / 64 % 64, 0x80 + cp % 64]
  }

  /** One example for each length, from the tables of Unicode. */
  lemma EncodeExamples()
    ensures Encode(0x24) == [0x24] && Encode(0xe9) == [0xc3, 0xa9]
    ensures Encode(0x20ac) == [0xe2, 0x82, 0xac] && Encode(0x1f600) == [0xf0, 0x9f, 0x98, 0x80]
  {
  }

  predicate Continuation(b: Byte) { 0x80 <= b <= 0xbf }

  /** Which second bytes may follow a lead byte. */
  predicate SecondOk(lead: Byte, b: Byte) {
    if lead == 0xe0 then 0xa0 <= b <= 0xbf
    else if lead == 0xed then 0x80 <= b <= 0x9f
    else if lead == 0xf0 then 0x90 <= b <= 0xbf
    else if lead == 0xf4 then 0x80 <= b <= 0x8f
    else Continuation(b)
  }

  /** Length announced by a lead byte; 0 for a byte that leads nothing. */
  function Width(lead: Byte): (w: nat)
    ensures w <= 4
  {
    if lead < 0x80 then 1
    else if 0xc2 <= lead <= 0xdf then 2
    else if 0xe0 <= lead <= 0xef then 3
    else if 0xf0 <= lead <= 0xf4 then 4
    else 0
  }

  /** Six payload bits per byte, most significant first. */
  function Pack(a: int, b: int, c: int, d: int): (cp: int) {
    a * 262144 + b * 4096 + c * 64 + d
  }

  lemma PackDigits(a: int, b: int, c: int, d: int)
    requires 0 <= b < 64 && 0 <= c < 64 && 0 <= d < 64
    ensures var cp := Pack(a, b, c, d);
            cp % 64 == d && cp / 64 % 64 == c && cp / 4096 % 64 == b && cp / 262144 == a
            && cp / 4096 == a * 64 + b && cp / 64 == a * 4096 + b * 64 + c
  {
    var cp := Pack(a, b, c, d);
    assert cp / 64 == a * 4096 + b * 64 + c;
    assert cp / 4096 == a * 64 + b;
  }

  lemma DigitsPack(cp: int)
    ensures Pack(cp / 262144, cp / 4096 % 64, cp / 64 % 64, cp % 64) == cp
  {
    var c := cp / 64;
    var b := c / 64;
    assert cp / 4096 == b && cp / 262144 == b / 64;
  }

  /** What stands at the front of a nonempty buffer. */
  datatype Head = Char(len: nat, cp: int) | Bad(skip: nat) | Incomplete

  function DecodeHead(s: seq<Byte>): (h: Head)
    requires s != []
  {
    var w := Width(s[0]);
    if w == 0 then Bad(1)
    else if w == 1 then Char(1, s[0])
    else if |s| == 1 then Incomplete
    else if !SecondOk(s[0], s[1]) then Bad(1)
    else if w == 2 then Char(2, Pack(0, 0, s[0] - 0xc0, s[1] - 0x80))
    else if |s| == 2 then Incomplete
    else if !Continuation(s[2]) then Bad(2)
    else if w == 3 then Char(3, Pack(0, s[0] - 0xe0, s[1] - 0x80, s[2] - 0x80))
    else if |s| == 3 then Incomplete
    else if !Continuation(s[3]) then Bad(3)
    else Char(4, Pack(s[0] - 0xf0, s[1] - 0x80, s[2] - 0x80, s[3] - 0x80))
  }

  /** The buffer begins with the encoding of `cp`. */
  predicate Begins(s: seq<Byte>, cp: int) { Scalar(cp) && Encode(cp) <= s }

  lemma TwoSound(s: seq<Byte>)
    requires |s| >= 2 && Width(s[0]) == 2 && SecondOk(s[0], s[1])
    ensures var cp := Pack(0, 0, s[0] - 0xc0, s[1] - 0x80); Begins(s, cp) && |Encode(cp)| == 2
  {
    PackDigits(0, 0, s[0] - 0xc0, s[1] - 0x80);
    assert s[..2] == [s[0], s[1]];
  }

  lemma ThreeSound(s: seq<Byte>)
    requires |s| >= 3 && Width(s[0]) == 3 && SecondOk(s[0], s[1]) && Continuation(s[2])
    ensures var cp := Pack(0, s[0] - 0xe0, s[1] - 0x80, s[2] - 0x80); Begins(s, cp) && |Encode(cp)| == 3
  {
    PackDigits(0, s[0] - 0xe0, s[1] - 0x80, s[2] - 0x80);
    assert s[..3] == [s[0], s[1], s[2]];
  }

  lemma FourSound(s: seq<Byte>)
    requires |s| >= 4 && Width(s[0]) == 4 && SecondOk(s[0], s[1]) && Continuation(s[2]) && Continuation(s[3])
    ensures var cp := Pack(s[0] - 0xf0, s[1] - 0x80, s[2] - 0x80, s[3] - 0x80); Begins(s, cp) && |Encode(cp)| == 4
  {
    PackDigits(s[0] - 0xf0, s[1] - 0x80, s[2] - 0x80, s[3] - 0x80);
    assert s[..4] == [s[0], s[1], s[2], s[3]];
  }

  lemma HeadSound(s: seq<Byte>)
    requires s != [] && DecodeHead(s).Char?
    ensures Begins(s, DecodeHead(s).cp) && |Encode(DecodeHead(s).cp)| == DecodeHead(s).len
  {
    var w := Width(s[0]);
    if w == 1 {
      assert s[..1] == [s[0]];
    } else if w == 2 {
      TwoSound(s);
    } else if w == 3 {
      ThreeSound(s);
    } else {
      FourSound(s);
    }
  }

  lemma HeadComplete(s: seq<Byte>, cp: int)
    requires Begins(s, cp)
    ensures s != [] && DecodeHead(s) == Char(|Encode(cp)|, cp)
  {
    var e := Encode(cp);
    assert |e| <= |s| && s[..|e|] == e;
    assert forall i :: 0 <= i < |e| ==> s[i] == e[i];
    if 0x80 <= cp < 0x800 {
      TwoComplete(s, cp);
    } else if 0x800 <= cp < 0x10000 {
      ThreeComplete(s, cp);
    } else if cp >= 0x10000 {
      FourComplete(s, cp);
    }
  }

  lemma TwoComplete(s: seq<Byte>, cp: int)
    requires 0x80 <= cp < 0x800 && |s| >= 2 && s[0] == 0xc0 + cp / 64 && s[1] == 0x80 + cp % 64
    ensures DecodeHead(s) == Char(2, cp)
  {
  }

  lemma ThreeComplete(s: seq<Byte>, cp: int)
    requires 0x800 <= cp < 0x10000 && Scalar(cp) && |s| >= 3
    requires s[0] == 0xe0 + cp / 4096 && s[1] == 0x80 + cp / 64 % 64 && s[2] == 0x80 + cp % 64
    ensures DecodeHead(s) == Char(3, cp)
  {
    DigitsPack(cp);
    assert cp / 262144 == 0 && cp / 4096 % 64 == cp / 4096;
  }

  lemma FourComplete(s: seq<Byte>, cp: int)
    requires 0x10000 <= cp <= 0x10ffff && |s| >= 4
    requires s[0] == 0xf0 + cp / 262144 && s[1] == 0x80 + cp / 4096 % 64
    requires s[2] == 0x80 + cp / 64 % 64 && s[3] == 0x80 + cp % 64
    ensures DecodeHead(s) == Char(4, cp)
  {
    DigitsPack(cp);
  }

  /** The outcome of the standard library's `str::from_utf8`. */
  datatype Validation =
    | Valid(chars: seq<int>)
    | Invalid(validUpTo: nat, chars: seq<int>, errorLen: Option<nat>)

  function FromUtf8(s: seq<Byte>): (r: Validation)
    decreases |s|
  {
    if s == [] then Valid([])
    else match DecodeHead(s)
      case Bad(k) => Invalid(0, [], Some(k))
      case Incomplete => Invalid(0, [], None)
      case Char(n, cp) =>
        match FromUtf8(s[n..])
        case Valid(cps) => Valid([cp] + cps)
        case Invalid(upTo, cps, len) => Invalid(n + upTo, [cp] + cps, len)
  }

  // ---- Decoding a whole marked stream at once ------------------------------

  /** A byte and whether it may contribute to activity. */
  datatype Mark = Mark(byte: Byte, eligible: bool)

  /** A decoded character; eligible when every byte of it was. */
  datatype Observed = Observed(cp: int, eligible: bool)

  function Bytes(s: seq<Mark>): (r: seq<Byte>)
    ensures |r| == |s| && forall i :: 0 <= i < |s| ==> r[i] == s[i].byte
  {
    seq(|s|, i requires 0 <= i < |s| => s[i].byte)
  }

  predicate AllEligible(s: seq<Mark>) { forall i :: 0 <= i < |s| ==> s[i].eligible }

  /** Take the character that begins here if there is one, else skip one byte. */
  ghost function Decode(s: seq<Mark>): (r: seq<Observed>)
    decreases |s|
  {
    if s == [] then []
    else if exists cp :: Begins(Bytes(s), cp) then
      var cp :| Begins(Bytes(s), cp);
      var n := |Encode(cp)|;
      [Observed(cp, AllEligible(s[..n]))] + Decode(s[n..])
    else Decode(s[1..])
  }

  lemma DecodeByHead(s: seq<Mark>)
    requires s != []
    ensures var h := DecodeHead(Bytes(s));
            if h.Char? then
              1 <= h.len <= |s| &&
              Decode(s) == [Observed(h.cp, AllEligible(s[..h.len]))] + Decode(s[h.len..])
            else Decode(s) == Decode(s[1..])
  {
    var h := DecodeHead(Bytes(s));
    if h.Char? {
      HeadSound(Bytes(s));
    }
    if exists cp :: Begins(Bytes(s), cp) {
      var cp :| Begins(Bytes(s), cp);
      forall c | Begins(Bytes(s), c) ensures c == cp {
        HeadComplete(Bytes(s), c);
        HeadComplete(Bytes(s), cp);
      }
      HeadComplete(Bytes(s), cp);
    }
  }

  /** Empty, or the beginning of one character and nothing else. */
  predicate Pending(s: seq<Mark>) { s == [] || DecodeHead(Bytes(s)) == Incomplete }

  /**
   However the stream goes on, decoding all of `before` and it gives `out`
   and then what decoding `after` and it gives.
   */
  ghost predicate Continues(before: seq<Mark>, out: seq<Observed>, after: seq<Mark>) {
    forall y: seq<Mark> :: Decode(before + y) == out + Decode(after + y)
  }

  lemma ContinuesTrans(a: seq<Mark>, o1: seq<Observed>, b: seq<Mark>, o2: seq<Observed>, c: seq<Mark>)
    requires Continues(a, o1, b) && Continues(b, o2, c)
    ensures Continues(a, o1 + o2, c)
  {
  }

  lemma ContinuesMore(a: seq<Mark>, out: seq<Observed>, b: seq<Mark>, x: seq<Mark>)
    requires Continues(a, out, b)
    ensures Continues(a + x, out, b + x)
  {
    forall y: seq<Mark> ensures Decode(a + x + y) == out + Decode(b + x + y) {
      ContinuesAt(a, out, b, x, y);
    }
  }

  lemma ContinuesAt(a: seq<Mark>, out: seq<Observed>, b: seq<Mark>, x: seq<Mark>, y: seq<Mark>)
    requires Continues(a, out, b)
    ensures Decode(a + x + y) == out + Decode(b + x + y)
  {
    var z := x + y;
    assert a + x + y == a + z && b + x + y == b + z;
    assert Decode(a + z) == out + Decode(b + z);
  }

  /** A continuation byte begins no character. */
  lemma DecodeContinuation(s: seq<Mark>)
    requires s != [] && Continuation(s[0].byte)
    ensures Decode(s) == Decode(s[1..])
  {
  }

  lemma PendingShape(s: seq<Mark>)
    requires Pending(s)
    ensures |s| <= 3
    ensures forall i :: 0 < i < |s| ==> Continuation(s[i].byte)
  {
  }

  /** Bytes that only begin a character decode to nothing before a byte that breaks them. */
  lemma {:induction false} DecodeBroken(s: seq<Mark>, k: nat, y: seq<Mark>)
    requires k <= |s| && forall i :: k <= i < |s| ==> Continuation(s[i].byte)
    ensures Decode(s[k..] + y) == Decode(y)
    decreases |s| - k
  {
    if k == |s| {
      assert s[k..] + y == y;
    } else {
      DecodeContinuation(s[k..] + y);
      assert (s[k..] + y)[1..] == s[k + 1..] + y;
      DecodeBroken(s, k + 1, y);
    }
  }

  lemma PendingDecodesToNothing(s: seq<Mark>)
    requires Pending(s)
    ensures Decode(s) == []
  {
    if s != [] {
      DecodeByHead(s);
      PendingShape(s);
      DecodeBroken(s, 1, []);
      assert s[1..] + [] == s[1..];
    }
  }

  /** The front of a buffer is settled by the bytes it is made of. */
  lemma HeadStable(s: seq<Mark>, y: seq<Mark>)
    requires s != [] && !DecodeHead(Bytes(s)).Incomplete?
    ensures DecodeHead(Bytes(s + y)) == DecodeHead(Bytes(s))
  {
  }

  lemma TakeChar(s: seq<Mark>)
    requires s != [] && DecodeHead(Bytes(s)).Char?
    ensures var h := DecodeHead(Bytes(s));
            1 <= h.len <= |s| && Continues(s, [Observed(h.cp, AllEligible(s[..h.len]))], s[h.len..])
  {
    var h := DecodeHead(Bytes(s));
    forall y: seq<Mark>
      ensures Decode(s + y) == [Observed(h.cp, AllEligible(s[..h.len]))] + Decode(s[h.len..] + y)
    {
      HeadStable(s, y);
      DecodeByHead(s + y);
      assert (s + y)[..h.len] == s[..h.len];
      assert (s + y)[h.len..] == s[h.len..] + y;
    }
  }

  lemma SkipBad(s: seq<Mark>)
    requires s != [] && DecodeHead(Bytes(s)).Bad?
    ensures var h := DecodeHead(Bytes(s)); 1 <= h.skip <= |s| && Continues(s, [], s[h.skip..])
  {
    var h := DecodeHead(Bytes(s));
    forall y: seq<Mark> ensures Decode(s + y) == [] + Decode(s[h.skip..] + y) {
      HeadStable(s, y);
      DecodeByHead(s + y);
      assert (s + y)[1..] == s[1..h.skip] + (s[h.skip..] + y);
      DecodeBroken(s[..h.skip], 1, s[h.skip..] + y);
    }
  }

  /** A byte that cannot continue it leaves nothing of what was pending. */
  lemma PendingBroken(p: seq<Mark>, rest: seq<Mark>)
    requires Pending(p) && rest != [] && rest[0].byte < 0x80
    ensures Decode(p + rest) == Decode(rest)
  {
    if p == [] {
      assert p + rest == rest;
    } else {
      PendingShape(p);
      assert !DecodeHead(Bytes(p + rest)).Char?;
      DecodeByHead(p + rest);
      assert (p + rest)[1..] == p[1..] + rest;
      DecodeBroken(p, 1, rest);
    }
  }

  /** An ASCII byte ends whatever was pending and stands for itself. */
  lemma AsciiBreaks(p: seq<Mark>, m: Mark)
    requires Pending(p) && m.byte < 0x80
    ensures Continues(p + [m], [Observed(m.byte, m.eligible)], [])
  {
    forall y: seq<Mark> ensures Decode(p + [m] + y) == [Observed(m.byte, m.eligible)] + Decode([] + y) {
      var rest := [m] + y;
      assert p + [m] + y == p + rest;
      PendingBroken(p, rest);
      assert DecodeHead(Bytes(rest)) == Char(1, m.byte);
      DecodeByHead(rest);
      assert rest[..1] == [m] && rest[1..] == [] + y;
      assert AllEligible([m]) == m.eligible;
    }
  }

  /** The whole-stream decoder inverts the encoder. */
  lemma {:induction false} DecodeEncoded(cps: seq<int>)
    requires forall i :: 0 <= i < |cps| ==> Scalar(cps[i])
    ensures Decode(MarkedText(cps)) == seq(|cps|, i requires 0 <= i < |cps| => Observed(cps[i], true))
  {
    if cps != [] {
      var e := Encode(cps[0]);
      var m := Marked(e);
      var rest := MarkedText(cps[1..]);
      var s := m + rest;
      assert Bytes(s)[..|e|] == e;
      HeadComplete(Bytes(s), cps[0]);
      DecodeByHead(s);
      assert s[|e|..] == rest;
      DecodeEncoded(cps[1..]);
    }
  }

  function Marked(s: seq<Byte>): (r: seq<Mark>)
    ensures |r| == |s| && forall i :: 0 <= i < |s| ==> r[i] == Mark(s[i], true)
  {
    seq(|s|, i requires 0 <= i < |s| => Mark(s[i], true))
  }

  function MarkedText(cps: seq<int>): (r: seq<Mark>)
    requires forall i :: 0 <= i < |cps| ==> Scalar(cps[i])
  {
    if cps == [] then [] else Marked(Encode(cps[0])) + MarkedText(cps[1..])
  }
}
