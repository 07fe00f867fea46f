/**
 The output-activity classifier: a byte-at-a-time terminal parser with an
 incremental UTF-8 decoder, proved against a description of the whole stream.
 */
module OutputActivity {
  import opened Base
  import opened Utf8

  const ESC: Byte := 0x1b
  const BEL: Byte := 0x07
  const BACKSLASH: Byte := 0x5c
  const CSI_OPEN: Byte := 0x5b
  const OSC_OPEN: Byte := 0x5d
  const MIN_MEANINGFUL_OUTPUT_CHARS := 3

  datatype TerminalState = Ground | Escape | CsiParams | CsiIntermediate | Osc(escapePending: bool) | Charset

  predicate IsParam(b: Byte) { 0x30 <= b <= 0x3f }
  predicate IsIntermediate(b: Byte) { 0x20 <= b <= 0x2f }
  predicate IsFinal(b: Byte) { 0x40 <= b <= 0x7e }
  predicate IsCharsetOpen(b: Byte) { b == 0x28 || b == 0x29 }
  predicate IsAlphanumeric(b: Byte) { 0x30 <= b <= 0x39 || 0x41 <= b <= 0x5a || 0x61 <= b <= 0x7a }

  /** Unicode White_Space, as `char::is_whitespace` tests it. */
  predicate IsWhitespace(cp: int) {
    || 0x09 <= cp <= 0x0d || cp == 0x20 || cp == 0x85 || cp == 0xa0 || cp == 0x1680
    || 0x2000 <= cp <= 0x200a || cp == 0x2028 || cp == 0x2029 || cp == 0x202f
    || cp == 0x205f || cp == 0x3000
  }

  predicate IsAsciiControl(cp: int) { 0 <= cp < 0x20 || cp == 0x7f }

  /** The tables, by their characters. */
  lemma TablesAre(b: Byte)
    ensures IsParam(b) <==> '0' <= b as char <= '?'
    ensures IsIntermediate(b) <==> ' ' <= b as char <= '/'
    ensures IsFinal(b) <==> '@' <= b as char <= '~'
    ensures IsCharsetOpen(b) <==> b as char in "()"
    ensures IsAlphanumeric(b)
       <==> '0' <= b as char <= '9' || 'A' <= b as char <= 'Z' || 'a' <= b as char <= 'z'
  {
  }

  /** Of the ASCII characters, all but space and the controls count, if their byte was eligible. */
  lemma AsciiThatCounts(b: Byte, eligible: bool)
    requires b < 128
    ensures Weight(Observed(b, eligible)) == if eligible && '!' <= b as char <= '~' then 1 else 0
  {
  }

  // ---- The whole stream at once ---------------------------------------------

  function Weight(c: Observed): (w: nat) {
    if c.eligible && !IsAsciiControl(c.cp) && !IsWhitespace(c.cp) then 1 else 0
  }

  /** How many characters count: eligible, not blank, not a control. */
  function Count(chars: seq<Observed>): (n: nat) {
    if chars == [] then 0 else Count(chars[..|chars| - 1]) + Weight(chars[|chars| - 1])
  }

  function ParamRun(s: seq<Mark>): (n: nat)
    ensures n <= |s|
  {
    if s != [] && IsParam(s[0].byte) then 1 + ParamRun(s[1..]) else 0
  }

  function IntermediateRun(s: seq<Mark>): (n: nat)
    ensures n <= |s|
  {
    if s != [] && IsIntermediate(s[0].byte) then 1 + IntermediateRun(s[1..]) else 0
  }

  /** Up to and including the first BEL or ESC \, or everything. */
  function OscRun(s: seq<Mark>, escapePending: bool): (n: nat)
    ensures n <= |s|
  {
    if s == [] then 0
    else if s[0].byte == BEL || (escapePending && s[0].byte == BACKSLASH) then 1
    else 1 + OscRun(s[1..], s[0].byte == ESC)
  }

  /** What follows ESC [ : parameters, intermediates, and a final if one is there. */
  function CsiRun(s: seq<Mark>): (n: nat)
    ensures n <= |s|
  {
    var p := ParamRun(s);
    IntermediatePart(s[p..]) + p
  }

  function IntermediatePart(s: seq<Mark>): (n: nat)
    ensures n <= |s|
  {
    var q := IntermediateRun(s);
    if q < |s| && IsFinal(s[q].byte) then q + 1 else q
  }

  /** How many bytes the control sequence opened by this ESC takes. */
  function ControlLength(s: seq<Mark>): (n: nat)
    requires s != []
    ensures 1 <= n <= |s|
  {
    if |s| == 1 then 1
    else if s[1].byte == CSI_OPEN then 2 + CsiRun(s[2..])
    else if s[1].byte == OSC_OPEN then 2 + OscRun(s[2..], false)
    else if IsCharsetOpen(s[1].byte) then
      if |s| > 2 && IsAlphanumeric(s[2].byte) then 3 else 2
    else 1
  }

  /** The text outside control sequences, each opening ESC left in as a separator. */
  function Strip(s: seq<Mark>): (r: seq<Mark>)
    decreases |s|
  {
    if s == [] then []
    else if s[0].byte == ESC then [s[0]] + Strip(s[ControlLength(s)..])
    else [s[0]] + Strip(s[1..])
  }

  /** A byte that is no ESC is text. */
  lemma TextStays(m: Mark, rest: seq<Mark>)
    requires m.byte != 0x1b
    ensures Strip([m] + rest) == [m] + Strip(rest)
  {
    assert ([m] + rest)[1..] == rest;
  }

  /** A CSI sequence is cut out whole, up to its final byte. */
  lemma CsiIsCut(esc: Mark, open: Mark, params: seq<Mark>, inters: seq<Mark>, end: Mark, rest: seq<Mark>)
    requires esc.byte == 0x1b && open.byte as char == '['
    requires forall i :: 0 <= i < |params| ==> '0' <= params[i].byte as char <= '?'
    requires forall i :: 0 <= i < |inters| ==> ' ' <= inters[i].byte as char <= '/'
    requires '@' <= end.byte as char <= '~'
    ensures Strip([esc, open] + params + inters + [end] + rest) == [esc] + Strip(rest)
  {
    var s := [esc, open] + params + inters + [end] + rest;
    CsiRunIs(params, inters, end, rest);
    assert s[2..] == params + (inters + ([end] + rest));
    assert ControlLength(s) == 2 + |params| + |inters| + 1;
    assert s[ControlLength(s)..] == rest;
  }

  lemma CsiRunIs(params: seq<Mark>, inters: seq<Mark>, end: Mark, rest: seq<Mark>)
    requires forall i :: 0 <= i < |params| ==> IsParam(params[i].byte)
    requires (forall i :: 0 <= i < |inters| ==> IsIntermediate(inters[i].byte)) && IsFinal(end.byte)
    ensures CsiRun(params + (inters + ([end] + rest))) == |params| + |inters| + 1
  {
    var tail := inters + ([end] + rest);
    ParamRunIs(params, tail);
    IntermediateRunIs(inters, [end] + rest);
    assert (params + tail)[|params|..] == tail;
    assert tail[|inters|] == end;
  }

  lemma {:induction false} ParamRunIs(params: seq<Mark>, tail: seq<Mark>)
    requires (forall i :: 0 <= i < |params| ==> IsParam(params[i].byte)) && tail != [] && !IsParam(tail[0].byte)
    ensures ParamRun(params + tail) == |params|
  {
    if params == [] {
      assert params + tail == tail;
    } else {
      assert (params + tail)[1..] == params[1..] + tail;
      ParamRunIs(params[1..], tail);
    }
  }

  lemma {:induction false} IntermediateRunIs(inters: seq<Mark>, tail: seq<Mark>)
    requires forall i :: 0 <= i < |inters| ==> IsIntermediate(inters[i].byte)
    requires tail != [] && !IsIntermediate(tail[0].byte)
    ensures IntermediateRun(inters + tail) == |inters|
  {
    if inters == [] {
      assert inters + tail == tail;
    } else {
      assert (inters + tail)[1..] == inters[1..] + tail;
      IntermediateRunIs(inters[1..], tail);
    }
  }

  /** An OSC string is cut out whole, up to its BEL or ESC \\. */
  lemma OscIsCut(esc: Mark, open: Mark, body: seq<Mark>, end: seq<Mark>, rest: seq<Mark>)
    requires esc.byte == 0x1b && open.byte as char == ']'
    requires forall i :: 0 <= i < |body| ==> body[i].byte != 0x07 && body[i].byte != 0x1b
    requires || (|end| == 1 && end[0].byte == 0x07)
             || (|end| == 2 && end[0].byte == 0x1b && end[1].byte as char == '\\')
    ensures Strip([esc, open] + body + end + rest) == [esc] + Strip(rest)
  {
    var s := [esc, open] + body + end + rest;
    OscRunIs(body, end, rest);
    assert s[2..] == body + end + rest;
    assert s[ControlLength(s)..] == rest;
  }

  lemma {:induction false} OscRunIs(body: seq<Mark>, end: seq<Mark>, rest: seq<Mark>)
    requires forall i :: 0 <= i < |body| ==> body[i].byte != BEL && body[i].byte != ESC
    requires || (|end| == 1 && end[0].byte == BEL)
             || (|end| == 2 && end[0].byte == ESC && end[1].byte == BACKSLASH)
    ensures OscRun(body + end + rest, false) == |body| + |end|
  {
    var s := body + end + rest;
    if body != [] {
      assert s[1..] == body[1..] + end + rest;
      OscRunIs(body[1..], end, rest);
    } else if |end| == 2 {
      assert s[0] == end[0] && s[1..][0] == end[1];
    } else {
      assert s[0] == end[0];
    }
  }

  /** A character set choice is cut out whole. */
  lemma CharsetIsCut(esc: Mark, open: Mark, charset: Mark, rest: seq<Mark>)
    requires esc.byte == 0x1b && open.byte as char in "()" && IsAlphanumeric(charset.byte)
    ensures Strip([esc, open, charset] + rest) == [esc] + Strip(rest)
  {
    var s := [esc, open, charset] + rest;
    assert s[ControlLength(s)..] == rest;
  }

  /** The characters that count in the whole stream. */
  ghost function CountedIn(stream: seq<Mark>): (n: nat) {
    Count(Decode(Strip(stream)))
  }

  // ---- The terminal automaton -------------------------------------------------

  /** Next state, and whether the byte is read as text. */
  function TermStep(t: TerminalState, b: Byte): (r: (TerminalState, bool))
  {
    var asText := (if b == ESC then Escape else Ground, true);
    match t
    case Ground => asText
    case Escape =>
      if b == CSI_OPEN then (CsiParams, false)
      else if b == OSC_OPEN then (Osc(false), false)
      else if IsCharsetOpen(b) then (Charset, false)
      else asText
    case CsiParams =>
      if IsParam(b) then (CsiParams, false)
      else if IsIntermediate(b) then (CsiIntermediate, false)
      else if IsFinal(b) then (Ground, false)
      else asText
    case CsiIntermediate =>
      if IsIntermediate(b) then (CsiIntermediate, false)
      else if IsFinal(b) then (Ground, false)
      else asText
    case Osc(escapePending) =>
      if b == BEL || (escapePending && b == BACKSLASH) then (Ground, false)
      else (Osc(b == ESC), false)
    case Charset =>
      if IsAlphanumeric(b) then (Ground, false) else asText
  }

  function Scan(s: seq<Mark>): (r: (TerminalState, seq<Mark>))
  {
    if s == [] then (Ground, [])
    else
      var n := |s| - 1;
      var before := Scan(s[..n]);
      var step := TermStep(before.0, s[n].byte);
      (step.0, if step.1 then before.1 + [s[n]] else before.1)
  }

  /** The text read from state `t` on. */
  function TextFrom(t: TerminalState, s: seq<Mark>): (r: seq<Mark>)
    decreases |s|
  {
    if s == [] then []
    else
      var step := TermStep(t, s[0].byte);
      (if step.1 then [s[0]] else []) + TextFrom(step.0, s[1..])
  }

  lemma {:induction false} ScanThenText(a: seq<Mark>, b: seq<Mark>)
    ensures Scan(a + b).1 == Scan(a).1 + TextFrom(Scan(a).0, b)
    decreases |b|
  {
    if b == [] {
      assert a + b == a;
    } else {
      assert (a + [b[0]]) + b[1..] == a + b;
      assert (a + [b[0]])[..|a|] == a;
      ScanThenText(a + [b[0]], b[1..]);
    }
  }

  lemma {:induction false} TextFromOsc(s: seq<Mark>, pending: bool)
    ensures TextFrom(Osc(pending), s) == TextFrom(Ground, s[OscRun(s, pending)..])
    decreases |s|
  {
    if s != [] && !(s[0].byte == BEL || (pending && s[0].byte == BACKSLASH)) {
      TextFromOsc(s[1..], s[0].byte == ESC);
      var n := OscRun(s[1..], s[0].byte == ESC);
      assert s[1..][n..] == s[n + 1..];
    }
  }

  lemma {:induction false} TextFromIntermediate(s: seq<Mark>)
    ensures TextFrom(CsiIntermediate, s) == TextFrom(Ground, s[IntermediatePart(s)..])
    decreases |s|
  {
    if s != [] && IsIntermediate(s[0].byte) {
      TextFromIntermediate(s[1..]);
      var n := IntermediatePart(s[1..]);
      assert s[1..][n..] == s[n + 1..];
    }
  }

  lemma {:induction false} TextFromParams(s: seq<Mark>)
    ensures TextFrom(CsiParams, s) == TextFrom(Ground, s[CsiRun(s)..])
    decreases |s|
  {
    if s != [] && IsParam(s[0].byte) {
      TextFromParams(s[1..]);
      var p := ParamRun(s[1..]);
      assert s[1..][p..] == s[p + 1..];
      var n := CsiRun(s[1..]);
      assert s[1..][n..] == s[n + 1..];
    } else {
      assert s[0..] == s;
      if s != [] && IsIntermediate(s[0].byte) {
        TextFromIntermediate(s);
      }
    }
  }

  lemma TextFromCharset(s: seq<Mark>)
    ensures TextFrom(Charset, s)
         == TextFrom(Ground, s[if s != [] && IsAlphanumeric(s[0].byte) then 1 else 0..])
  {
  }

  /** The bytes after an opening ESC are dropped up to the end of its sequence. */
  lemma TextAfterEscape(s: seq<Mark>)
    requires s != [] && s[0].byte == ESC
    ensures TextFrom(Escape, s[1..]) == TextFrom(Ground, s[ControlLength(s)..])
  {
    var n := ControlLength(s);
    if |s| > 1 {
      var after, rest := s[1..], s[2..];
      assert after[0] == s[1] && after[1..] == rest;
      assert n >= 2 ==> rest[n - 2..] == s[n..];
      if s[1].byte == CSI_OPEN {
        TextFromParams(rest);
      } else if s[1].byte == OSC_OPEN {
        TextFromOsc(rest, false);
      } else if IsCharsetOpen(s[1].byte) {
        TextFromCharset(rest);
      }
    }
  }

  lemma {:induction false} TextIsStrip(s: seq<Mark>)
    ensures TextFrom(Ground, s) == Strip(s)
    decreases |s|
  {
    if s == [] {
    } else if s[0].byte != ESC {
      TextIsStrip(s[1..]);
    } else {
      TextIsStrip(s[ControlLength(s)..]);
      TextAfterEscape(s);
    }
  }

  /** The automaton keeps exactly the text outside control sequences. */
  lemma ScanIsStrip(s: seq<Mark>)
    ensures Scan(s).1 == Strip(s)
  {
    ScanThenText([], s);
    assert [] + s == s;
    TextIsStrip(s);
  }

  // ---- Counting ---------------------------------------------------------------

  lemma {:induction false} CountConcat(a: seq<Observed>, b: seq<Observed>)
    ensures Count(a + b) == Count(a) + Count(b)
  {
    if b == [] {
      assert a + b == a;
    } else {
      assert (a + b)[..|a + b| - 1] == a + b[..|b| - 1];
      CountConcat(a, b[..|b| - 1]);
    }
  }

  /** `total` counted since the carry was zero: the remainder and the flag that show it. */
  predicate Tallied(total: nat, chars: nat, meaningful: bool) {
    && chars < MIN_MEANINGFUL_OUTPUT_CHARS
    && (meaningful <==> total >= MIN_MEANINGFUL_OUTPUT_CHARS)
    && (!meaningful ==> chars == total)
  }

  /** One more byte on a pending buffer: a character, more waiting, or breakage. */
  lemma PushCases(p: seq<Mark>, m: Mark)
    requires Pending(p) && m.byte >= 0x80
    ensures var buf := p + [m];
            match FromUtf8(Bytes(buf))
            case Valid(chars) =>
              |chars| == 1 && chars[0] >= 0x80 && Continues(buf, [Observed(chars[0], AllEligible(buf))], [])
            case Invalid(upTo, _, None) => upTo == 0 && Pending(buf)
            case Invalid(upTo, _, Some(k)) =>
              upTo == 0 && 1 <= k <= |buf| && Continues(buf, [], buf[k..])
              && (buf[k..] == [] || (p != [] && buf[k..] == [m]))
  {
    var buf := p + [m];
    assert Bytes(buf)[|buf|..] == [];
    match DecodeHead(Bytes(buf)) {
      case Char(n, cp) =>
        assert n == |buf|;
        TakeChar(buf);
        assert buf[..n] == buf && buf[n..] == [];
      case Incomplete =>
      case Bad(k) =>
        SkipBad(buf);
        assert k == |buf| || k == |p|;
    }
  }

  class OutputClassifier {
    var terminal: TerminalState
    var utf8: seq<Mark>
    var meaningfulChars: nat
    /** Every byte observed so far, with the eligibility it arrived under. */
    ghost var stream: seq<Mark>

    ghost predicate Valid()
      reads this
    {
      && terminal == Scan(stream).0
      && Pending(utf8)
      && (terminal != Ground ==> utf8 == [])
      && Continues(Strip(stream), Decode(Strip(stream)), utf8)
      && meaningfulChars < MIN_MEANINGFUL_OUTPUT_CHARS
    }

    constructor ()
      ensures Valid() && stream == [] && meaningfulChars == 0
    {
      terminal := Ground;
      utf8 := [];
      meaningfulChars := 0;
      stream := [];
    }

    /** The UTF-8 carry is bounded, and empty outside the ground state. */
    lemma CarryIsBounded()
      requires Valid()
      ensures |utf8| <= 3 && (terminal != Ground ==> utf8 == [])
    {
    }

    method DiscardMeaningfulCarry()
      requires Valid()
      modifies this`meaningfulChars
      ensures Valid() && meaningfulChars == 0
    {
      meaningfulChars := 0;
    }

    method RecordChar(c: Observed, meaningful: bool, ghost total: nat) returns (meaningful': bool)
      requires Tallied(total, meaningfulChars, meaningful)
      requires IsAsciiControl(c.cp) ==> IsWhitespace(c.cp)
      modifies this`meaningfulChars
      ensures Tallied(total + Weight(c), meaningfulChars, meaningful')
    {
      meaningful' := meaningful;
      if !c.eligible || IsWhitespace(c.cp) {
        return;
      }
      meaningfulChars := meaningfulChars + 1;
      if meaningfulChars >= MIN_MEANINGFUL_OUTPUT_CHARS {
        meaningful' := true;
        meaningfulChars := 0;
      }
    }

    method ConsumeGroundByte(b: Byte, eligible: bool, meaningful: bool, ghost total: nat)
      returns (meaningful': bool, ghost emitted: seq<Observed>)
      requires Pending(utf8) && terminal == Ground
      requires Tallied(total, meaningfulChars, meaningful)
      modifies this`terminal, this`utf8, this`meaningfulChars
      ensures terminal == (if b == ESC then Escape else Ground)
      ensures Pending(utf8) && (b == ESC ==> utf8 == [])
      ensures Continues(old(utf8) + [Mark(b, eligible)], emitted, utf8)
      ensures Tallied(total + Count(emitted), meaningfulChars, meaningful')
    {
      meaningful' := meaningful;
      if b < 0x80 {
        AsciiBreaks(utf8, Mark(b, eligible));
        emitted := [Observed(b, eligible)];
        assert emitted[..0] == [];
        assert Count(emitted) == Weight(emitted[0]);
        utf8 := [];
        if b == ESC {
          terminal := Escape;
        } else if b != 0x0d && b != 0x0a && !(b <= 0x08 || 0x0b <= b <= 0x1f || b == 0x7f) {
          meaningful' := RecordChar(Observed(b, eligible), meaningful', total);
        }
        return;
      }
      meaningful', emitted := ConsumeMultibyte(b, eligible, meaningful, total);
    }

    /** The buffer is one character: it is counted and the buffer emptied. */
    method EmitChar(cp: int, meaningful: bool, ghost total: nat, ghost start: seq<Mark>)
      returns (meaningful': bool, ghost emitted: seq<Observed>)
      requires cp >= 0x80 && Tallied(total, meaningfulChars, meaningful)
      requires Continues(start, [], utf8) && Continues(utf8, [Observed(cp, AllEligible(utf8))], [])
      modifies this`utf8, this`meaningfulChars
      ensures utf8 == [] && Continues(start, emitted, [])
      ensures Tallied(total + Count(emitted), meaningfulChars, meaningful')
    {
      var c := Observed(cp, AllEligible(utf8));
      emitted := [c];
      ContinuesTrans(start, [], utf8, emitted, []);
      assert [] + emitted == emitted && emitted[..0] == [];
      assert Count(emitted) == Weight(c);
      utf8 := [];
      meaningful' := RecordChar(c, meaningful, total);
    }

    method ConsumeMultibyte(b: Byte, eligible: bool, meaningful: bool, ghost total: nat)
      returns (meaningful': bool, ghost emitted: seq<Observed>)
      requires Pending(utf8) && b >= 0x80
      requires Tallied(total, meaningfulChars, meaningful)
      modifies this`utf8, this`meaningfulChars
      ensures Pending(utf8)
      ensures Continues(old(utf8) + [Mark(b, eligible)], emitted, utf8)
      ensures Tallied(total + Count(emitted), meaningfulChars, meaningful')
    {
      meaningful', emitted := meaningful, [];
      var m := Mark(b, eligible);
      ghost var p := utf8;
      utf8 := utf8 + [m];
      while true
        invariant Pending(p) && utf8 == p + [m] && emitted == []
        invariant Continues(old(utf8) + [m], [], utf8)
        invariant Tallied(total, meaningfulChars, meaningful') && meaningful' == meaningful
        decreases |utf8|
      {
        PushCases(p, m);
        match FromUtf8(Bytes(utf8)) {
          case Valid(chars) =>
            meaningful', emitted := EmitChar(chars[0], meaningful', total, old(utf8) + [m]);
            break;
          case Invalid(_, _, None) =>
            break;
          case Invalid(_, _, Some(k)) =>
            // The valid prefix is empty here: a buffer holds at most one character.
            ContinuesTrans(old(utf8) + [m], [], utf8, [], utf8[k..]);
            utf8 := utf8[k..];
            if utf8 == [] {
              break;
            }
            p := [];
        }
      }
    }

    method ConsumeTerminalByte(b: Byte, eligible: bool, meaningful: bool, ghost total: nat)
      returns (meaningful': bool, ghost emitted: seq<Observed>)
      requires Pending(utf8) && (terminal != Ground ==> utf8 == [])
      requires Tallied(total, meaningfulChars, meaningful)
      modifies this`terminal, this`utf8, this`meaningfulChars
      ensures terminal == TermStep(old(terminal), b).0
      ensures Pending(utf8) && (terminal != Ground ==> utf8 == [])
      ensures if TermStep(old(terminal), b).1
              then Continues(old(utf8) + [Mark(b, eligible)], emitted, utf8)
              else emitted == [] && utf8 == old(utf8)
      ensures Tallied(total + Count(emitted), meaningfulChars, meaningful')
    {
      meaningful', emitted := meaningful, [];
      var pending := true;
      while pending
        invariant pending ==> utf8 == old(utf8) && emitted == [] && meaningful' == meaningful
        invariant pending ==> terminal == old(terminal)
                              || (terminal == Ground && TermStep(old(terminal), b) == TermStep(Ground, b))
        invariant pending ==> Pending(utf8) && Tallied(total, meaningfulChars, meaningful')
        invariant pending && terminal == Ground ==> TermStep(old(terminal), b).1
        invariant !pending ==> terminal == TermStep(old(terminal), b).0
        invariant !pending ==> Pending(utf8) && (terminal != Ground ==> utf8 == [])
        invariant !pending ==> (if TermStep(old(terminal), b).1
                                then Continues(old(utf8) + [Mark(b, eligible)], emitted, utf8)
                                else emitted == [] && utf8 == old(utf8))
        invariant !pending ==> Tallied(total + Count(emitted), meaningfulChars, meaningful')
        decreases pending, terminal != Ground
      {
        pending := false;
        var taken := terminal;
        terminal := Ground;
        match taken {
          case Ground =>
            meaningful', emitted := ConsumeGroundByte(b, eligible, meaningful', total);
          case Escape =>
            if b == CSI_OPEN {
              terminal := CsiParams;
            } else if b == OSC_OPEN {
              terminal := Osc(false);
            } else if IsCharsetOpen(b) {
              terminal := Charset;
            } else {
              pending := true;
            }
          case CsiParams =>
            if IsParam(b) {
              terminal := CsiParams;
            } else if IsIntermediate(b) {
              terminal := CsiIntermediate;
            } else if !IsFinal(b) {
              pending := true;
            }
          case CsiIntermediate =>
            if IsIntermediate(b) {
              terminal := CsiIntermediate;
            } else if !IsFinal(b) {
              pending := true;
            }
          case Osc(escapePending) =>
            if !(b == BEL || (escapePending && b == BACKSLASH)) {
              terminal := Osc(b == ESC);
            }
          case Charset =>
            if !IsAlphanumeric(b) {
              pending := true;
            }
        }
      }
    }

    /** One byte joins the stream; `emitted` is what it adds to the decoded text. */
    ghost method Extend(m: Mark, was: seq<Mark>, emitted: seq<Observed>, before: TerminalState)
      requires before == Scan(stream).0 && terminal == TermStep(before, m.byte).0
      requires Continues(Strip(stream), Decode(Strip(stream)), was)
      requires Pending(utf8) && (terminal != Ground ==> utf8 == []) && meaningfulChars < MIN_MEANINGFUL_OUTPUT_CHARS
      requires if TermStep(before, m.byte).1 then Continues(was + [m], emitted, utf8)
               else emitted == [] && utf8 == was
      modifies this`stream
      ensures Valid() && stream == old(stream) + [m]
      ensures CountedIn(stream) == CountedIn(old(stream)) + Count(emitted)
    {
      var text := Strip(stream);
      stream := stream + [m];
      assert stream[..|stream| - 1] == old(stream);
      ScanIsStrip(old(stream));
      ScanIsStrip(stream);
      if TermStep(before, m.byte).1 {
        ContinuesMore(text, Decode(text), was, [m]);
        ContinuesTrans(text + [m], Decode(text), was + [m], emitted, utf8);
        DecodeContinued(text + [m], Decode(text) + emitted, utf8);
        CountConcat(Decode(text), emitted);
      }
    }

    method ObserveByte(b: Byte, eligible: bool, meaningful: bool, ghost total: nat)
      returns (meaningful': bool, ghost total': nat)
      requires Valid() && Tallied(total, meaningfulChars, meaningful)
      modifies this
      ensures Valid() && stream == old(stream) + [Mark(b, eligible)]
      ensures CountedIn(stream) == CountedIn(old(stream)) + (total' - total) && total' >= total
      ensures Tallied(total', meaningfulChars, meaningful')
    {
      ghost var before, was := terminal, utf8;
      ghost var emitted;
      meaningful', emitted := ConsumeTerminalByte(b, eligible, meaningful, total);
      total' := total + Count(emitted);
      Extend(Mark(b, eligible), was, emitted, before);
    }

    method Observe(payload: seq<Byte>, eligible: bool) returns (meaningful: bool)
      requires Valid()
      modifies this
      ensures Valid()
      ensures stream == old(stream) + MarkAll(payload, eligible)
      ensures CountedIn(stream) >= CountedIn(old(stream))
      ensures meaningful <==>
              old(meaningfulChars) + (CountedIn(stream) - CountedIn(old(stream))) >= MIN_MEANINGFUL_OUTPUT_CHARS
      ensures meaningfulChars == (if meaningful then 0
                                  else old(meaningfulChars) + (CountedIn(stream) - CountedIn(old(stream))))
    {
      meaningful := false;
      ghost var total := meaningfulChars;
      for i := 0 to |payload|
        invariant Valid() && stream == old(stream) + MarkAll(payload[..i], eligible)
        invariant total - old(meaningfulChars) == CountedIn(stream) - CountedIn(old(stream))
        invariant total >= old(meaningfulChars)
        invariant Tallied(total, meaningfulChars, meaningful)
      {
        meaningful, total := ObserveByte(payload[i], eligible, meaningful, total);
        MarkAllSnoc(payload, i, eligible);
      }
      assert payload[..|payload|] == payload;
      if meaningful {
        DiscardMeaningfulCarry();
      }
    }
  }

  lemma MarkAllSnoc(payload: seq<Byte>, i: nat, eligible: bool)
    requires i < |payload|
    ensures MarkAll(payload[..i + 1], eligible) == MarkAll(payload[..i], eligible) + [Mark(payload[i], eligible)]
  {
  }

  function MarkAll(payload: seq<Byte>, eligible: bool): (r: seq<Mark>)
    ensures |r| == |payload| && forall i :: 0 <= i < |r| ==> r[i] == Mark(payload[i], eligible)
  {
    seq(|payload|, i requires 0 <= i < |payload| => Mark(payload[i], eligible))
  }

  lemma DecodeContinued(text: seq<Mark>, out: seq<Observed>, carry: seq<Mark>)
    requires Continues(text, out, carry) && Pending(carry)
    ensures Decode(text) == out
  {
    PendingDecodesToNothing(carry);
    assert text + [] == text && carry + [] == carry;
    assert Decode(text + []) == out + Decode(carry + []);
  }

  // ---- Chunking ---------------------------------------------------------------

  /** A chunk as it arrives: its bytes and whether they may count. */
  datatype Chunk = Chunk(payload: seq<Byte>, eligible: bool)

  function StreamOf(chunks: seq<Chunk>): (r: seq<Mark>)
  {
    if chunks == [] then []
    else StreamOf(chunks[..|chunks| - 1]) + MarkAll(chunks[|chunks| - 1].payload, chunks[|chunks| - 1].eligible)
  }

  /** A fresh classifier says "activity" somewhere exactly when the whole stream holds three counted characters. */
  method ObserveAll(chunks: seq<Chunk>) returns (meaningful: bool)
    ensures meaningful <==> CountedIn(StreamOf(chunks)) >= 3
  {
    var classifier := new OutputClassifier();
    meaningful := false;
    for i := 0 to |chunks|
      invariant fresh(classifier) && classifier.Valid() && classifier.stream == StreamOf(chunks[..i])
      invariant !meaningful ==> classifier.meaningfulChars == CountedIn(classifier.stream)
      invariant meaningful ==> CountedIn(classifier.stream) >= MIN_MEANINGFUL_OUTPUT_CHARS
    {
      var seen := classifier.Observe(chunks[i].payload, chunks[i].eligible);
      assert chunks[..i + 1][..i] == chunks[..i];
      meaningful := meaningful || seen;
    }
    assert chunks[..|chunks|] == chunks;
  }
}
