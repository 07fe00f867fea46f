/**
 The browser-to-session classifier: is anything in this stream something a
 person typed, or is it only the terminal answering the application?
 */
module InputActivity {
  import opened Base

  const ESC: Byte := 0x1b
  const BEL: Byte := 0x07
  const BACKSLASH: Byte := 0x5c
  const BRACKET: Byte := 0x5b
  const UPPER_M: Byte := 0x4d

  datatype InputState =
    | Ground
    | Escape
    | CsiParams(hadParams: bool)
    | CsiIntermediate
    | X10Mouse(seen: nat)
    | ControlString(escapePending: bool)

  predicate IsParam(b: Byte) { 0x30 <= b <= 0x3f }
  predicate IsIntermediate(b: Byte) { 0x20 <= b <= 0x2f }
  predicate IsFinal(b: Byte) { 0x40 <= b <= 0x7e }

  /** The final bytes that mark a control sequence as a report: I O R n c t M m. */
  predicate IsReportFinal(b: Byte) {
    b in {0x49, 0x4f, 0x52, 0x6e, 0x63, 0x74, 0x4d, 0x6d}
  }

  /** Bytes that, after ESC, open a string: ] P X ^ _. */
  predicate IsStringIntroducer(b: Byte) {
    b in {0x5d, 0x50, 0x58, 0x5e, 0x5f}
  }

  /** The tables, by their characters. */
  lemma TablesAre(b: Byte)
    ensures IsReportFinal(b) <==> b as char in "IORnctMm"
    ensures IsStringIntroducer(b) <==> b as char in "]PX^_"
    ensures IsParam(b) <==> '0' <= b as char <= '?'
    ensures IsIntermediate(b) <==> ' ' <= b as char <= '/'
    ensures IsFinal(b) <==> '@' <= b as char <= '~'
  {
  }

  /** One byte: the next state, and whether the byte was charged to a person. */
  function Step(st: InputState, b: Byte): (r: (InputState, bool))
  {
    match st
    case Ground =>
      if b == ESC then (Escape, false) else (Ground, true)
    case Escape =>
      if b == BRACKET then (CsiParams(false), false)
      else if IsStringIntroducer(b) then (ControlString(false), false)
      else (Ground, true)
    case CsiParams(hadParams) =>
      if IsParam(b) then (CsiParams(true), false)
      else if IsIntermediate(b) then (CsiIntermediate, false)
      else if b == UPPER_M && !hadParams then (X10Mouse(0), false)
      else if IsFinal(b) then (Ground, !IsReportFinal(b))
      else (Ground, true)
    case CsiIntermediate =>
      if IsIntermediate(b) then (CsiIntermediate, false)
      else if IsFinal(b) then (Ground, !IsReportFinal(b))
      else (Ground, true)
    case X10Mouse(seen) =>
      if seen < 2 then (X10Mouse(seen + 1), false) else (Ground, false)
    case ControlString(escapePending) =>
      if b == BEL || (escapePending && b == BACKSLASH) then (Ground, false)
      else (ControlString(b == ESC), false)
  }

  /** A whole stretch of bytes, the flag accumulating. */
  function Run(st: InputState, s: seq<Byte>): (r: (InputState, bool))
  {
    if s == [] then (st, false)
    else
      var before := Run(st, s[..|s| - 1]);
      var last := Step(before.0, s[|s| - 1]);
      (last.0, before.1 || last.1)
  }

  class InputClassifier {
    var state: InputState

    constructor ()
      ensures state == Ground
    {
      state := Ground;
    }

    method Consume(b: Byte, user: bool) returns (user': bool)
      modifies this
      ensures (state, user') == (Step(old(state), b).0, user || Step(old(state), b).1)
    {
      user' := user;
      var taken := state;
      state := Ground;
      match taken {
        case Ground =>
          if b == ESC { state := Escape; } else { user' := true; }
        case Escape =>
          if b == BRACKET {
            state := CsiParams(false);
          } else if IsStringIntroducer(b) {
            state := ControlString(false);
          } else {
            user' := true;
          }
        case CsiParams(hadParams) =>
          if IsParam(b) {
            state := CsiParams(true);
          } else if IsIntermediate(b) {
            state := CsiIntermediate;
          } else if b == UPPER_M && !hadParams {
            state := X10Mouse(0);
          } else if !(IsFinal(b) && IsReportFinal(b)) {
            user' := true;
          }
        case CsiIntermediate =>
          if IsIntermediate(b) {
            state := CsiIntermediate;
          } else if !(IsFinal(b) && IsReportFinal(b)) {
            user' := true;
          }
        case X10Mouse(seen) =>
          if seen < 2 { state := X10Mouse(seen + 1); }
        case ControlString(escapePending) =>
          if !(b == BEL || (escapePending && b == BACKSLASH)) {
            state := ControlString(b == ESC);
          }
      }
    }

    method Observe(payload: seq<Byte>) returns (user: bool)
      modifies this
      ensures (state, user) == Run(old(state), payload)
    {
      user := false;
      for i := 0 to |payload|
        invariant (state, user) == Run(old(state), payload[..i])
      {
        assert payload[..i + 1][..i] == payload[..i];
        user := Consume(payload[i], user);
      }
      assert payload[..|payload|] == payload;
    }
  }

  // ---- Chunking ----------------------------------------------------------

  /** Successive `Observe` calls on one classifier, answers joined by "or". */
  function RunChunks(st: InputState, chunks: seq<seq<Byte>>): (r: (InputState, bool))
  {
    if chunks == [] then (st, false)
    else
      var before := RunChunks(st, chunks[..|chunks| - 1]);
      var last := Run(before.0, chunks[|chunks| - 1]);
      (last.0, before.1 || last.1)
  }

  lemma {:induction false} RunConcat(st: InputState, a: seq<Byte>, b: seq<Byte>)
    ensures Run(st, a + b) == (Run(Run(st, a).0, b).0, Run(st, a).1 || Run(Run(st, a).0, b).1)
  {
    if b == [] {
      assert a + b == a;
    } else {
      assert (a + b)[..|a + b| - 1] == a + b[..|b| - 1];
      RunConcat(st, a, b[..|b| - 1]);
    }
  }

  lemma {:induction false} ChunkingIsIrrelevant(st: InputState, chunks: seq<seq<Byte>>)
    ensures RunChunks(st, chunks) == Run(st, Flatten(chunks))
  {
    if chunks != [] {
      var n := |chunks| - 1;
      ChunkingIsIrrelevant(st, chunks[..n]);
      RunConcat(st, Flatten(chunks[..n]), chunks[n]);
    }
  }

  // ---- The language of terminal reports ----------------------------------

  ghost predicate AllParams(s: seq<Byte>) { forall i :: 0 <= i < |s| ==> IsParam(s[i]) }
  ghost predicate AllIntermediates(s: seq<Byte>) { forall i :: 0 <= i < |s| ==> IsIntermediate(s[i]) }

  /** No BEL and no ESC \ inside: a string body that has not been terminated. */
  ghost predicate Unterminated(body: seq<Byte>) {
    && (forall i :: 0 <= i < |body| ==> body[i] != BEL)
    && (forall i :: 0 < i < |body| ==> !(body[i - 1] == ESC && body[i] == BACKSLASH))
  }

  /** ESC [ params intermediates */
  ghost predicate CsiWith(s: seq<Byte>, params: seq<Byte>, inter: seq<Byte>) {
    AllParams(params) && AllIntermediates(inter) && s == [ESC, BRACKET] + params + inter
  }

  /** A CSI sequence with a report final, other than bare ESC [ M. */
  ghost predicate CsiReport(s: seq<Byte>) {
    exists params, inter :: CsiReportWith(s, params, inter)
  }

  ghost predicate CsiReportWith(s: seq<Byte>, params: seq<Byte>, inter: seq<Byte>) {
    && |s| > 0 && IsReportFinal(s[|s| - 1])
    && CsiWith(s[..|s| - 1], params, inter)
    && !(params == [] && inter == [] && s[|s| - 1] == UPPER_M)
  }

  /** Bare ESC [ M and exactly three arbitrary bytes. */
  ghost predicate X10Report(s: seq<Byte>) {
    |s| == 6 && s[..3] == [ESC, BRACKET, UPPER_M]
  }

  /** ESC, an introducer, and a body that nothing has terminated yet. */
  ghost predicate OpenString(s: seq<Byte>) {
    |s| >= 2 && s[0] == ESC && IsStringIntroducer(s[1]) && Unterminated(s[2..])
  }

  /** A control string closed by BEL or by ESC \ (the ESC being the body's last byte). */
  ghost predicate StringReport(s: seq<Byte>) {
    |s| > 2 && OpenString(s[..|s| - 1]) &&
    (s[|s| - 1] == BEL || (|s| > 3 && s[|s| - 2] == ESC && s[|s| - 1] == BACKSLASH))
  }

  ghost predicate Report(s: seq<Byte>) {
    CsiReport(s) || X10Report(s) || StringReport(s)
  }

  /** Nothing, or the beginning of one report. */
  ghost predicate Unfinished(s: seq<Byte>) {
    || s == []
    || s == [ESC]
    || (exists params, inter :: CsiWith(s, params, inter))
    || (3 <= |s| < 6 && s[..3] == [ESC, BRACKET, UPPER_M])
    || OpenString(s)
  }

  /** A sequence of complete reports and at most one unfinished sequence. */
  ghost predicate OnlyReports(s: seq<Byte>, reports: seq<seq<Byte>>, tail: seq<Byte>) {
    && s == Flatten(reports) + tail
    && (forall i :: 0 <= i < |reports| ==> Report(reports[i]))
    && Unfinished(tail)
  }

  /** What has been read since the last return to the ground state. */
  ghost predicate Open(st: InputState, s: seq<Byte>) {
    match st
    case Ground => s == []
    case Escape => s == [ESC]
    case CsiParams(had) => exists params :: CsiWith(s, params, []) && had == (params != [])
    case CsiIntermediate => exists params, inter :: CsiWith(s, params, inter) && inter != []
    case X10Mouse(seen) => seen <= 2 && |s| == 3 + seen && s[..3] == [ESC, BRACKET, UPPER_M]
    case ControlString(pending) => OpenString(s) && pending == (|s| > 2 && s[|s| - 1] == ESC)
  }

  lemma OpenStep(st: InputState, s: seq<Byte>, b: Byte)
    requires Open(st, s) && !Step(st, b).1
    ensures Step(st, b).0 != Ground ==> Open(Step(st, b).0, s + [b])
    ensures Step(st, b).0 == Ground ==> Report(s + [b])
  {
    var t := s + [b];
    assert t[..|s|] == s;
    match st {
      case Ground =>
      case Escape =>
        if b == BRACKET {
          assert CsiWith(t, [], []);
        } else {
          assert OpenString(t);
        }
      case CsiParams(had) =>
        var params :| CsiWith(s, params, []) && had == (params != []);
        if IsParam(b) {
          assert CsiWith(t, params + [b], []);
        } else if IsIntermediate(b) {
          assert CsiWith(t, params, [b]);
        } else if b == UPPER_M && !had {
          assert t == [ESC, BRACKET, UPPER_M];
        } else {
          assert CsiReportWith(t, params, []);
        }
      case CsiIntermediate =>
        var params, inter :| CsiWith(s, params, inter) && inter != [];
        if IsIntermediate(b) {
          assert CsiWith(t, params, inter + [b]);
        } else {
          assert CsiReportWith(t, params, inter);
        }
      case X10Mouse(seen) =>
        assert t[..3] == s[..3];
      case ControlString(pending) =>
        assert t[2..] == s[2..] + [b];
    }
  }

  /** Every unfinished sequence is open in some state other than ground. */
  lemma UnfinishedIsOpen(s: seq<Byte>) returns (st: InputState)
    requires Unfinished(s)
    ensures Open(st, s)
  {
    if s == [] {
      st := Ground;
    } else if s == [ESC] {
      st := Escape;
    } else if exists params, inter :: CsiWith(s, params, inter) {
      var params, inter :| CsiWith(s, params, inter);
      st := if inter == [] then CsiParams(params != []) else CsiIntermediate;
    } else if 3 <= |s| < 6 && s[..3] == [ESC, BRACKET, UPPER_M] {
      st := X10Mouse(|s| - 3);
    } else {
      st := ControlString(|s| > 2 && s[|s| - 1] == ESC);
    }
  }

  /** Dropping the last byte of an open, nonempty stretch undoes one quiet step. */
  lemma OpenUnstep(st: InputState, s: seq<Byte>) returns (prev: InputState)
    requires Open(st, s) && s != []
    ensures Open(prev, s[..|s| - 1]) && Step(prev, s[|s| - 1]) == (st, false)
  {
    var u, b := s[..|s| - 1], s[|s| - 1];
    match st {
      case Ground =>
      case Escape =>
        prev := Ground;
      case CsiParams(had) =>
        var params :| CsiWith(s, params, []) && had == (params != []);
        if params == [] {
          prev := Escape;
        } else {
          var p := params[..|params| - 1];
          assert CsiWith(u, p, []);
          prev := CsiParams(p != []);
        }
      case CsiIntermediate =>
        var params, inter :| CsiWith(s, params, inter) && inter != [];
        var i := inter[..|inter| - 1];
        assert CsiWith(u, params, i);
        prev := if i == [] then CsiParams(params != []) else CsiIntermediate;
      case X10Mouse(seen) =>
        if seen == 0 {
          assert s == s[..3];
          assert CsiWith(u, [], []);
          prev := CsiParams(false);
        } else {
          assert u[..3] == s[..3];
          prev := X10Mouse(seen - 1);
        }
      case ControlString(pending) =>
        if |s| == 2 {
          prev := Escape;
        } else {
          assert u[2..] == s[2..][..|s| - 3];
          assert s[2..][|s| - 3] == b && b != BEL;
          assert |s| > 3 ==> s[2..][|s| - 4] == s[|s| - 2];
          prev := ControlString(|u| > 2 && u[|u| - 1] == ESC);
        }
    }
  }

  lemma {:induction false} OpenRuns(st: InputState, s: seq<Byte>)
    requires Open(st, s)
    ensures Run(Ground, s) == (st, false)
    decreases |s|
  {
    if s != [] {
      var prev := OpenUnstep(st, s);
      OpenRuns(prev, s[..|s| - 1]);
    } else {
      assert st == Ground;
    }
  }

  lemma ReportRuns(s: seq<Byte>)
    requires Report(s)
    ensures Run(Ground, s) == (Ground, false)
  {
    var u := s[..|s| - 1];
    if CsiReport(s) {
      var params, inter :| CsiReportWith(s, params, inter);
      OpenRuns(if inter == [] then CsiParams(params != []) else CsiIntermediate, u);
    } else if X10Report(s) {
      assert u[..3] == s[..3];
      OpenRuns(X10Mouse(2), u);
    } else {
      OpenRuns(ControlString(|u| > 2 && u[|u| - 1] == ESC), u);
    }
  }

  lemma {:induction false} ReportsRun(reports: seq<seq<Byte>>)
    requires forall i :: 0 <= i < |reports| ==> Report(reports[i])
    ensures Run(Ground, Flatten(reports)) == (Ground, false)
  {
    if reports != [] {
      var n := |reports| - 1;
      ReportsRun(reports[..n]);
      ReportRuns(reports[n]);
      RunConcat(Ground, Flatten(reports[..n]), reports[n]);
    }
  }

  /** A quiet run splits into complete reports and what is open at its end. */
  lemma {:induction false} QuietRunSplits(s: seq<Byte>)
    returns (reports: seq<seq<Byte>>, tail: seq<Byte>)
    requires !Run(Ground, s).1
    ensures s == Flatten(reports) + tail
    ensures forall i :: 0 <= i < |reports| ==> Report(reports[i])
    ensures Open(Run(Ground, s).0, tail)
  {
    if s == [] {
      reports, tail := [], [];
    } else {
      var n := |s| - 1;
      var rs, t := QuietRunSplits(s[..n]);
      var st := Run(Ground, s[..n]).0;
      reports, tail := SplitStep(st, rs, t, s[n]);
      assert s == Flatten(rs) + t + [s[n]];
    }
  }

  lemma SplitStep(st: InputState, rs: seq<seq<Byte>>, t: seq<Byte>, b: Byte)
    returns (reports: seq<seq<Byte>>, tail: seq<Byte>)
    requires !Step(st, b).1 && Open(st, t)
    requires forall i :: 0 <= i < |rs| ==> Report(rs[i])
    ensures Flatten(reports) + tail == Flatten(rs) + t + [b]
    ensures forall i :: 0 <= i < |reports| ==> Report(reports[i])
    ensures Open(Step(st, b).0, tail)
  {
    OpenStep(st, t, b);
    if Step(st, b).0 == Ground {
      reports, tail := rs + [t + [b]], [];
      FlattenLast(rs, t + [b]);
      ReportsLast(rs, t + [b]);
      assert Flatten(rs) + (t + [b]) + [] == Flatten(rs) + t + [b];
    } else {
      reports, tail := rs, t + [b];
      assert Flatten(rs) + (t + [b]) == Flatten(rs) + t + [b];
    }
  }

  lemma ReportsLast(rs: seq<seq<Byte>>, r: seq<Byte>)
    requires Report(r) && forall i :: 0 <= i < |rs| ==> Report(rs[i])
    ensures forall i :: 0 <= i < |rs + [r]| ==> Report((rs + [r])[i])
  {
  }

  lemma OpenIsUnfinished(st: InputState, s: seq<Byte>)
    requires Open(st, s)
    ensures Unfinished(s)
  {
  }

  /** The classifier decides the language of terminal reports. */
  lemma NoUserInputIffOnlyReports(s: seq<Byte>)
    ensures !Run(Ground, s).1 <==> exists reports, tail :: OnlyReports(s, reports, tail)
  {
    if !Run(Ground, s).1 {
      var reports, tail := QuietRunSplits(s);
      OpenIsUnfinished(Run(Ground, s).0, tail);
      assert OnlyReports(s, reports, tail);
    }
    if exists reports, tail :: OnlyReports(s, reports, tail) {
      var reports, tail :| OnlyReports(s, reports, tail);
      ReportsRun(reports);
      var st := UnfinishedIsOpen(tail);
      OpenRuns(st, tail);
      RunConcat(Ground, Flatten(reports), tail);
    }
  }

  /** "Unfinished" means exactly: some further bytes complete one report. */
  lemma UnfinishedIffCompletable(s: seq<Byte>)
    ensures Unfinished(s) <==> exists rest :: rest != [] && Report(s + rest)
  {
    if Unfinished(s) {
      var st := UnfinishedIsOpen(s);
      var rest := Completion(st);
      CompletionCompletes(st, s);
      assert Report(s + rest);
    }
    if exists rest :: rest != [] && Report(s + rest) {
      var rest :| rest != [] && Report(s + rest);
      var t := s + rest;
      var prev := ReportUnstep(t);
      OpenPrefix(prev, t[..|t| - 1], |s|);
      assert t[..|t| - 1][..|s|] == s;
    }
  }

  function Completion(st: InputState): (rest: seq<Byte>)
    ensures rest != []
  {
    match st
    case Ground => [ESC, BRACKET, 0x49]
    case Escape => [BRACKET, 0x49]
    case CsiParams(_) => [0x49]
    case CsiIntermediate => [0x49]
    case X10Mouse(seen) => if seen == 0 then [0, 0, 0] else if seen == 1 then [0, 0] else [0]
    case ControlString(_) => [BEL]
  }

  lemma CompletionCompletes(st: InputState, s: seq<Byte>)
    requires Open(st, s)
    ensures Report(s + Completion(st))
  {
    var rest := Completion(st);
    var t := s + rest;
    match st {
      case Ground =>
        assert CsiReportWith(t, [], []);
      case Escape =>
        assert CsiReportWith(t, [], []);
      case CsiParams(_) =>
        OpenStep(st, s, 0x49);
      case CsiIntermediate =>
        OpenStep(st, s, 0x49);
      case X10Mouse(_) =>
        assert t[..3] == s[..3];
      case ControlString(_) =>
        OpenStep(st, s, BEL);
    }
  }

  lemma ReportUnstep(s: seq<Byte>) returns (prev: InputState)
    requires Report(s)
    ensures Open(prev, s[..|s| - 1])
  {
    var u := s[..|s| - 1];
    if CsiReport(s) {
      var params, inter :| CsiReportWith(s, params, inter);
      prev := if inter == [] then CsiParams(params != []) else CsiIntermediate;
    } else if X10Report(s) {
      assert u[..3] == s[..3];
      prev := X10Mouse(2);
    } else {
      prev := ControlString(|u| > 2 && u[|u| - 1] == ESC);
    }
  }

  lemma {:induction false} OpenPrefix(st: InputState, s: seq<Byte>, k: nat)
    requires Open(st, s) && k <= |s|
    ensures Unfinished(s[..k])
    decreases |s|
  {
    if k == |s| {
      assert s[..k] == s;
      OpenIsUnfinished(st, s);
    } else {
      var prev := OpenUnstep(st, s);
      OpenPrefix(prev, s[..|s| - 1], k);
      assert s[..|s| - 1][..k] == s[..k];
    }
  }
}
