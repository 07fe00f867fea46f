/** The control-line reader of the UDP fault injector: newline framing with a size limit. */
module Framing {
  import opened Base

  const CONTROL_LIMIT := 16 * 1024
  const NEWLINE: Byte := 0x0a

  /** What is queued for the main loop: a line to parse, an oversize error, end of input. */
  datatype Item = Line(bytes: seq<Byte>) | TooLong | EndOfInput

  /** Splitting on newlines; there is always a last, unterminated part. */
  function SplitLines(s: seq<Byte>): (parts: seq<seq<Byte>>)
    ensures |parts| >= 1
  {
    if s == [] then [[]]
    else
      var before := SplitLines(s[..|s| - 1]);
      var n := |before| - 1;
      if s[|s| - 1] == NEWLINE then before + [[]] else before[n := before[n] + [s[|s| - 1]]]
  }

  function JoinLines(parts: seq<seq<Byte>>): (s: seq<Byte>)
    requires |parts| >= 1
  {
    var n := |parts| - 1;
    if n == 0 then parts[0] else JoinLines(parts[..n]) + [NEWLINE] + parts[n]
  }

  lemma {:induction false} JoinLast(parts: seq<seq<Byte>>, b: Byte)
    requires |parts| >= 1
    ensures JoinLines(parts[|parts| - 1 := parts[|parts| - 1] + [b]]) == JoinLines(parts) + [b]
    ensures JoinLines(parts + [[]]) == JoinLines(parts) + [NEWLINE]
  {
  }

  /** The split loses nothing and leaves no newline inside a part. */
  lemma {:induction false} SplitIsExact(s: seq<Byte>)
    ensures JoinLines(SplitLines(s)) == s
    ensures forall i :: 0 <= i < |SplitLines(s)| ==> NEWLINE !in SplitLines(s)[i]
  {
    if s != [] {
      var n := |s| - 1;
      SplitIsExact(s[..n]);
      JoinLast(SplitLines(s[..n]), s[n]);
      assert s == s[..n] + [s[n]];
    }
  }

  /** `later` continuing the unterminated last part of `earlier`. */
  function Continue(earlier: seq<seq<Byte>>, later: seq<seq<Byte>>): (parts: seq<seq<Byte>>)
    requires |earlier| >= 1 && |later| >= 1
    ensures |parts| >= 1
  {
    var n := |earlier| - 1;
    earlier[..n] + [earlier[n] + later[0]] + later[1..]
  }

  lemma {:induction false} SplitConcat(a: seq<Byte>, b: seq<Byte>)
    ensures SplitLines(a + b) == Continue(SplitLines(a), SplitLines(b))
  {
    if b == [] {
      assert a + b == a;
      var parts := SplitLines(a);
      assert parts[|parts| - 1] + [] == parts[|parts| - 1];
      assert parts == Continue(parts, [[]]);
    } else {
      var c := b[..|b| - 1];
      assert (a + b)[..|a + b| - 1] == a + c;
      SplitConcat(a, c);
      ContinueStep(SplitLines(a), SplitLines(c), b[|b| - 1]);
    }
  }

  /** No other newline-free parts join to the same stream. */
  lemma {:induction false} SplitOfJoined(parts: seq<seq<Byte>>)
    requires |parts| >= 1 && forall i :: 0 <= i < |parts| ==> NEWLINE !in parts[i]
    ensures SplitLines(JoinLines(parts)) == parts
  {
    var n := |parts| - 1;
    SplitOnePart(parts[n]);
    if n > 0 {
      SplitOfJoined(parts[..n]);
      SplitAnother(JoinLines(parts[..n]), parts[n]);
    }
    assert parts == parts[..n] + [parts[n]];
  }

  lemma SplitAnother(front: seq<Byte>, part: seq<Byte>)
    requires SplitLines(part) == [part]
    ensures SplitLines(front + [NEWLINE] + part) == SplitLines(front) + [part]
  {
    var ended := front + [NEWLINE];
    assert ended[..|ended| - 1] == front;
    SplitConcat(ended, part);
    assert [] + part == part;
  }

  lemma {:induction false} SplitOnePart(part: seq<Byte>)
    requires NEWLINE !in part
    ensures SplitLines(part) == [part]
  {
    if part != [] {
      var n := |part| - 1;
      SplitOnePart(part[..n]);
      assert part[..n] + [part[n]] == part;
    }
  }

  lemma ContinueStep(x: seq<seq<Byte>>, y: seq<seq<Byte>>, b: Byte)
    requires |x| >= 1 && |y| >= 1
    ensures var z := Continue(x, y);
            Continue(x, y + [[]]) == z + [[]]
            && Continue(x, y[|y| - 1 := y[|y| - 1] + [b]]) == z[|z| - 1 := z[|z| - 1] + [b]]
  {
    assert (y + [[]])[1..] == y[1..] + [[]];
    if |y| == 1 {
      assert x[|x| - 1] + (y[0] + [b]) == x[|x| - 1] + y[0] + [b];
    }
  }

  function ItemOf(line: seq<Byte>): (item: Item) {
    if |line| > CONTROL_LIMIT then TooLong else Line(line)
  }

  function Items(lines: seq<seq<Byte>>): (items: seq<Item>)
    ensures |items| == |lines| && forall i :: 0 <= i < |lines| ==> items[i] == ItemOf(lines[i])
  {
    seq(|lines|, i requires 0 <= i < |lines| => ItemOf(lines[i]))
  }

  /** What a stream queues, read in one piece. */
  function Frame(stream: seq<Byte>): (items: seq<Item>) {
    var parts := SplitLines(stream);
    var n := |parts| - 1;
    Items(parts[..n]) + (if parts[n] == [] then [] else [ItemOf(parts[n])]) + [EndOfInput]
  }

  /** What a stream of lines queues: each, or an error if over 16384 bytes; a nonempty open one last; then the end. */
  lemma FrameOfLines(parts: seq<seq<Byte>>, i: nat)
    requires |parts| >= 1 && (forall j :: 0 <= j < |parts| ==> NEWLINE !in parts[j]) && i < |parts|
    ensures var items := Frame(JoinLines(parts));
            var open := parts[|parts| - 1];
            && |items| == |parts| + (if open == [] then 0 else 1)
            && items[|items| - 1] == EndOfInput
            && (i < |parts| - 1 || open != [] ==> items[i] == if |parts[i]| > 16384 then TooLong else Line(parts[i]))
  {
    SplitOfJoined(parts);
  }

  /** The unterminated line as the reader keeps it. */
  predicate Keeps(line: seq<Byte>, buffered: seq<Byte>, overlong: bool) {
    && (overlong <==> |line| > CONTROL_LIMIT)
    && buffered == (if overlong then [] else line)
  }

  /** Feeding one block: `earlier` is the split of everything read before it. */
  method FeedBlock(block: seq<Byte>, buffered0: seq<Byte>, overlong0: bool, ghost earlier: seq<seq<Byte>>)
    returns (queued: seq<Item>, buffered: seq<Byte>, overlong: bool)
    requires |earlier| >= 1 && Keeps(earlier[|earlier| - 1], buffered0, overlong0)
    ensures var all := Continue(earlier, SplitLines(block));
            Items(earlier[..|earlier| - 1]) + queued == Items(all[..|all| - 1])
            && Keeps(all[|all| - 1], buffered, overlong)
  {
    buffered, overlong, queued := buffered0, overlong0, [];
    var parts := SplitLines(block);
    ghost var e := |earlier| - 1;
    ghost var all := Continue(earlier, parts);
    ghost var open := earlier[e];
    for index := 0 to |parts|
      invariant 0 < index < |parts| ==> open == []
      invariant index == 0 ==> open == earlier[e] && queued == []
      invariant index < |parts| ==> |queued| == index
      invariant index == |parts| ==> |queued| == index - 1 && open == all[|all| - 1]
      invariant forall k :: 0 <= k < |queued| ==> queued[k] == ItemOf(all[e + k])
      invariant Keeps(open, buffered, overlong)
    {
      var part := parts[index];
      if !overlong {
        buffered := buffered + part;
        if |buffered| > CONTROL_LIMIT {
          buffered := [];
          overlong := true;
        }
      }
      open := open + part;
      assert open == all[e + index];
      if index < |parts| - 1 {
        queued := queued + [if overlong then TooLong else Line(buffered)];
        buffered, overlong, open := [], false, [];
      }
    }
    assert Items(all[..|all| - 1]) == Items(earlier[..e]) + queued;
  }

  /** Every ended line queued, the open one kept. */
  ghost predicate FramedParts(parts: seq<seq<Byte>>, commands: seq<Item>, buffered: seq<Byte>, overlong: bool)
    requires |parts| >= 1
  {
    commands == Items(parts[..|parts| - 1]) && Keeps(parts[|parts| - 1], buffered, overlong)
  }

  /** The reader's state after `stream`. */
  ghost predicate Framed(stream: seq<Byte>, commands: seq<Item>, buffered: seq<Byte>, overlong: bool) {
    FramedParts(SplitLines(stream), commands, buffered, overlong)
  }

  method ReadBlock(block: seq<Byte>, commands0: seq<Item>, buffered0: seq<Byte>, overlong0: bool,
                   ghost stream: seq<Byte>)
    returns (commands: seq<Item>, buffered: seq<Byte>, overlong: bool)
    requires Framed(stream, commands0, buffered0, overlong0)
    ensures Framed(stream + block, commands, buffered, overlong)
  {
    ghost var earlier := SplitLines(stream);
    var queued;
    queued, buffered, overlong := FeedBlock(block, buffered0, overlong0, earlier);
    commands := commands0 + queued;
    assert FramedParts(Continue(earlier, SplitLines(block)), commands, buffered, overlong);
    SplitConcat(stream, block);
  }

  /** At the end of input the open line, if there is one, is queued too. */
  lemma FramedEnd(stream: seq<Byte>, commands: seq<Item>, buffered: seq<Byte>, overlong: bool)
    requires Framed(stream, commands, buffered, overlong)
    ensures var last := if overlong then [TooLong] else if buffered != [] then [Line(buffered)] else [];
            Frame(stream) == commands + last + [EndOfInput]
  {
  }

  /**
   The reader thread. Each block is one nonempty read; the end of the list is the
   empty read that means end of input. `kept` is the most ever held between reads.
   */
  method ReadCommands(blocks: seq<seq<Byte>>) returns (commands: seq<Item>, ghost kept: nat)
    ensures commands == Frame(Flatten(blocks))
    ensures kept <= CONTROL_LIMIT
  {
    var buffered: seq<Byte>, overlong := [], false;
    commands, kept := [], 0;
    for i := 0 to |blocks|
      invariant Framed(Flatten(blocks[..i]), commands, buffered, overlong)
      invariant kept <= CONTROL_LIMIT
    {
      assert blocks[..i + 1][..i] == blocks[..i];
      commands, buffered, overlong := ReadBlock(blocks[i], commands, buffered, overlong, Flatten(blocks[..i]));
      kept := if |buffered| > kept then |buffered| else kept;
    }
    assert blocks[..|blocks|] == blocks;
    FramedEnd(Flatten(blocks), commands, buffered, overlong);
    if buffered != [] || overlong {
      commands := commands + [if overlong then TooLong else Line(buffered)];
    }
    commands := commands + [EndOfInput];
  }
}
