/**
 * Newline-terminated lines of bytes, and what is left after the last of them.
 *
 * Archive, transcript and step journal are all read as such lines, whole or as they arrive.
 */
module Lines {
  import opened Base64

  const NEWLINE: Byte := 10

  type Bytes = seq<Byte>

  predicate Plain(b: Bytes) {
    forall i :: 0 <= i < |b| ==> b[i] != NEWLINE
  }

  /** The index of the first newline, or the length if there is none. */
  function FirstNewline(b: Bytes): (n: nat)
    ensures n <= |b| && Plain(b[..n])
    ensures n < |b| ==> b[n] == NEWLINE
  {
    if b == [] then 0
    else if b[0] == NEWLINE then 0
    else
      var n := 1 + FirstNewline(b[1..]);
      assert b[..n] == [b[0]] + b[1..][..n - 1];
      n
  }

  datatype Cut = Cut(lines: seq<Bytes>, rest: Bytes)

  /** The complete lines of the input, without their newlines, and the unfinished rest. */
  function Split(b: Bytes): Cut
    decreases |b|
  {
    var n := FirstNewline(b);
    if n == |b| then Cut([], b)
    else
      var tail := Split(b[n + 1..]);
      Cut([b[..n]] + tail.lines, tail.rest)
  }

  function LinesOf(b: Bytes): seq<Bytes> {
    Split(b).lines
  }

  function RestOf(b: Bytes): Bytes {
    Split(b).rest
  }

  function Joined(lines: seq<Bytes>): Bytes {
    if lines == [] then [] else lines[0] + [NEWLINE] + Joined(lines[1..])
  }

  ghost predicate AllPlain(lines: seq<Bytes>) {
    forall i :: 0 <= i < |lines| ==> Plain(lines[i])
  }

  /** The length of the joined lines. */
  function Size(lines: seq<Bytes>): nat {
    if lines == [] then 0 else |lines[0]| + 1 + Size(lines[1..])
  }

  lemma {:induction false} SizeOfJoined(lines: seq<Bytes>)
    ensures |Joined(lines)| == Size(lines)
    decreases |lines|
  {
    if lines != [] {
      SizeOfJoined(lines[1..]);
    }
  }

  lemma NewlineAt(b: Bytes, n: nat)
    requires n < |b| && b[n] == NEWLINE && Plain(b[..n])
    ensures FirstNewline(b) == n
  {
    var m := FirstNewline(b);
    forall i | 0 <= i < n ensures b[i] != NEWLINE {
      assert b[i] == b[..n][i];
    }
    forall i | 0 <= i < m ensures b[i] != NEWLINE {
      assert b[i] == b[..m][i];
    }
  }

  lemma SplitPlain(b: Bytes)
    requires Plain(b)
    ensures FirstNewline(b) == |b| && Split(b) == Cut([], b)
  {
  }

  lemma SplitLine(line: Bytes, b: Bytes)
    requires Plain(line)
    ensures Split(line + [NEWLINE] + b) == Cut([line] + Split(b).lines, Split(b).rest)
  {
    var all := line + [NEWLINE] + b;
    assert all[..|line|] == line && all[|line| + 1..] == b;
    NewlineAt(all, |line|);
  }

  lemma FirstLine(b: Bytes)
    ensures LinesOf(b) != [] <==> FirstNewline(b) < |b|
    ensures LinesOf(b) != [] ==> LinesOf(b)[0] == b[..FirstNewline(b)]
  {
  }

  lemma JoinedCons(line: Bytes, lines: seq<Bytes>)
    ensures Joined([line] + lines) == line + [NEWLINE] + Joined(lines)
  {
    assert ([line] + lines)[1..] == lines;
  }

  ghost predicate Rejoins(b: Bytes, cut: Cut) {
    AllPlain(cut.lines) && Plain(cut.rest) && Joined(cut.lines) + cut.rest == b
  }

  lemma AroundNewline(b: Bytes, n: nat)
    requires n < |b| && b[n] == NEWLINE
    ensures b == b[..n] + [NEWLINE] + b[n + 1..]
  {
  }

  lemma {:induction false} CutRejoins(b: Bytes, cut: Cut)
    requires cut == Split(b)
    ensures Rejoins(b, cut)
    decreases |b|
  {
    var n := FirstNewline(b);
    if n == |b| {
      SplitNothing(b);
    } else {
      var line, tail := b[..n], b[n + 1..];
      var rest := Split(tail);
      CutRejoins(tail, rest);
      AroundNewline(b, n);
      JoinSplitStep(b, line, tail, rest);
    }
  }

  /** Splitting and joining undo each other. */
  lemma JoinSplit(b: Bytes)
    ensures AllPlain(Split(b).lines) && Plain(Split(b).rest)
    ensures Joined(Split(b).lines) + Split(b).rest == b
  {
    var cut := Split(b);
    CutRejoins(b, cut);
  }

  lemma SplitNothing(b: Bytes)
    requires FirstNewline(b) == |b|
    ensures Rejoins(b, Split(b))
  {
    assert b[..|b|] == b && Joined([]) + b == b;
  }

  lemma JoinSplitStep(b: Bytes, line: Bytes, tail: Bytes, cut: Cut)
    requires b == line + [NEWLINE] + tail && Plain(line) && Rejoins(tail, cut)
    ensures Rejoins(b, Cut([line] + cut.lines, cut.rest))
  {
    JoinLine(line, cut);
  }

  lemma JoinLine(line: Bytes, cut: Cut)
    requires Plain(line) && AllPlain(cut.lines)
    ensures AllPlain([line] + cut.lines)
    ensures Joined([line] + cut.lines) + cut.rest == line + [NEWLINE] + (Joined(cut.lines) + cut.rest)
  {
    JoinedCons(line, cut.lines);
    Regroup(line + [NEWLINE], Joined(cut.lines), cut.rest);
  }

  lemma Regroup<T>(a: seq<T>, b: seq<T>, c: seq<T>)
    ensures a + b + c == a + (b + c)
  {
  }

  lemma {:induction false} SplitJoin(lines: seq<Bytes>, rest: Bytes)
    requires AllPlain(lines) && Plain(rest)
    ensures Split(Joined(lines) + rest) == Cut(lines, rest)
    decreases |lines|
  {
    if lines == [] {
      assert Joined(lines) + rest == rest;
      SplitPlain(rest);
    } else {
      var tail := Joined(lines[1..]) + rest;
      assert Joined(lines) + rest == lines[0] + [NEWLINE] + tail;
      SplitLine(lines[0], tail);
      SplitJoin(lines[1..], rest);
      assert [lines[0]] + lines[1..] == lines;
    }
  }

  lemma CutConcat(a: Bytes, cut: Cut, b: Bytes)
    requires Rejoins(a, cut)
    ensures Split(a + b) == Cut(cut.lines + LinesOf(cut.rest + b), RestOf(cut.rest + b))
  {
    Regroup(Joined(cut.lines), cut.rest, b);
    SplitAfter(cut.lines, cut.rest + b);
  }

  /** What arrives later only continues the unfinished rest. */
  lemma SplitConcat(a: Bytes, b: Bytes)
    ensures Split(a + b) == Cut(Split(a).lines + Split(Split(a).rest + b).lines, Split(Split(a).rest + b).rest)
  {
    var cut := Split(a);
    CutRejoins(a, cut);
    CutConcat(a, cut, b);
  }

  lemma {:induction false} SplitAfter(lines: seq<Bytes>, b: Bytes)
    requires AllPlain(lines)
    ensures Split(Joined(lines) + b) == Cut(lines + Split(b).lines, Split(b).rest)
    decreases |lines|
  {
    if lines == [] {
      assert Joined(lines) + b == b && lines + Split(b).lines == Split(b).lines;
    } else {
      var tail := Joined(lines[1..]) + b;
      Regroup(lines[0] + [NEWLINE], Joined(lines[1..]), b);
      SplitLine(lines[0], tail);
      SplitAfter(lines[1..], b);
      Regroup([lines[0]], lines[1..], Split(b).lines);
      assert [lines[0]] + lines[1..] == lines;
    }
  }

  /** There is one way only to cut bytes into lines and an unfinished rest. */
  lemma CutUnique(a: seq<Bytes>, x: Bytes, b: seq<Bytes>, y: Bytes)
    requires AllPlain(a) && Plain(x) && AllPlain(b) && Plain(y) && Joined(a) + x == Joined(b) + y
    ensures a == b && x == y
  {
    SplitJoin(a, x);
    SplitJoin(b, y);
  }

  lemma {:induction false} JoinedConcat(a: seq<Bytes>, b: seq<Bytes>)
    ensures Joined(a + b) == Joined(a) + Joined(b)
    decreases |a|
  {
    if a == [] {
      assert a + b == b;
    } else {
      assert (a + b)[1..] == a[1..] + b;
      JoinedConcat(a[1..], b);
      assert Joined(a + b) == a[0] + [NEWLINE] + (Joined(a[1..]) + Joined(b));
    }
  }

  /** The search for a newline, byte by byte. */
  method IndexOfNewline(b: Bytes) returns (n: nat)
    ensures n == FirstNewline(b)
  {
    n := 0;
    while n < |b| && b[n] != NEWLINE
      invariant n <= |b| && Plain(b[..n])
    {
      n := n + 1;
    }
    if n < |b| {
      NewlineAt(b, n);
    } else {
      assert b[..n] == b;
      SplitPlain(b);
    }
  }
}
