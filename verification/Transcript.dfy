/** Reading a growing transcript in windows of complete lines. */
module Transcript {
  import opened Wrappers
  import opened Base64
  import opened Lines

  type Value(!new)
  type Item(!new)

  /** What a line is: blank, a record, or malformed; and the reasoning that a record at an offset exposes. */
  datatype Reader = Reader(blank: Bytes -> bool, parse: Bytes -> Option<Value>, item: (Value, nat) -> Option<Item>)

  /** What a read reports, in order: records, the reasoning exposed by them, and lines that could not be parsed. */
  datatype Event = Record(value: Value) | Reasoning(item: Item) | Malformed

  type Found = seq<Event>

  datatype Delta = Delta(start: nat, cursor: nat, found: Found)

  function InLine(reader: Reader, line: Bytes, offset: nat): Found {
    if reader.blank(line) then []
    else
      match reader.parse(line)
      case None => [Malformed]
      case Some(value) =>
        var item := reader.item(value, offset);
        if item.Some? then [Record(value), Reasoning(item.value)] else [Record(value)]
  }

  /** Everything in consecutive lines, the first of which starts at the offset. */
  function InLines(reader: Reader, lines: seq<Bytes>, offset: nat): Found
    decreases |lines|
  {
    if lines == [] then []
    else InLine(reader, lines[0], offset) + InLines(reader, lines[1..], offset + |lines[0]| + 1)
  }

  /** A cursor beyond the file means that the file was replaced. */
  function StartOf(cursor: int, size: nat): nat {
    if cursor > size then 0 else if cursor < 0 then 0 else cursor
  }

  /** The bytes that one read looks at; without a limit also those that were added since the size was taken. */
  function Window(file: Bytes, size: nat, start: nat, maxBytes: Option<nat>): Bytes
    requires start <= size <= |file|
  {
    if start == size then []
    else
      match maxBytes
      case None => file[start..]
      case Some(limit) => file[start..if start + limit < size then start + limit else size]
  }

  function Read(reader: Reader, file: Bytes, size: nat, cursor: int, maxBytes: Option<nat>): Delta
    requires size <= |file|
  {
    var start := StartOf(cursor, size);
    var lines := LinesOf(Window(file, size, start, maxBytes));
    Delta(start, start + |Joined(lines)|, InLines(reader, lines, start))
  }

  function Flatten(chunks: seq<Bytes>): Bytes {
    if chunks == [] then [] else Flatten(chunks[..|chunks| - 1]) + chunks[|chunks| - 1]
  }

  lemma InLinesCons(reader: Reader, line: Bytes, lines: seq<Bytes>, offset: nat)
    ensures InLines(reader, [line] + lines, offset) ==
              InLine(reader, line, offset) + InLines(reader, lines, offset + |line| + 1)
    ensures Size([line] + lines) == |line| + 1 + Size(lines)
  {
    assert ([line] + lines)[1..] == lines;
  }

  lemma {:induction false} InLinesConcat(reader: Reader, a: seq<Bytes>, b: seq<Bytes>, offset: nat)
    ensures InLines(reader, a + b, offset) == InLines(reader, a, offset) + InLines(reader, b, offset + Size(a))
    decreases |a|
  {
    if a == [] {
      assert a + b == b;
    } else {
      var line, rest, next := a[0], a[1..], offset + |a[0]| + 1;
      InLinesConcat(reader, rest, b, next);
      assert a == [line] + rest;
      InLinesConcatCons(reader, line, rest, b, offset, InLines(reader, rest, next),
          InLines(reader, b, next + Size(rest)));
    }
  }

  lemma InLinesConcatCons(reader: Reader, line: Bytes, rest: seq<Bytes>, b: seq<Bytes>, offset: nat, left: Found,
      right: Found)
    requires left == InLines(reader, rest, offset + |line| + 1) &&
             InLines(reader, rest + b, offset + |line| + 1) == left + right
    ensures InLines(reader, [line] + rest + b, offset) == InLine(reader, line, offset) + left + right
    ensures InLines(reader, [line] + rest, offset) == InLine(reader, line, offset) + left
    ensures Size([line] + rest) == |line| + 1 + Size(rest)
  {
    Regroup([line], rest, b);
    InLinesCons(reader, line, rest, offset);
    InLinesCons(reader, line, rest + b, offset);
    Regroup(InLine(reader, line, offset), left, right);
  }

  lemma InOneLine(reader: Reader, line: Bytes, offset: nat)
    ensures InLines(reader, [line], offset) == InLine(reader, line, offset) && Size([line]) == |line| + 1
  {
    assert [line] + [] == [line];
    InLinesCons(reader, line, [], offset);
  }

  // ---- The reader ----

  /** Goes through a chunk byte by byte, behind the bytes carried over, and takes every line it completes. */
  method TakeLines(reader: Reader, input: Bytes, offset: nat)
      returns (found: Found, lineStart: nat, ghost lines: seq<Bytes>)
    ensures AllPlain(lines) && lineStart <= |input| && input[..lineStart] == Joined(lines) && Plain(input[lineStart..])
    ensures found == InLines(reader, lines, offset)
  {
    found, lineStart, lines := [], 0, [];
    for index := 0 to |input|
      invariant lineStart <= index && Plain(input[lineStart..index])
      invariant AllPlain(lines) && input[..lineStart] == Joined(lines)
      invariant found == InLines(reader, lines, offset)
    {
      if input[index] == NEWLINE {
        var line := input[lineStart..index];
        LineTaken(reader, input, lines, lineStart, index, offset);
        found := found + InLine(reader, line, offset + lineStart);
        lines := lines + [line];
        lineStart := index + 1;
      } else {
        PlainGrows(input, lineStart, index);
      }
    }
    assert input[lineStart..|input|] == input[lineStart..];
  }

  lemma PlainGrows(input: Bytes, from: nat, index: nat)
    requires from <= index < |input| && Plain(input[from..index]) && input[index] != NEWLINE
    ensures Plain(input[from..index + 1])
  {
    assert input[from..index + 1] == input[from..index] + [input[index]];
  }

  lemma LineTaken(reader: Reader, input: Bytes, lines: seq<Bytes>, from: nat, index: nat, offset: nat)
    requires from <= index < |input| && input[..from] == Joined(lines) && input[index] == NEWLINE
    ensures var line := input[from..index];
            && input[..index + 1] == Joined(lines + [line])
            && InLines(reader, lines + [line], offset) ==
               InLines(reader, lines, offset) + InLine(reader, line, offset + from)
  {
    var line := input[from..index];
    LineJoined(lines, line);
    LineDone(reader, lines, line, offset);
    SizeOfJoined(lines);
    SliceOn(input, from, index);
  }

  lemma SliceOn(input: Bytes, from: nat, index: nat)
    requires from <= index < |input|
    ensures input[..index + 1] == input[..from] + (input[from..index] + [input[index]])
  {
  }

  lemma LineJoined(done: seq<Bytes>, line: Bytes)
    ensures Joined(done + [line]) == Joined(done) + (line + [NEWLINE])
  {
    JoinedConcat(done, [line]);
    JoinedCons(line, []);
    assert [line] + [] == [line] && line + [NEWLINE] + [] == line + [NEWLINE];
  }

  lemma LineDone(reader: Reader, done: seq<Bytes>, line: Bytes, offset: nat)
    ensures InLines(reader, done + [line], offset) ==
              InLines(reader, done, offset) + InLine(reader, line, offset + Size(done))
  {
    InLinesConcat(reader, done, [line], offset);
    InOneLine(reader, line, offset + Size(done));
  }

  function Limit(maxBytes: Option<int>): Option<nat> {
    match maxBytes
    case None => None
    case Some(limit) => Some(if limit < 0 then 0 else limit)
  }

  /** However the window is cut into chunks, the read finds the same and stops at the same place. */
  method ReadExposedReasoningDelta(reader: Reader, file: Bytes, size: nat, cursor: int, maxBytes: Option<int>,
      chunks: seq<Bytes>)
    returns (delta: Option<Delta>)
    requires size <= |file| && Flatten(chunks) == Window(file, size, StartOf(cursor, size), Limit(maxBytes))
    ensures delta.None? <==> StartOf(cursor, size) < size && maxBytes.Some? && maxBytes.value <= 0
    ensures delta.Some? ==> delta.value == Read(reader, file, size, cursor, Limit(maxBytes))
    ensures delta.Some? ==> FindsWithin(reader, file, size, cursor, maxBytes, delta.value)
  {
    ReadFinds(reader, file, size, cursor, Limit(maxBytes));
    var start := StartOf(cursor, size);
    if start != size && maxBytes.Some? && maxBytes.value <= 0 {
      return None;
    }
    ghost var lines: seq<Bytes>;
    var consumed, found;
    consumed, found, lines := ReadChunks(reader, chunks, start);
    delta := Some(Delta(start, start + consumed, found));
  }

  method ReadChunks(reader: Reader, chunks: seq<Bytes>, start: nat)
      returns (consumed: nat, found: Found, ghost lines: seq<Bytes>)
    ensures lines == LinesOf(Flatten(chunks))
    ensures consumed == |Joined(lines)| && found == InLines(reader, lines, start)
  {
    ghost var carry;
    consumed, found, lines, carry := CutChunks(reader, chunks, start);
    SplitJoin(lines, carry);
  }

  method CutChunks(reader: Reader, chunks: seq<Bytes>, start: nat)
    returns (consumed: nat, found: Found, ghost lines: seq<Bytes>, ghost rest: Bytes)
    ensures AllPlain(lines) && Plain(rest) && Joined(lines) + rest == Flatten(chunks)
    ensures consumed == |Joined(lines)| && found == InLines(reader, lines, start)
  {
    var carry: Bytes := [];
    consumed, found, lines := 0, [], [];
    for i := 0 to |chunks|
      invariant AllPlain(lines) && Plain(carry) && Joined(lines) + carry == Flatten(chunks[..i])
      invariant consumed == |Joined(lines)| && found == InLines(reader, lines, start)
    {
      consumed, found, carry, lines := TakeChunk(reader, lines, carry, chunks[i], start, consumed, found);
      assert chunks[..i + 1][..i] == chunks[..i];
    }
    assert chunks[..|chunks|] == chunks;
    rest := carry;
  }

  method TakeChunk(reader: Reader, ghost before: seq<Bytes>, carry: Bytes, chunk: Bytes, start: nat,
      consumedBefore: nat, foundBefore: Found)
    returns (consumed: nat, found: Found, rest: Bytes, ghost lines: seq<Bytes>)
    requires AllPlain(before) && Plain(carry)
    requires consumedBefore == |Joined(before)| && foundBefore == InLines(reader, before, start)
    ensures AllPlain(lines) && Plain(rest) && Joined(lines) + rest == Joined(before) + carry + chunk
    ensures consumed == |Joined(lines)| && found == InLines(reader, lines, start)
  {
    var input := carry + chunk;
    ghost var more: seq<Bytes>;
    var here, lineStart;
    here, lineStart, more := TakeLines(reader, input, start + consumedBefore);
    BytesDone(before, carry, chunk, more, lineStart, Joined(before) + carry);
    SizeOfJoined(before);
    FoundDone(reader, before, more, start, foundBefore, here);
    found := foundBefore + here;
    consumed := consumedBefore + lineStart;
    rest := input[lineStart..];
    lines := before + more;
  }

  lemma BytesDone(lines: seq<Bytes>, carry: Bytes, chunk: Bytes, more: seq<Bytes>, lineStart: nat, before: Bytes)
    requires Joined(lines) + carry == before && lineStart <= |carry + chunk| &&
             (carry + chunk)[..lineStart] == Joined(more)
    ensures Joined(lines + more) + (carry + chunk)[lineStart..] == before + chunk
    ensures |Joined(lines + more)| == |Joined(lines)| + lineStart
  {
    var input := carry + chunk;
    JoinedConcat(lines, more);
    Regroup(Joined(lines), carry, chunk);
    Regroup(Joined(lines), Joined(more), input[lineStart..]);
    assert input == Joined(more) + input[lineStart..];
  }

  lemma FoundDone(reader: Reader, lines: seq<Bytes>, more: seq<Bytes>, start: nat, found: Found, here: Found)
    requires found == InLines(reader, lines, start) && here == InLines(reader, more, start + Size(lines))
    ensures found + here == InLines(reader, lines + more, start)
  {
    InLinesConcat(reader, lines, more, start);
  }

  // ---- Windows and lines ----

  /** The start of the file or the byte after a newline. */
  predicate Boundary(file: Bytes, cursor: nat) {
    cursor == 0 || (cursor <= |file| && file[cursor - 1] == NEWLINE)
  }

  lemma {:induction false} JoinedEnds(lines: seq<Bytes>)
    requires lines != []
    ensures Joined(lines) != [] && Joined(lines)[|Joined(lines)| - 1] == NEWLINE
    decreases |lines|
  {
    if |lines| > 1 {
      JoinedEnds(lines[1..]);
    }
  }

  function WindowEnd(file: Bytes, size: nat, start: nat, maxBytes: Option<nat>): nat
    requires start <= size <= |file|
  {
    if start == size then start
    else if maxBytes.None? then |file|
    else if start + maxBytes.value < size then start + maxBytes.value
    else size
  }

  /** A read takes lines from its start up to its cursor, which is a boundary again. */
  lemma ReadLines(reader: Reader, file: Bytes, size: nat, cursor: int, maxBytes: Option<nat>)
      returns (lines: seq<Bytes>)
    requires size <= |file|
    ensures var d := Read(reader, file, size, cursor, maxBytes);
            var end := WindowEnd(file, size, d.start, maxBytes);
            && lines == LinesOf(file[d.start..end])
            && d.start <= d.cursor <= end <= |file|
            && AllPlain(lines) && Joined(lines) == file[d.start..d.cursor]
            && d.found == InLines(reader, lines, d.start)
            && (Boundary(file, d.start) ==> Boundary(file, d.cursor))
  {
    var start := StartOf(cursor, size);
    var end := WindowEnd(file, size, start, maxBytes);
    assert Window(file, size, start, maxBytes) == file[start..end];
    lines := WindowLines(file, start, end);
  }

  lemma WindowLines(file: Bytes, start: nat, end: nat) returns (lines: seq<Bytes>)
    requires start <= end <= |file|
    ensures lines == LinesOf(file[start..end])
    ensures var cursor := start + |Joined(lines)|;
            && cursor <= end && AllPlain(lines) && Joined(lines) == file[start..cursor]
            && (Boundary(file, start) ==> Boundary(file, cursor))
  {
    var window := file[start..end];
    JoinSplit(window);
    lines := LinesOf(window);
    var rest := RestOf(window);
    JoinedIsPart(file, start, window, lines, rest);
  }

  lemma JoinedIsPart(file: Bytes, start: nat, window: Bytes, lines: seq<Bytes>, rest: Bytes)
    requires start + |window| <= |file| && window == file[start..start + |window|] && Joined(lines) + rest == window
    ensures var cursor := start + |Joined(lines)|;
            && cursor <= start + |window| && Joined(lines) == file[start..cursor]
            && (Boundary(file, start) ==> Boundary(file, cursor))
  {
    var joined := Joined(lines);
    assert joined == window[..|joined|] == file[start..start + |joined|];
    if lines != [] {
      JoinedEnds(lines);
      assert file[start + |joined| - 1] == joined[|joined| - 1];
    }
  }

  // ---- Main results ----

  /** One read of a series: how much of the file there was and may be looked at. */
  datatype Visit = Visit(size: nat, seen: nat, maxBytes: Option<nat>)

  /** The reads see ever more of the file, and each starts where the one before stopped. */
  predicate Growing(file: Bytes, visits: seq<Visit>) {
    && (forall i :: 0 <= i < |visits| ==> visits[i].size <= visits[i].seen <= |file|)
    && (forall i, j :: 0 <= i < j < |visits| ==> visits[i].seen <= visits[j].size)
  }

  /** Reads one after another: the last cursor, and all that was found. */
  function Series(reader: Reader, file: Bytes, cursor: nat, visits: seq<Visit>): (nat, Found)
    requires Growing(file, visits)
    decreases |visits|
  {
    if visits == [] then (cursor, [])
    else
      var v := visits[0];
      var d := Read(reader, file[..v.seen], v.size, cursor, v.maxBytes);
      var rest := Series(reader, file, d.cursor, visits[1..]);
      (rest.0, d.found + rest.1)
  }

  /** What one read of all that there is now finds from the cursor on. */
  function OneShot(reader: Reader, file: Bytes, cursor: nat): Delta {
    Read(reader, file, |file|, cursor, None)
  }

  lemma OneShotMeans(reader: Reader, file: Bytes, cursor: nat) returns (lines: seq<Bytes>, rest: Bytes)
    requires cursor <= |file|
    ensures lines == LinesOf(file[cursor..])
    ensures AllPlain(lines) && Plain(rest) && file[cursor..] == Joined(lines) + rest
    ensures OneShot(reader, file, cursor) == Delta(cursor, cursor + |Joined(lines)|, InLines(reader, lines, cursor))
  {
    lines := ReadLines(reader, file, |file|, cursor, None);
    assert file[cursor..|file|] == file[cursor..];
    JoinSplit(file[cursor..]);
    rest := RestOf(file[cursor..]);
  }

  /**
   * For any windows and any growth, a series of reads finds a first part of what one read of the whole file finds,
   * with the same offsets, and the one read from where it stopped finds just the remainder.
   */
  lemma {:induction false} SeriesIsOneShot(reader: Reader, file: Bytes, cursor: nat, visits: seq<Visit>)
    requires Growing(file, visits) && cursor <= (if visits == [] then |file| else visits[0].size)
    ensures var (last, found) := Series(reader, file, cursor, visits);
            && cursor <= last <= |file|
            && OneShot(reader, file, cursor).found == found + OneShot(reader, file, last).found
            && OneShot(reader, file, cursor).cursor == OneShot(reader, file, last).cursor
            && (Boundary(file, cursor) ==> Boundary(file, last))
    decreases |visits|
  {
    if visits == [] {
    } else {
      var v := visits[0];
      var d := Read(reader, file[..v.seen], v.size, cursor, v.maxBytes);
      VisitIsPart(reader, file, cursor, v);
      SeriesIsOneShot(reader, file, d.cursor, visits[1..]);
      var rest := Series(reader, file, d.cursor, visits[1..]);
      Regroup(d.found, rest.1, OneShot(reader, file, rest.0).found);
    }
  }

  /** Reading on after some lines finds the rest of what reading from before them finds. */
  lemma OneShotParts(reader: Reader, file: Bytes, cursor: nat, lines: seq<Bytes>, next: nat)
    requires cursor <= next <= |file| && AllPlain(lines) && file[cursor..next] == Joined(lines)
    ensures OneShot(reader, file, cursor).found == InLines(reader, lines, cursor) + OneShot(reader, file, next).found
    ensures OneShot(reader, file, cursor).cursor == OneShot(reader, file, next).cursor
    ensures LinesOf(file[cursor..]) == lines + LinesOf(file[next..])
  {
    var all, x := OneShotMeans(reader, file, cursor);
    var later, y := OneShotMeans(reader, file, next);
    TailParts(file, cursor, next, lines, all, x, later, y);
    SizeOfJoined(lines);
    FoundParts(reader, lines, later, cursor, next);
    LengthParts(lines, later, all);
  }

  lemma FoundParts(reader: Reader, lines: seq<Bytes>, later: seq<Bytes>, cursor: nat, next: nat)
    requires next == cursor + Size(lines)
    ensures InLines(reader, lines + later, cursor) == InLines(reader, lines, cursor) + InLines(reader, later, next)
  {
    var all := lines + later;
    InLinesConcat(reader, lines, later, cursor);
    assert InLines(reader, all, cursor) == InLines(reader, lines, cursor) + InLines(reader, later, next);
  }

  lemma LengthParts(lines: seq<Bytes>, later: seq<Bytes>, all: seq<Bytes>)
    requires all == lines + later
    ensures |Joined(all)| == |Joined(lines)| + |Joined(later)|
  {
    JoinedConcat(lines, later);
  }

  lemma TailParts(file: Bytes, cursor: nat, next: nat, lines: seq<Bytes>, all: seq<Bytes>, x: Bytes,
      later: seq<Bytes>, y: Bytes)
    requires cursor <= next <= |file| && AllPlain(lines) && file[cursor..next] == Joined(lines)
    requires AllPlain(all) && Plain(x) && file[cursor..] == Joined(all) + x
    requires AllPlain(later) && Plain(y) && file[next..] == Joined(later) + y
    ensures all == lines + later
  {
    assert file[cursor..] == Joined(lines) + (Joined(later) + y);
    BothParts(lines, later, y);
    CutUnique(all, x, lines + later, y);
  }

  lemma BothParts(lines: seq<Bytes>, later: seq<Bytes>, y: Bytes)
    ensures Joined(lines) + (Joined(later) + y) == Joined(lines + later) + y
  {
    JoinedConcat(lines, later);
    Regroup(Joined(lines), Joined(later), y);
  }

  lemma VisitIsPart(reader: Reader, file: Bytes, cursor: nat, v: Visit)
    requires v.size <= v.seen <= |file| && cursor <= v.size
    ensures var d := Read(reader, file[..v.seen], v.size, cursor, v.maxBytes);
            && cursor == d.start <= d.cursor <= v.seen
            && OneShot(reader, file, cursor).found == d.found + OneShot(reader, file, d.cursor).found
            && OneShot(reader, file, cursor).cursor == OneShot(reader, file, d.cursor).cursor
            && (Boundary(file, cursor) ==> Boundary(file, d.cursor))
  {
    var seen := file[..v.seen];
    var lines := ReadLines(reader, seen, v.size, cursor, v.maxBytes);
    var d := Read(reader, seen, v.size, cursor, v.maxBytes);
    SamePart(file, v.seen, d.start, d.cursor);
    OneShotParts(reader, file, cursor, lines, d.cursor);
  }

  lemma SamePart(file: Bytes, seen: nat, from: nat, end: nat)
    requires from <= end <= seen <= |file|
    ensures file[..seen][from..end] == file[from..end]
  {
  }

  /** A read moves on exactly if its window has a newline in it. */
  lemma MovesIff(reader: Reader, file: Bytes, size: nat, cursor: nat, limit: nat)
    requires cursor < size <= |file|
    ensures var end := if cursor + limit < size then cursor + limit else size;
            Read(reader, file, size, cursor, Some(limit)).cursor > cursor <==> exists i ::
                cursor <= i < end && file[i] == NEWLINE
  {
    var end := if cursor + limit < size then cursor + limit else size;
    var window := file[cursor..end];
    assert Window(file, size, cursor, Some(limit)) == window;
    WindowMoves(window);
    if i :| 0 <= i < |window| && window[i] == NEWLINE {
      assert file[cursor + i] == NEWLINE;
    }
    if i :| cursor <= i < end && file[i] == NEWLINE {
      assert window[i - cursor] == NEWLINE;
    }
  }

  lemma WindowMoves(window: Bytes)
    ensures Joined(LinesOf(window)) != [] <==> exists i :: 0 <= i < |window| && window[i] == NEWLINE
  {
    var n := FirstNewline(window);
    FirstLine(window);
    if n < |window| {
      assert window[n] == NEWLINE;
      JoinedEnds(LinesOf(window));
    } else {
      assert window[..n] == window;
    }
  }

  /** A line that does not fit into the window stops every later read of that size, however the file grows. */
  lemma TooLongALineStops(reader: Reader, file: Bytes, more: Bytes, size: nat, cursor: nat, limit: nat)
    requires cursor + limit <= |file| && forall i :: cursor <= i < cursor + limit ==> file[i] != NEWLINE
    requires cursor < size <= |file + more|
    ensures Read(reader, file + more, size, cursor, Some(limit)).cursor == cursor
  {
    MovesIff(reader, file + more, size, cursor, limit);
    var lines := ReadLines(reader, file + more, size, cursor, Some(limit));
  }

  // ---- Reading on until nothing moves ----

  function Drained(reader: Reader, file: Bytes, cursor: nat, limit: nat): (nat, Found)
    requires cursor <= |file|
    decreases |file| - cursor
  {
    var d := Read(reader, file, |file|, cursor, Some(limit));
    if d.cursor <= cursor || d.cursor > |file| then (cursor, [])
    else
      var rest := Drained(reader, file, d.cursor, limit);
      (rest.0, d.found + rest.1)
  }

  predicate LinesFit(lines: seq<Bytes>, limit: nat) {
    forall i :: 0 <= i < |lines| ==> |lines[i]| + 1 <= limit
  }

  lemma {:induction false} JoinedLength(lines: seq<Bytes>, i: nat)
    requires i < |lines|
    ensures |lines[i]| + 1 <= |Joined(lines)|
    decreases |lines|
  {
    if i > 0 {
      JoinedLength(lines[1..], i - 1);
    }
  }

  lemma StuckIffTooLong(reader: Reader, file: Bytes, cursor: nat, limit: nat)
    requires cursor <= |file| && Read(reader, file, |file|, cursor, Some(limit)).cursor == cursor
    ensures LinesOf(file[cursor..]) == [] <==> LinesFit(LinesOf(file[cursor..]), limit)
  {
    var tail := file[cursor..];
    var n := FirstNewline(tail);
    if n < |tail| {
      assert file[cursor + n] == NEWLINE;
      MovesIff(reader, file, |file|, cursor, limit);
      assert n >= limit;
      assert LinesOf(tail)[0] == tail[..n];
    }
  }

  lemma TakenLinesFit(reader: Reader, file: Bytes, cursor: nat, limit: nat)
    requires cursor < |file|
    ensures var d := Read(reader, file, |file|, cursor, Some(limit));
            d.cursor <= |file| &&
                (LinesFit(LinesOf(file[cursor..]), limit) <==> LinesFit(LinesOf(file[d.cursor..]), limit))
  {
    var d := Read(reader, file, |file|, cursor, Some(limit));
    var taken := ReadLines(reader, file, |file|, cursor, Some(limit));
    OneShotParts(reader, file, cursor, taken, d.cursor);
    var later := LinesOf(file[d.cursor..]);
    forall i | 0 <= i < |taken| ensures |taken[i]| + 1 <= limit {
      JoinedLength(taken, i);
    }
    LinesFitParts(taken, later, limit);
  }

  lemma LinesFitParts(taken: seq<Bytes>, later: seq<Bytes>, limit: nat)
    requires LinesFit(taken, limit)
    ensures LinesFit(taken + later, limit) <==> LinesFit(later, limit)
  {
    if LinesFit(taken + later, limit) {
      forall i | 0 <= i < |later| ensures |later[i]| + 1 <= limit {
        assert (taken + later)[|taken| + i] == later[i];
      }
    }
  }

  /**
   * Reading on in bounded windows gets to the end, and finds what one read finds, exactly if every complete line fits.
   */
  lemma {:induction false} DrainedReachesEndIff(reader: Reader, file: Bytes, cursor: nat, limit: nat)
    requires cursor <= |file|
    ensures var (last, found) := Drained(reader, file, cursor, limit);
            && OneShot(reader, file, cursor).found == found + OneShot(reader, file, last).found
            && OneShot(reader, file, cursor).cursor == OneShot(reader, file, last).cursor
            && (last == OneShot(reader, file, cursor).cursor <==> LinesFit(LinesOf(file[cursor..]), limit))
    decreases |file| - cursor
  {
    var d := Read(reader, file, |file|, cursor, Some(limit));
    var lines := ReadLines(reader, file, |file|, cursor, Some(limit));
    var here, unfinished := OneShotMeans(reader, file, cursor);
    if d.cursor <= cursor {
      StuckIffTooLong(reader, file, cursor, limit);
    } else {
      var v := Visit(|file|, |file|, Some(limit));
      assert file[..|file|] == file;
      VisitIsPart(reader, file, cursor, v);
      DrainedReachesEndIff(reader, file, d.cursor, limit);
      var rest := Drained(reader, file, d.cursor, limit);
      Regroup(d.found, rest.1, OneShot(reader, file, rest.0).found);
      TakenLinesFit(reader, file, cursor, limit);
    }
  }

  // ---- What is found ----

  function RecordsIn(found: Found): seq<Value> {
    if found == [] then []
    else RecordsIn(found[..|found| - 1]) + if Last(found).Record? then [Last(found).value] else []
  }

  function ItemsIn(found: Found): seq<Item> {
    if found == [] then []
    else ItemsIn(found[..|found| - 1]) + if Last(found).Reasoning? then [Last(found).item] else []
  }

  function MalformedIn(found: Found): nat {
    if found == [] then 0 else MalformedIn(found[..|found| - 1]) + if Last(found).Malformed? then 1 else 0
  }

  function Last(found: Found): Event
    requires found != []
  {
    found[|found| - 1]
  }

  lemma {:induction false} SortedOutConcat(a: Found, b: Found)
    ensures RecordsIn(a + b) == RecordsIn(a) + RecordsIn(b)
    ensures ItemsIn(a + b) == ItemsIn(a) + ItemsIn(b)
    ensures MalformedIn(a + b) == MalformedIn(a) + MalformedIn(b)
    decreases |b|
  {
    if b == [] {
      assert a + b == a;
    } else {
      var front := b[..|b| - 1];
      assert (a + b)[..|a + b| - 1] == a + front && Last(a + b) == Last(b);
      SortedOutConcat(a, front);
    }
  }

  lemma SortedOutOne(e: Event)
    ensures RecordsIn([e]) == (if e.Record? then [e.value] else [])
    ensures ItemsIn([e]) == (if e.Reasoning? then [e.item] else [])
    ensures MalformedIn([e]) == if e.Malformed? then 1 else 0
  {
    assert [e][..0] == [];
  }

  /** The line holds a record. */
  predicate Good(reader: Reader, line: Bytes) {
    !reader.blank(line) && reader.parse(line).Some?
  }

  /** The records of the good lines, in order. */
  function Values(reader: Reader, lines: seq<Bytes>): seq<Value> {
    if lines == [] then []
    else (if Good(reader, lines[0]) then [reader.parse(lines[0]).value] else []) + Values(reader, lines[1..])
  }

  /** The reasoning they expose at the places at which they begin, each a newline behind the one before. */
  function Exposed(reader: Reader, lines: seq<Bytes>, offset: nat): seq<Item> {
    if lines == [] then []
    else
      var here := if Good(reader, lines[0]) then reader.item(reader.parse(lines[0]).value, offset) else None;
      (if here.Some? then [here.value] else []) + Exposed(reader, lines[1..], offset + |lines[0]| + 1)
  }

  /** How many lines are neither blank nor good. */
  function Bad(reader: Reader, lines: seq<Bytes>): nat {
    if lines == [] then 0
    else (if reader.blank(lines[0]) || Good(reader, lines[0]) then 0 else 1) + Bad(reader, lines[1..])
  }

  lemma LineFinds(reader: Reader, line: Bytes, offset: nat)
    ensures var found := InLine(reader, line, offset);
            var item := if Good(reader, line) then reader.item(reader.parse(line).value, offset) else None;
            && RecordsIn(found) == (if Good(reader, line) then [reader.parse(line).value] else [])
            && ItemsIn(found) == (if item.Some? then [item.value] else [])
            && MalformedIn(found) == (if reader.blank(line) || Good(reader, line) then 0 else 1)
  {
    SortedOutOne(Malformed);
    if Good(reader, line) {
      var value := reader.parse(line).value;
      SortedOutOne(Record(value));
      var item := reader.item(value, offset);
      if item.Some? {
        SortedOutOne(Reasoning(item.value));
        SortedOutConcat([Record(value)], [Reasoning(item.value)]);
        assert [Record(value)] + [Reasoning(item.value)] == [Record(value), Reasoning(item.value)];
      }
    }
  }

  lemma {:induction false} LinesFind(reader: Reader, lines: seq<Bytes>, offset: nat)
    ensures RecordsIn(InLines(reader, lines, offset)) == Values(reader, lines)
    ensures ItemsIn(InLines(reader, lines, offset)) == Exposed(reader, lines, offset)
    ensures MalformedIn(InLines(reader, lines, offset)) == Bad(reader, lines)
    decreases |lines|
  {
    if lines != [] {
      LineFinds(reader, lines[0], offset);
      LinesFind(reader, lines[1..], offset + |lines[0]| + 1);
      SortedOutConcat(InLine(reader, lines[0], offset), InLines(reader, lines[1..], offset + |lines[0]| + 1));
    }
  }

  /** The read is of the complete lines from its start to where the limit and the size end it. */
  ghost predicate FindsWithin(reader: Reader, file: Bytes, size: nat, cursor: int, maxBytes: Option<int>, r: Delta)
    requires size <= |file|
  {
    var start := if 0 <= cursor <= size then cursor else 0;
    var end :=
      if start == size then size
      else if maxBytes.None? then |file|
      else if start + maxBytes.value < size then start + maxBytes.value
      else size;
    && start <= end
    && var lines := LinesOf(file[start..end]);
       && r.start == start && r.cursor == start + |Joined(lines)|
       && RecordsIn(r.found) == Values(reader, lines)
       && ItemsIn(r.found) == Exposed(reader, lines, start)
       && MalformedIn(r.found) == Bad(reader, lines)
  }

  /**
   * A read starts at its cursor, or at the beginning if the file has been replaced, and finds the records, the
   * reasoning and the malformed lines of the complete lines within its window, which the limit and the size bound.
   */
  lemma ReadFinds(reader: Reader, file: Bytes, size: nat, cursor: int, maxBytes: Option<nat>)
    requires size <= |file|
    ensures FindsWithin(reader, file, size, cursor, maxBytes, Read(reader, file, size, cursor, maxBytes))
  {
    var start := StartOf(cursor, size);
    var window := Window(file, size, start, maxBytes);
    assert start == size ==> file[start..size] == [];
    assert maxBytes.None? && start < size ==> file[start..] == file[start..|file|];
    LinesFind(reader, LinesOf(window), start);
  }
}
