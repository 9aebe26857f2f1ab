/** Recovery archives as bytes: writing them, and reading them in chunks. */
module ArchiveBytes {
  import opened Wrappers
  import opened Base64
  import opened Lines
  import opened RecoveryManifest
  import opened Archive

  function Flatten(chunks: seq<Bytes>): Bytes {
    if chunks == [] then [] else Flatten(chunks[..|chunks| - 1]) + chunks[|chunks| - 1]
  }

  function Texts(chunks: seq<Bytes>): seq<string> {
    if chunks == [] then [] else Texts(chunks[..|chunks| - 1]) + [Encode(chunks[|chunks| - 1])]
  }

  function EncodeAll(codec: Codec, frames: seq<Frame>): seq<Bytes> {
    if frames == [] then [] else EncodeAll(codec, frames[..|frames| - 1]) + [codec.encode(frames[|frames| - 1])]
  }

  // ---- Writer ----

  /** A source file is written only if it still is what the inventory says. */
  predicate Unchanged(h: Hashing, file: Entry, chunks: seq<Bytes>) {
    |Flatten(chunks)| == file.bytes && h.file(Flatten(chunks)) == file.digest
  }

  predicate Writable(h: Hashing, m: Manifest, files: seq<Entry>, sources: seq<seq<Bytes>>) {
    && ValidManifest(m) && files == m.files && |sources| == |files|
    && forall i :: 0 <= i < |files| ==> Unchanged(h, files[i], sources[i])
  }

  function AllTexts(sources: seq<seq<Bytes>>): seq<seq<string>> {
    seq(|sources|, i requires 0 <= i < |sources| => Texts(sources[i]))
  }

  function Written(codec: Codec, h: Hashing, m: Manifest, sources: seq<seq<Bytes>>): Bytes
    requires |m.files| == |sources|
  {
    Joined(EncodeAll(codec, Frames(h, m, AllTexts(sources))))
  }

  lemma {:induction false} EncodeAllConcat(codec: Codec, a: seq<Frame>, b: seq<Frame>)
    ensures EncodeAll(codec, a + b) == EncodeAll(codec, a) + EncodeAll(codec, b)
    decreases |b|
  {
    if b == [] {
      assert a + b == a;
    } else {
      assert (a + b)[..|a + b| - 1] == a + b[..|b| - 1];
      EncodeAllConcat(codec, a, b[..|b| - 1]);
      Regroup(EncodeAll(codec, a), EncodeAll(codec, b[..|b| - 1]), [codec.encode(b[|b| - 1])]);
    }
  }

  function Emitted(codec: Codec, frames: seq<Frame>): Bytes {
    Joined(EncodeAll(codec, frames))
  }

  lemma EmittedConcat(codec: Codec, a: seq<Frame>, b: seq<Frame>)
    ensures Emitted(codec, a + b) == Emitted(codec, a) + Emitted(codec, b)
  {
    EncodeAllConcat(codec, a, b);
    JoinedConcat(EncodeAll(codec, a), EncodeAll(codec, b));
  }

  lemma EmittedOne(codec: Codec, f: Frame)
    ensures Emitted(codec, [f]) == codec.encode(f) + [NEWLINE]
  {
    assert [f][..0] == [];
    assert EncodeAll(codec, [f]) == [codec.encode(f)];
    JoinedCons(codec.encode(f), []);
    assert [codec.encode(f)] + [] == [codec.encode(f)];
  }

  lemma {:induction false} DataFramesConcat(a: seq<string>, b: seq<string>)
    ensures DataFrames(a + b) == DataFrames(a) + DataFrames(b)
    decreases |a|
  {
    if a == [] {
      assert a + b == b;
    } else {
      assert (a + b)[1..] == a[1..] + b;
      DataFramesConcat(a[1..], b);
    }
  }

  lemma {:induction false} FileFramesSnoc(files: seq<Entry>, texts: seq<seq<string>>, file: Entry, more: seq<string>)
    requires |files| == |texts|
    ensures FileFrames(files + [file], texts + [more]) ==
            FileFrames(files, texts) + ([FileFrame(file.path)] + DataFrames(more) + [EndFrame(file.path)])
    decreases |files|
  {
    if files == [] {
      assert files + [file] == [file] && texts + [more] == [more];
      assert [file][1..] == [] && [more][1..] == [];
    } else {
      assert (files + [file])[1..] == files[1..] + [file] && (texts + [more])[1..] == texts[1..] + [more];
      FileFramesSnoc(files[1..], texts[1..], file, more);
    }
  }

  /** What has been emitted once the first `count` files are written. */
  function EmittedUpTo(codec: Codec, m: Manifest, sources: seq<seq<Bytes>>, count: nat): Bytes
    requires count <= |m.files| == |sources|
  {
    Emitted(codec, [ManifestFrame(m)] + FileFrames(m.files[..count], AllTexts(sources)[..count]))
  }

  lemma EmittedNext(codec: Codec, m: Manifest, sources: seq<seq<Bytes>>, i: nat)
    requires i < |m.files| == |sources|
    ensures EmittedUpTo(codec, m, sources, i + 1) ==
              EmittedUpTo(codec, m, sources, i) + Emitted(codec, OneFile(m.files[i], sources[i]))
  {
    var files, texts := m.files, AllTexts(sources);
    assert files[..i + 1] == files[..i] + [files[i]] && texts[..i + 1] == texts[..i] + [texts[i]];
    FileFramesSnoc(files[..i], texts[..i], files[i], texts[i]);
    Regroup([ManifestFrame(m)], FileFrames(files[..i], texts[..i]), OneFile(files[i], sources[i]));
    EmittedConcat(codec, [ManifestFrame(m)] + FileFrames(files[..i], texts[..i]), OneFile(files[i], sources[i]));
  }

  lemma EmittedEnds(codec: Codec, h: Hashing, m: Manifest, sources: seq<seq<Bytes>>)
    requires |m.files| == |sources|
    ensures EmittedUpTo(codec, m, sources, 0) == codec.encode(ManifestFrame(m)) + [NEWLINE]
    ensures Written(codec, h, m, sources) ==
            EmittedUpTo(codec, m, sources, |m.files|) + (codec.encode(CompleteFrame(h.manifest(m))) + [NEWLINE])
  {
    var files, texts := m.files, AllTexts(sources);
    assert FileFrames(files[..0], texts[..0]) == [];
    assert [ManifestFrame(m)] + [] == [ManifestFrame(m)];
    EmittedOne(codec, ManifestFrame(m));
    assert files[..|files|] == files && texts[..|files|] == texts;
    EmittedConcat(codec, [ManifestFrame(m)] + FileFrames(files, texts), [CompleteFrame(h.manifest(m))]);
    EmittedOne(codec, CompleteFrame(h.manifest(m)));
  }

  /** One frame after another, file by file and chunk by chunk; nothing remains if a source has changed meanwhile. */
  method WriteRecoveryArchive(codec: Codec, h: Hashing, m: Manifest, files: seq<Entry>, sources: seq<seq<Bytes>>)
    returns (r: Option<Bytes>)
    requires |sources| == |files|
    ensures r == if Writable(h, m, files, sources) then Some(Written(codec, h, m, sources)) else None
  {
    var valid := AssertManifest(m);
    if !valid || files != m.files {
      return None;
    }
    EmittedEnds(codec, h, m, sources);
    var output := codec.encode(ManifestFrame(m)) + [NEWLINE];
    for i := 0 to |files|
      invariant output == EmittedUpTo(codec, m, sources, i)
      invariant forall j :: 0 <= j < i ==> Unchanged(h, files[j], sources[j])
    {
      var written := WriteFile(codec, h, files[i], sources[i]);
      if written.None? {
        return None;
      }
      EmittedNext(codec, m, sources, i);
      output := output + written.value;
    }
    r := Some(output + (codec.encode(CompleteFrame(h.manifest(m))) + [NEWLINE]));
  }

  function OneFile(file: Entry, chunks: seq<Bytes>): seq<Frame> {
    [FileFrame(file.path)] + DataFrames(Texts(chunks)) + [EndFrame(file.path)]
  }

  method WriteFile(codec: Codec, h: Hashing, file: Entry, chunks: seq<Bytes>) returns (r: Option<Bytes>)
    ensures r == if Unchanged(h, file, chunks) then Some(Emitted(codec, OneFile(file, chunks))) else None
  {
    var output := codec.encode(FileFrame(file.path)) + [NEWLINE];
    EmittedOne(codec, FileFrame(file.path));
    var bytes: Bytes := [];
    assert [FileFrame(file.path)] + [] == [FileFrame(file.path)];
    for i := 0 to |chunks|
      invariant output == Emitted(codec, [FileFrame(file.path)] + DataFrames(Texts(chunks[..i])))
      invariant bytes == Flatten(chunks[..i])
    {
      var text := Encode(chunks[i]);
      assert chunks[..i + 1][..i] == chunks[..i];
      DataFramesConcat(Texts(chunks[..i]), [text]);
      assert DataFrames([text]) == [DataFrame(text)] by {
        assert [text][1..] == [];
      }
      EmittedConcat(codec, [FileFrame(file.path)] + DataFrames(Texts(chunks[..i])), [DataFrame(text)]);
      EmittedOne(codec, DataFrame(text));
      Regroup([FileFrame(file.path)], DataFrames(Texts(chunks[..i])), [DataFrame(text)]);
      output := output + (codec.encode(DataFrame(text)) + [NEWLINE]);
      bytes := bytes + chunks[i];
    }
    assert chunks[..|chunks|] == chunks;
    if |bytes| != file.bytes || h.file(bytes) != file.digest {
      return None;
    }
    EmittedConcat(codec, [FileFrame(file.path)] + DataFrames(Texts(chunks)), [EndFrame(file.path)]);
    EmittedOne(codec, EndFrame(file.path));
    r := Some(output + (codec.encode(EndFrame(file.path)) + [NEWLINE]));
  }

  // ---- Verifier ----

  function FoldLines(codec: Codec, h: Hashing, s: Stage, lines: seq<Bytes>): Option<Stage>
    decreases |lines|
  {
    if lines == [] then Some(s)
    else
      var frame := codec.parse(lines[0]);
      var next := if frame.None? then None else Step(h, s, frame.value);
      if next.None? then None else FoldLines(codec, h, next.value, lines[1..])
  }

  predicate Short(lines: seq<Bytes>) {
    forall i :: 0 <= i < |lines| ==> |lines[i]| <= MAX_LINE
  }

  /** What verification makes of the decrypted bytes, whichever way they were read. */
  function Verified(codec: Codec, h: Hashing, plain: Bytes, authentic: bool): Option<Stage> {
    var cut := Split(plain);
    var end := FoldLines(codec, h, BEGIN, cut.lines);
    if authentic && 100 <= HEADER + |plain| + TAG <= MAX_ARCHIVE && Short(cut.lines) && cut.rest == [] && end.Some? &&
        end.value.complete
    then end else None
  }

  lemma {:induction false} FoldLinesConcat(codec: Codec, h: Hashing, s: Stage, a: seq<Bytes>, b: seq<Bytes>)
    ensures FoldLines(codec, h, s, a + b) ==
            (if FoldLines(codec, h, s, a).None? then None else FoldLines(codec, h, FoldLines(codec, h, s, a).value, b))
    decreases |a|
  {
    if a == [] {
      assert a + b == b;
    } else {
      assert (a + b)[0] == a[0] && (a + b)[1..] == a[1..] + b;
      var frame := codec.parse(a[0]);
      var next := if frame.None? then None else Step(h, s, frame.value);
      if next.Some? {
        FoldLinesConcat(codec, h, next.value, a[1..], b);
      }
    }
  }

  lemma FirstOfLines(codec: Codec, h: Hashing, t: Stage, line: Bytes, after: seq<Bytes>, lines: seq<Bytes>)
    requires lines == [line] + after
    ensures Short(lines) <==> |line| <= MAX_LINE && Short(after)
    ensures var frame := codec.parse(line);
            var next := if frame.None? then None else Step(h, t, frame.value);
            FoldLines(codec, h, t, lines) == if next.None? then None else FoldLines(codec, h, next.value, after)
  {
    assert lines[0] == line && lines[1..] == after;
    assert forall i :: 0 <= i < |after| ==> after[i] == lines[i + 1];
  }

  /** Adds a chunk to what is pending and hands over every line it completes. */
  method Append(codec: Codec, h: Hashing, s: Stage, pending: Bytes, chunk: Bytes) returns (r: Option<(Stage, Bytes)>)
    ensures var cut := Split(pending + chunk);
            var t := FoldLines(codec, h, s, cut.lines);
            r == if Short(cut.lines) && |cut.rest| <= MAX_LINE && t.Some? then Some((t.value, cut.rest)) else None
  {
    var t, rest := s, pending + chunk;
    ghost var cut := Split(rest);
    var newline := IndexOfNewline(rest);
    while newline < |rest|
      invariant newline == FirstNewline(rest) && Split(rest).rest == cut.rest
      invariant Short(Split(rest).lines) <==> Short(cut.lines)
      invariant FoldLines(codec, h, t, Split(rest).lines) == FoldLines(codec, h, s, cut.lines)
      decreases |rest|
    {
      var line := rest[..newline];
      ghost var after := Split(rest[newline + 1..]);
      FirstOfLines(codec, h, t, line, after.lines, Split(rest).lines);
      if newline > MAX_LINE {
        return None;
      }
      var frame := codec.parse(line);
      if frame.None? {
        return None;
      }
      var next := Step(h, t, frame.value);
      if next.None? {
        return None;
      }
      t, rest := next.value, rest[newline + 1..];
      newline := IndexOfNewline(rest);
    }
    r := if |rest| > MAX_LINE then None else Some((t, rest));
  }

  lemma FlattenSplit(chunks: seq<Bytes>, i: nat)
    requires i <= |chunks|
    ensures exists rest :: Flatten(chunks) == Flatten(chunks[..i]) + rest
  {
    var rest := FlattenRest(chunks, i, Flatten(chunks), Flatten(chunks[..i]));
  }

  lemma FlattenRest(chunks: seq<Bytes>, i: nat, whole: Bytes, front: Bytes) returns (rest: Bytes)
    requires i <= |chunks| && whole == Flatten(chunks) && front == Flatten(chunks[..i])
    ensures whole == front + rest
    decreases |chunks|
  {
    if i == |chunks| {
      assert chunks[..i] == chunks;
      rest := [];
    } else {
      var most := chunks[..|chunks| - 1];
      assert most[..i] == chunks[..i];
      rest := FlattenRest(most, i, Flatten(most), front);
      rest := rest + chunks[|chunks| - 1];
    }
  }

  /** A line that is too long, one that is refused, or too long an unfinished rest: more input does not help. */
  lemma FailureStays(codec: Codec, h: Hashing, a: Bytes, b: Bytes, authentic: bool)
    requires var cut := Split(a);
             !Short(cut.lines) || |cut.rest| > MAX_LINE || FoldLines(codec, h, BEGIN, cut.lines).None?
    ensures Verified(codec, h, a + b, authentic).None?
  {
    var cut, more := Split(a), Split(Split(a).rest + b);
    SplitConcat(a, b);
    FoldLinesConcat(codec, h, BEGIN, cut.lines, more.lines);
    if !Short(cut.lines) {
      var i :| 0 <= i < |cut.lines| && |cut.lines[i]| > MAX_LINE;
      assert (cut.lines + more.lines)[i] == cut.lines[i];
    } else if |cut.rest| > MAX_LINE {
      LongRest(a, b);
    }
  }

  lemma LongRest(a: Bytes, b: Bytes)
    requires |Split(a).rest| > MAX_LINE
    ensures !Short(Split(a + b).lines) || Split(a + b).rest != []
  {
    var rest := Split(a).rest;
    JoinSplit(a);
    SplitConcat(a, b);
    var n := FirstNewline(rest + b);
    if n < |rest + b| {
      assert n >= |rest|;
      var line := (rest + b)[..n];
      assert Split(rest + b).lines[0] == line;
      assert Split(a + b).lines[|Split(a).lines|] == line;
    }
  }

  /**
   * Reads the decrypted bytes chunk by chunk; the tag is only known to be good after the last. The outcome depends on
   * the bytes alone, not on how they were cut.
   */
  method VerifyRecoveryArchive(codec: Codec, h: Hashing, chunks: seq<Bytes>, authentic: bool) returns (r: Option<Stage>)
    ensures r == Verified(codec, h, Flatten(chunks), authentic)
  {
    var size := HEADER + Length(chunks) + TAG;
    if size > MAX_ARCHIVE || size < 100 {
      return None;
    }
    var s, pending: Bytes := BEGIN, [];
    SplitPlain([]);
    for i := 0 to |chunks|
      invariant var cut := Split(Flatten(chunks[..i]));
                Short(cut.lines) && pending == cut.rest && FoldLines(codec, h, BEGIN, cut.lines) == Some(s)
    {
      ghost var before, cut := Flatten(chunks[..i]), Split(Flatten(chunks[..i]));
      assert chunks[..i + 1][..i] == chunks[..i];
      SplitConcat(before, chunks[i]);
      FoldLinesConcat(codec, h, BEGIN, cut.lines, Split(pending + chunks[i]).lines);
      var next := Append(codec, h, s, pending, chunks[i]);
      if next.None? {
        FlattenSplit(chunks, i + 1);
        ghost var rest :| Flatten(chunks) == Flatten(chunks[..i + 1]) + rest;
        StillFails(codec, h, before, chunks[i], rest, authentic);
        return None;
      }
      s, pending := next.value.0, next.value.1;
    }
    assert chunks[..|chunks|] == chunks;
    if !authentic || pending != [] || !s.complete {
      return None;
    }
    r := Some(s);
  }

  function Length(chunks: seq<Bytes>): (n: nat)
    ensures n == |Flatten(chunks)|
  {
    if chunks == [] then 0 else Length(chunks[..|chunks| - 1]) + |chunks[|chunks| - 1]|
  }

  lemma StillFails(codec: Codec, h: Hashing, before: Bytes, chunk: Bytes, rest: Bytes, authentic: bool)
    requires var was := Split(before);
             var cut := Split(was.rest + chunk);
             FoldLines(codec, h, BEGIN, was.lines).Some? &&
             (!Short(cut.lines) || |cut.rest| > MAX_LINE ||
              FoldLines(codec, h, FoldLines(codec, h, BEGIN, was.lines).value, cut.lines).None?)
    ensures Verified(codec, h, before + chunk + rest, authentic).None?
  {
    var was := Split(before);
    var cut := Split(was.rest + chunk);
    SplitConcat(before, chunk);
    FoldLinesConcat(codec, h, BEGIN, was.lines, cut.lines);
    if !Short(cut.lines) {
      var i :| 0 <= i < |cut.lines| && |cut.lines[i]| > MAX_LINE;
      assert (was.lines + cut.lines)[|was.lines| + i] == cut.lines[i];
    }
    FailureStays(codec, h, before + chunk, rest, authentic);
  }

  // ---- What writer and verifier promise each other ----

  /** All lines of the archive, and the archive itself, are within what the verifier is prepared to read. */
  predicate Fits(codec: Codec, frames: seq<Frame>) {
    && (forall f :: f in frames ==> |codec.encode(f)| <= MAX_LINE)
    && HEADER + |Emitted(codec, frames)| + TAG <= MAX_ARCHIVE
  }

  lemma {:induction false} EncodeAllAt(codec: Codec, frames: seq<Frame>)
    ensures |EncodeAll(codec, frames)| == |frames|
    ensures forall i :: 0 <= i < |frames| ==> EncodeAll(codec, frames)[i] == codec.encode(frames[i])
    decreases |frames|
  {
    if frames != [] {
      EncodeAllAt(codec, frames[..|frames| - 1]);
    }
  }

  lemma {:induction false} FoldEncoded(codec: Codec, h: Hashing, s: Stage, frames: seq<Frame>, lines: seq<Bytes>)
    requires |lines| == |frames|
    requires forall i :: 0 <= i < |frames| ==> codec.parse(lines[i]) == Some(frames[i])
    ensures FoldLines(codec, h, s, lines) == Fold(h, s, frames)
    decreases |frames|
  {
    if frames != [] {
      var next := Step(h, s, frames[0]);
      if next.Some? {
        FoldEncoded(codec, h, next.value, frames[1..], lines[1..]);
      }
    }
  }

  /** Verifying emitted frames is folding them, provided they fit. */
  lemma EmittedVerified(codec: Codec, h: Hashing, frames: seq<Frame>)
    requires Faithful(codec) && forall f :: f in frames ==> Proper(f)
    ensures var end := Fold(h, BEGIN, frames);
            Verified(codec, h, Emitted(codec, frames), true) ==
            if Fits(codec, frames) && end.Some? && end.value.complete then end else None
  {
    var lines := EncodeAll(codec, frames);
    EncodeAllAt(codec, frames);
    forall i | 0 <= i < |lines| ensures Plain(lines[i]) && codec.parse(lines[i]) == Some(frames[i]) {
      assert lines[i] == codec.encode(frames[i]) && frames[i] in frames;
    }
    SplitJoin(lines, []);
    assert Joined(lines) + [] == Joined(lines);
    FoldEncoded(codec, h, BEGIN, frames, lines);
    assert Short(lines) <==> forall f :: f in frames ==> |codec.encode(f)| <= MAX_LINE by {
      if Short(lines) {
        forall f | f in frames ensures |codec.encode(f)| <= MAX_LINE {
          var i :| 0 <= i < |frames| && frames[i] == f;
          assert |lines[i]| <= MAX_LINE;
        }
      } else {
        var i :| 0 <= i < |lines| && |lines[i]| > MAX_LINE;
        assert frames[i] in frames;
      }
    }
  }

  lemma {:induction false} TextsCarry(chunks: seq<Bytes>)
    requires forall i :: 0 <= i < |chunks| ==> |chunks[i]| <= CHUNK
    ensures TextsOk(Texts(chunks)) && Carried(Texts(chunks)) == Flatten(chunks)
    decreases |chunks|
  {
    if chunks != [] {
      var front, last := chunks[..|chunks| - 1], chunks[|chunks| - 1];
      TextsCarry(front);
      ChunkFits(last);
      CarriedSnoc(Texts(front), Encode(last));
      EncodeDecode(last);
    }
  }

  /** A chunk of 64 KiB takes 87,384 of the 90,000 characters a data frame may have. */
  lemma ChunkFits(chunk: Bytes)
    requires |chunk| <= CHUNK
    ensures TextOk(Encode(chunk)) && |Encode(chunk)| <= 87_384
    ensures |chunk| == CHUNK ==> |Encode(chunk)| == 87_384
  {
    EncodeDecode(chunk);
    Quarters(|chunk|, |Encode(chunk)|);
  }

  lemma Quarters(bytes: nat, symbols: nat)
    requires bytes <= CHUNK && symbols == (bytes + 2) / 3 * 4
    ensures symbols <= 87_384 && (bytes == CHUNK ==> symbols == 87_384)
  {
  }

  lemma {:induction false} CarriedSnoc(texts: seq<string>, text: string)
    requires TextsOk(texts) && TextOk(text)
    ensures TextsOk(texts + [text]) && Carried(texts + [text]) == Carried(texts) + Decode(text)
    decreases |texts|
  {
    if texts == [] {
      assert texts + [text] == [text];
      assert Carried([text]) == Decode(text) + Carried([text][1..]);
      assert Decode(text) + [] == Decode(text) && [] + Decode(text) == Decode(text);
    } else {
      assert (texts + [text])[1..] == texts[1..] + [text];
      CarriedSnoc(texts[1..], text);
      Regroup(Decode(texts[0]), Carried(texts[1..]), Decode(text));
    }
  }

  /** What the sources held is what was staged, file by file. */
  ghost predicate Restored(staged: map<Path, Bytes>, files: seq<Entry>, sources: seq<seq<Bytes>>)
    requires |sources| == |files|
  {
    && (forall p :: p in staged ==> exists i :: 0 <= i < |files| && files[i].path == p)
    && (forall i :: 0 <= i < |files| ==> files[i].path in staged && staged[files[i].path] == Flatten(sources[i]))
  }

  /**
   * Whatever the writer accepts, read in chunks of at most 64 KiB, verifies to the same manifest and the same files,
   * exactly if no file's path is a directory of another's and the lines and the archive are within bounds.
   */
  lemma WrittenIsVerifiedIff(codec: Codec, h: Hashing, m: Manifest, sources: seq<seq<Bytes>>)
    requires Faithful(codec) && Writable(h, m, m.files, sources)
    requires forall i, j :: 0 <= i < |sources| && 0 <= j < |sources[i]| ==> |sources[i][j]| <= CHUNK
    ensures var r := Verified(codec, h, Written(codec, h, m, sources), true);
            && (r.Some? <==> NoConflicts(m.files) && Fits(codec, Frames(h, m, AllTexts(sources))))
            && (r.Some? ==> r.value.manifest == Some(m) && Restored(r.value.staged, m.files, sources))
  {
    var texts := AllTexts(sources);
    var frames := Frames(h, m, texts);
    FramesAreProper(h, m, sources);
    EmittedVerified(codec, h, frames);
    forall i | 0 <= i < |texts| ensures Declared(h, m.files[i], texts[i]) && Carried(texts[i]) == Flatten(sources[i]) {
      TextsCarry(sources[i]);
      assert Unchanged(h, m.files[i], sources[i]);
    }
    if NoConflicts(m.files) {
      var t := SoundIsAccepted(h, m, texts);
    } else if Fold(h, BEGIN, frames).Some? && Fold(h, BEGIN, frames).value.complete {
      var n, others := AcceptedIsSound(h, frames, Fold(h, BEGIN, frames).value);
    }
  }

  /** JSON that adds little to the base64 and the paths it is given, whose characters it may escape. */
  ghost predicate Terse(codec: Codec) {
    forall f: Frame :: Proper(f) && !f.ManifestFrame? ==> |codec.encode(f)| <= LineBound(f)
  }

  function LineBound(f: Frame): nat {
    match f
    case FileFrame(path) => 6 * PathLength(path) + 100
    case EndFrame(path) => 6 * PathLength(path) + 100
    case DataFrame(text) => |text| + 100
    case _ => 200
  }

  lemma FramesAreProper(h: Hashing, m: Manifest, sources: seq<seq<Bytes>>)
    requires Writable(h, m, m.files, sources)
    requires forall i, j :: 0 <= i < |sources| && 0 <= j < |sources[i]| ==> |sources[i][j]| <= CHUNK
    ensures forall f :: f in Frames(h, m, AllTexts(sources)) ==>
              Proper(f) && (f == ManifestFrame(m) || (!f.ManifestFrame? && LineBound(f) <= 90_100))
  {
    var texts := AllTexts(sources);
    forall i | 0 <= i < |texts| ensures TextsOk(texts[i]) {
      TextsCarry(sources[i]);
    }
    forall f | f in FileFrames(m.files, texts) ensures Proper(f) && !f.ManifestFrame? && LineBound(f) <= 90_100 {
      FileFrameKinds(m.files, texts, f);
    }
  }

  /** Of the bounds on lines only the manifest's is ever in question. */
  lemma OnlyTheManifestCanBeTooLong(codec: Codec, h: Hashing, m: Manifest, sources: seq<seq<Bytes>>, f: Frame)
    requires Terse(codec) && Writable(h, m, m.files, sources)
    requires forall i, j :: 0 <= i < |sources| && 0 <= j < |sources[i]| ==> |sources[i][j]| <= CHUNK
    requires f in Frames(h, m, AllTexts(sources)) && f != ManifestFrame(m)
    ensures |codec.encode(f)| <= 90_100
  {
    FramesAreProper(h, m, sources);
  }

  /**
   * So what was written verifies exactly if files do not conflict, the manifest's line is short, and the archive fits.
   */
  lemma WrittenIsVerifiedIffShort(codec: Codec, h: Hashing, m: Manifest, sources: seq<seq<Bytes>>)
    requires Faithful(codec) && Terse(codec) && Writable(h, m, m.files, sources)
    requires forall i, j :: 0 <= i < |sources| && 0 <= j < |sources[i]| ==> |sources[i][j]| <= CHUNK
    ensures Verified(codec, h, Written(codec, h, m, sources), true).Some? <==>
            && NoConflicts(m.files)
            && |codec.encode(ManifestFrame(m))| <= MAX_LINE
            && HEADER + |Written(codec, h, m, sources)| + TAG <= MAX_ARCHIVE
  {
    var frames := Frames(h, m, AllTexts(sources));
    WrittenIsVerifiedIff(codec, h, m, sources);
    FramesAreProper(h, m, sources);
    assert frames[0] == ManifestFrame(m);
  }

  lemma {:induction false} FileFrameKinds(files: seq<Entry>, texts: seq<seq<string>>, f: Frame)
    requires |files| == |texts| && f in FileFrames(files, texts)
    requires forall i :: 0 <= i < |files| ==> SafePath(files[i].path) && TextsOk(texts[i])
    ensures Proper(f) && !f.ManifestFrame? && !f.CompleteFrame?
    decreases |files|
  {
    if files != [] {
      if f in DataFrames(texts[0]) {
        DataFrameKinds(texts[0], f);
      } else if f in FileFrames(files[1..], texts[1..]) {
        FileFrameKinds(files[1..], texts[1..], f);
      }
    }
  }

  lemma {:induction false} DataFrameKinds(texts: seq<string>, f: Frame)
    requires TextsOk(texts) && f in DataFrames(texts)
    ensures f.DataFrame? && TextOk(f.text)
    decreases |texts|
  {
    if f != DataFrame(texts[0]) {
      DataFrameKinds(texts[1..], f);
    }
  }

  /**
   * Conversely, bytes that verify are authentic and consist of nothing but the lines of one valid manifest, of its
   * files in order with just the declared sizes and hashes, and of the end; and just these files are staged.
   */
  lemma VerifiedIsSound(codec: Codec, h: Hashing, plain: Bytes, authentic: bool)
    returns (m: Manifest, texts: seq<seq<string>>)
    requires Verified(codec, h, plain, authentic).Some?
    ensures ValidManifest(m) && Carries(h, m.files, texts)
    ensures var end := Verified(codec, h, plain, authentic).value;
            end.manifest == Some(m) && Holds(end.staged, m.files, texts, |m.files|)
    ensures authentic && Joined(Split(plain).lines) == plain
    ensures |Split(plain).lines| == |Frames(h, m, texts)|
    ensures forall i :: 0 <= i < |Split(plain).lines| ==>
              codec.parse(Split(plain).lines[i]) == Some(Frames(h, m, texts)[i])
  {
    var cut := Split(plain);
    JoinSplit(plain);
    assert Joined(cut.lines) + [] == Joined(cut.lines);
    var frames := AllParse(codec, h, BEGIN, cut.lines);
    FoldEncoded(codec, h, BEGIN, frames, cut.lines);
    m, texts := AcceptedIsSound(h, frames, Verified(codec, h, plain, authentic).value);
  }

  lemma {:induction false} AllParse(codec: Codec, h: Hashing, s: Stage, lines: seq<Bytes>) returns (frames: seq<Frame>)
    requires FoldLines(codec, h, s, lines).Some?
    ensures |frames| == |lines| && forall i :: 0 <= i < |lines| ==> codec.parse(lines[i]) == Some(frames[i])
    decreases |lines|
  {
    frames := [];
    if lines != [] {
      var frame := codec.parse(lines[0]).value;
      var rest := AllParse(codec, h, Step(h, s, frame).value, lines[1..]);
      frames := [frame] + rest;
    }
  }

  /** In a verified archive every key and every reference leads to a staged file, and what is encrypted has its key. */
  lemma DependenciesAreStaged(codec: Codec, h: Hashing, plain: Bytes, authentic: bool)
    requires Verified(codec, h, plain, authentic).Some?
    ensures var end := Verified(codec, h, plain, authentic).value;
            && end.manifest.Some?
            && var m := end.manifest.value;
            && (forall k :: k in m.keys ==> Rooted(k.root, k.path) in end.staged)
            && (forall r :: r in m.references ==> Rooted(r.root, r.path) in end.staged)
            && (forall r :: r in m.references && r.encrypted ==> exists k :: k in m.keys && k.id == r.keyId)
  {
    var m, texts := VerifiedIsSound(codec, h, plain, authentic);
    forall k | k in m.keys ensures Listed(m, Rooted(k.root, k.path)) {
      var i :| 0 <= i < |m.keys| && m.keys[i] == k;
      assert Resolves(m, m.keys[i].root, m.keys[i].path);
    }
    forall r | r in m.references
      ensures Listed(m, Rooted(r.root, r.path)) && (r.encrypted ==> exists k :: k in m.keys && k.id == r.keyId)
    {
      var i :| 0 <= i < |m.references| && m.references[i] == r;
      assert Resolves(m, m.references[i].root, m.references[i].path);
    }
  }

  /**
   * An archive verifies exactly if it is authentic, has at most 8 GiB with its header and tag, ends with a newline, has
   * no line of more than 16 MiB, and its lines are frames that the verifier takes up to the last one.
   */
  lemma VerifiedIff(codec: Codec, h: Hashing, plain: Bytes, authentic: bool)
    ensures Verified(codec, h, plain, authentic).Some? <==>
            && authentic && |plain| + 120 <= 8_589_934_592
            && Joined(Split(plain).lines) == plain
            && (forall line :: line in Split(plain).lines ==> |line| <= 16_777_216)
            && exists frames :: Parsed(codec, Split(plain).lines, frames) && Complete(h, frames)
  {
    var cut := Split(plain);
    var lines := cut.lines;
    JoinSplit(plain);
    assert cut.rest == [] ==> Joined(lines) == plain;
    assert Joined(lines) == plain ==> cut.rest == [] by {
      assert |Joined(lines) + cut.rest| == |Joined(lines)| + |cut.rest|;
    }
    assert Short(lines) <==> forall line :: line in lines ==> |line| <= 16_777_216 by {
      assert forall i :: 0 <= i < |lines| ==> lines[i] in lines;
    }
    FoldIffParsed(codec, h, lines);
  }

  ghost predicate Parsed(codec: Codec, lines: seq<Bytes>, frames: seq<Frame>) {
    |lines| == |frames| && forall i :: 0 <= i < |lines| ==> codec.parse(lines[i]) == Some(frames[i])
  }

  ghost predicate Complete(h: Hashing, frames: seq<Frame>) {
    Fold(h, BEGIN, frames).Some? && Fold(h, BEGIN, frames).value.complete
  }

  lemma FoldIffParsed(codec: Codec, h: Hashing, lines: seq<Bytes>)
    ensures (FoldLines(codec, h, BEGIN, lines).Some? && FoldLines(codec, h, BEGIN, lines).value.complete) <==>
            exists frames :: Parsed(codec, lines, frames) && Complete(h, frames)
  {
    if FoldLines(codec, h, BEGIN, lines).Some? {
      var frames := AllParse(codec, h, BEGIN, lines);
      FoldEncoded(codec, h, BEGIN, frames, lines);
      assert Parsed(codec, lines, frames);
    }
    if frames :| Parsed(codec, lines, frames) && Complete(h, frames) {
      FoldEncoded(codec, h, BEGIN, frames, lines);
    }
  }
}
