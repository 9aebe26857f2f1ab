/** The frames of a recovery archive, and the verifier that stages files from them. */
module Archive {
  // Encryption is the identity on authentic bytes; JSON and hashing are parameters.

  import opened Wrappers
  import opened Base64
  import opened Lines
  import opened RecoveryManifest

  datatype Frame =
    | ManifestFrame(manifest: Manifest)
    | FileFrame(path: Path)
    | DataFrame(text: string)
    | EndFrame(path: Path)
    | CompleteFrame(digest: Digest)
    | OtherFrame

  /** Frames as JSON lines. */
  datatype Codec = Codec(encode: Frame -> Bytes, parse: Bytes -> Option<Frame>)

  datatype Hashing = Hashing(file: Bytes -> Digest, manifest: Manifest -> Digest)

  /** The frames that an archive is written with. */
  predicate Proper(f: Frame) {
    match f
    case ManifestFrame(m) => ValidManifest(m)
    case FileFrame(path) => SafePath(path)
    case DataFrame(text) => TextOk(text)
    case EndFrame(path) => SafePath(path)
    case CompleteFrame(_) => true
    case OtherFrame => false
  }

  ghost predicate Faithful(codec: Codec) {
    forall f: Frame :: Proper(f) ==> codec.parse(codec.encode(f)) == Some(f) && Plain(codec.encode(f))
  }

  const MAX_ARCHIVE := 8 * 1024 * 1024 * 1024
  const MAX_LINE := 16 * 1024 * 1024
  const MAX_DATA := 90_000
  const CHUNK := 64 * 1024
  const HEADER := 104  // length of the plain header line
  const TAG := 16

  // ---- Frames of a manifest and of the data of its files ----

  function DataFrames(texts: seq<string>): seq<Frame> {
    if texts == [] then [] else [DataFrame(texts[0])] + DataFrames(texts[1..])
  }

  function FileFrames(files: seq<Entry>, texts: seq<seq<string>>): seq<Frame>
    requires |files| == |texts|
  {
    if files == [] then []
    else
      [FileFrame(files[0].path)] + DataFrames(texts[0]) + [EndFrame(files[0].path)] + FileFrames(files[1..], texts[1..])
  }

  function Frames(h: Hashing, m: Manifest, texts: seq<seq<string>>): seq<Frame>
    requires |m.files| == |texts|
  {
    [ManifestFrame(m)] + FileFrames(m.files, texts) + [CompleteFrame(h.manifest(m))]
  }

  predicate TextOk(text: string) {
    |text| <= MAX_DATA && WellFormed(text)
  }

  predicate TextsOk(texts: seq<string>) {
    forall i :: 0 <= i < |texts| ==> TextOk(texts[i])
  }

  /** The bytes that the data frames of one file carry. */
  function Carried(texts: seq<string>): Bytes
    requires TextsOk(texts)
  {
    if texts == [] then [] else Decode(texts[0]) + Carried(texts[1..])
  }

  /** The data frames carry what the manifest declares of the file. */
  predicate Declared(h: Hashing, file: Entry, texts: seq<string>) {
    && TextsOk(texts)
    && |Carried(texts)| == file.bytes
    && h.file(Carried(texts)) == file.digest
  }

  // ---- Staging ----

  predicate Above(p: Path, q: Path) {
    p < q
  }

  /** A file can be created unless it is there, or a directory would have to be a file. */
  predicate CanStage(staged: map<Path, Bytes>, p: Path) {
    forall q :: q in staged ==> p != q && !Above(p, q) && !Above(q, p)
  }

  predicate NoConflicts(files: seq<Entry>) {
    forall i, j :: 0 <= i < j < |files| ==> !Above(files[i].path, files[j].path) && !Above(files[j].path, files[i].path)
  }

  // ---- The verifier, frame by frame ----

  /** `current` is what has been written to the file under way. */
  datatype Stage = Stage(manifest: Option<Manifest>, complete: bool, index: nat, current: Option<Bytes>,
      staged: map<Path, Bytes>)

  const BEGIN := Stage(None, false, 0, None, map[])

  function Step(h: Hashing, s: Stage, f: Frame): Option<Stage> {
    if s.complete then None
    else if s.manifest.None? then
      if f.ManifestFrame? && ValidManifest(f.manifest) then Some(s.(manifest := Some(f.manifest))) else None
    else
      var files := s.manifest.value.files;
      match f
      case FileFrame(path) =>
        if s.current.Some? || s.index >= |files| || path != files[s.index].path || !CanStage(s.staged, path) then None
        else Some(s.(current := Some([])))
      case DataFrame(text) =>
        if s.current.None? || s.index >= |files| || !TextOk(text) then None
        else
          var bytes := s.current.value + Decode(text);
          if |bytes| > files[s.index].bytes then None else Some(s.(current := Some(bytes)))
      case EndFrame(path) =>
        if s.current.None? || s.index >= |files| || path != files[s.index].path ||
           |s.current.value| != files[s.index].bytes || h.file(s.current.value) != files[s.index].digest then None
        else Some(s.(current := None, index := s.index + 1, staged := s.staged[path := s.current.value]))
      case CompleteFrame(digest) =>
        if s.current.Some? || s.index != |files| || digest != h.manifest(s.manifest.value) then None
        else Some(s.(complete := true))
      case _ => None
  }

  function Fold(h: Hashing, s: Stage, frames: seq<Frame>): Option<Stage>
    decreases |frames|
  {
    if frames == [] then Some(s)
    else
      var next := Step(h, s, frames[0]);
      if next.None? then None else Fold(h, next.value, frames[1..])
  }

  // ---- Exactly which frames are accepted ----

  /** Files that can be staged side by side, each with data frames that carry what is declared of it. */
  ghost predicate Carries(h: Hashing, files: seq<Entry>, texts: seq<seq<string>>) {
    && |texts| == |files| && NoConflicts(files)
    && (forall i, j :: 0 <= i < j < |files| ==> files[i].path != files[j].path)
    && (forall i :: 0 <= i < |texts| ==> Declared(h, files[i], texts[i]))
  }

  /** Just these files, each with what its frames carry. */
  ghost predicate Holds(staged: map<Path, Bytes>, files: seq<Entry>, texts: seq<seq<string>>, count: nat)
    requires |texts| == |files| && count <= |files| && forall i :: 0 <= i < |texts| ==> TextsOk(texts[i])
  {
    && (forall p :: p in staged ==> exists i :: 0 <= i < count && files[i].path == p)
    && (forall i :: 0 <= i < count ==> files[i].path in staged && staged[files[i].path] == Carried(texts[i]))
  }

  lemma {:induction false} FoldConcat(h: Hashing, s: Stage, a: seq<Frame>, b: seq<Frame>)
    ensures Fold(h, s, a + b) == (if Fold(h, s, a).None? then None else Fold(h, Fold(h, s, a).value, b))
    decreases |a|
  {
    if a == [] {
      assert a + b == b;
    } else {
      assert (a + b)[0] == a[0] && (a + b)[1..] == a[1..] + b;
      var next := Step(h, s, a[0]);
      if next.Some? {
        FoldConcat(h, next.value, a[1..], b);
      }
    }
  }

  lemma FoldOne(h: Hashing, s: Stage, f: Frame)
    ensures Fold(h, s, [f]) == Step(h, s, f)
  {
    var next := Step(h, s, f);
    assert [f][1..] == [];
    if next.Some? {
      assert Fold(h, next.value, []) == next;
    }
  }

  lemma {:induction false} FoldData(h: Hashing, s: Stage, texts: seq<string>)
    requires !s.complete && s.manifest.Some? && s.current.Some? && s.index < |s.manifest.value.files|
    requires TextsOk(texts) && |s.current.value| + |Carried(texts)| <= s.manifest.value.files[s.index].bytes
    ensures Fold(h, s, DataFrames(texts)) == Some(s.(current := Some(s.current.value + Carried(texts))))
    decreases |texts|
  {
    if texts == [] {
      assert s.current.value + [] == s.current.value;
    } else {
      var frames := DataFrames(texts);
      var next := s.(current := Some(s.current.value + Decode(texts[0])));
      assert Step(h, s, frames[0]) == Some(next);
      assert frames[1..] == DataFrames(texts[1..]);
      FoldData(h, next, texts[1..]);
      Regroup(s.current.value, Decode(texts[0]), Carried(texts[1..]));
    }
  }

  /** Between two files: what is staged is just the files before. */
  ghost predicate Between(h: Hashing, s: Stage, m: Manifest, texts: seq<seq<string>>)
    requires Carries(h, m.files, texts)
  {
    && s.manifest == Some(m) && !s.complete && s.current.None? && s.index <= |m.files|
    && Holds(s.staged, m.files, texts, s.index)
  }

  lemma FoldFile(h: Hashing, s: Stage, m: Manifest, texts: seq<string>)
    requires s.manifest == Some(m) && !s.complete && s.current.None? && s.index < |m.files|
    requires CanStage(s.staged, m.files[s.index].path) && Declared(h, m.files[s.index], texts)
    ensures var path := m.files[s.index].path;
            Fold(h, s, [FileFrame(path)] + DataFrames(texts) + [EndFrame(path)]) ==
            Some(s.(index := s.index + 1, staged := s.staged[path := Carried(texts)]))
  {
    var path, data := m.files[s.index].path, DataFrames(texts);
    var begun := s.(current := Some([]));
    var written := s.(current := Some(Carried(texts)));
    FoldOne(h, s, FileFrame(path));
    FoldData(h, begun, texts);
    assert [] + Carried(texts) == Carried(texts);
    FoldConcat(h, s, [FileFrame(path)], data);
    FoldOne(h, written, EndFrame(path));
    FoldConcat(h, s, [FileFrame(path)] + data, [EndFrame(path)]);
  }

  lemma CanStageNext(h: Hashing, s: Stage, m: Manifest, texts: seq<seq<string>>)
    requires Carries(h, m.files, texts) && Between(h, s, m, texts) && s.index < |m.files|
    ensures CanStage(s.staged, m.files[s.index].path)
    ensures var next := s.staged[m.files[s.index].path := Carried(texts[s.index])];
            Holds(next, m.files, texts, s.index + 1)
  {
    forall q | q in s.staged ensures m.files[s.index].path != q && !Above(m.files[s.index].path, q) &&
        !Above(q, m.files[s.index].path) {
      var i :| 0 <= i < s.index && m.files[i].path == q;
    }
  }

  lemma FileFramesAt(files: seq<Entry>, texts: seq<seq<string>>, i: nat)
    requires i < |files| == |texts|
    ensures FileFrames(files[i..], texts[i..]) ==
            [FileFrame(files[i].path)] + DataFrames(texts[i]) + [EndFrame(files[i].path)] +
                FileFrames(files[i + 1..], texts[i + 1..])
  {
    assert files[i..][1..] == files[i + 1..] && texts[i..][1..] == texts[i + 1..];
  }

  lemma FoldFilesStep(h: Hashing, s: Stage, next: Stage, files: seq<Entry>, texts: seq<seq<string>>, i: nat)
    requires i < |files| == |texts|
    requires Fold(h, s, [FileFrame(files[i].path)] + DataFrames(texts[i]) + [EndFrame(files[i].path)]) == Some(next)
    ensures Fold(h, s, FileFrames(files[i..], texts[i..])) == Fold(h, next, FileFrames(files[i + 1..], texts[i + 1..]))
  {
    FileFramesAt(files, texts, i);
    FoldConcat(h, s, [FileFrame(files[i].path)] + DataFrames(texts[i]) + [EndFrame(files[i].path)],
               FileFrames(files[i + 1..], texts[i + 1..]));
  }

  lemma {:induction false} FoldFiles(h: Hashing, s: Stage, m: Manifest, texts: seq<seq<string>>) returns (t: Stage)
    requires Carries(h, m.files, texts) && Between(h, s, m, texts)
    ensures Fold(h, s, FileFrames(m.files[s.index..], texts[s.index..])) == Some(t)
    ensures Between(h, t, m, texts) && t.index == |m.files|
    decreases |m.files| - s.index
  {
    if s.index == |m.files| {
      t := s;
    } else {
      var i := s.index;
      var next := FoldNext(h, s, m, texts);
      t := FoldFiles(h, next, m, texts);
      FoldFilesStep(h, s, next, m.files, texts, i);
    }
  }

  lemma FoldNext(h: Hashing, s: Stage, m: Manifest, texts: seq<seq<string>>) returns (next: Stage)
    requires Carries(h, m.files, texts) && Between(h, s, m, texts) && s.index < |m.files|
    ensures Between(h, next, m, texts) && next.index == s.index + 1
    ensures var path := m.files[s.index].path;
            Fold(h, s, [FileFrame(path)] + DataFrames(texts[s.index]) + [EndFrame(path)]) == Some(next)
  {
    var path, i := m.files[s.index].path, s.index;
    next := s.(index := i + 1, staged := s.staged[path := Carried(texts[i])]);
    CanStageNext(h, s, m, texts);
    assert Declared(h, m.files[i], texts[i]);
    FoldFile(h, s, m, texts[i]);
  }

  lemma FoldRest(h: Hashing, s: Stage, m: Manifest, texts: seq<seq<string>>) returns (t: Stage)
    requires Carries(h, m.files, texts) && s == BEGIN.(manifest := Some(m))
    ensures Fold(h, s, FileFrames(m.files, texts) + [CompleteFrame(h.manifest(m))]) == Some(t)
    ensures t.complete && t.manifest == Some(m) && Holds(t.staged, m.files, texts, |m.files|)
  {
    assert m.files[0..] == m.files && texts[0..] == texts;
    var u := FoldFiles(h, s, m, texts);
    t := u.(complete := true);
    FoldOne(h, u, CompleteFrame(h.manifest(m)));
    FoldConcat(h, s, FileFrames(m.files, texts), [CompleteFrame(h.manifest(m))]);
  }

  lemma SoundIsAccepted(h: Hashing, m: Manifest, texts: seq<seq<string>>) returns (t: Stage)
    requires ValidManifest(m) && Carries(h, m.files, texts)
    ensures Fold(h, BEGIN, Frames(h, m, texts)) == Some(t)
    ensures t.complete && t.manifest == Some(m) && Holds(t.staged, m.files, texts, |m.files|)
  {
    var s := BEGIN.(manifest := Some(m));
    t := FoldRest(h, s, m, texts);
    var rest := FileFrames(m.files, texts) + [CompleteFrame(h.manifest(m))];
    assert Step(h, BEGIN, ManifestFrame(m)) == Some(s);
    FoldOne(h, BEGIN, ManifestFrame(m));
    FoldConcat(h, BEGIN, [ManifestFrame(m)], rest);
    Regroup([ManifestFrame(m)], FileFrames(m.files, texts), [CompleteFrame(h.manifest(m))]);
  }

  // ---- Nothing else is accepted ----

  /** Frames from the middle of an archive on: the rest of the file under way, if any, and all files after it. */
  ghost predicate Continues(h: Hashing, m: Manifest, s: Stage, frames: seq<Frame>, here: seq<string>,
      later: seq<seq<string>>)
    requires s.index <= |m.files|
  {
    if s.current.None? then
      |later| == |m.files| - s.index && frames == FileFrames(m.files[s.index..], later) + [CompleteFrame(h.manifest(m))]
    else
      && s.index < |m.files| && |later| == |m.files| - s.index - 1 && TextsOk(here)
      && frames == DataFrames(here) +
         ([EndFrame(m.files[s.index].path)] + FileFrames(m.files[s.index + 1..], later)) +
             [CompleteFrame(h.manifest(m))]
      && |s.current.value + Carried(here)| == m.files[s.index].bytes
      && h.file(s.current.value + Carried(here)) == m.files[s.index].digest
  }

  /** The last files of the manifest, as many as there are texts, are declared to be what those carry. */
  ghost predicate DeclaredLast(h: Hashing, m: Manifest, later: seq<seq<string>>) {
    |later| <= |m.files| && forall i :: 0 <= i < |later| ==> Declared(h, m.files[|m.files| - |later| + i], later[i])
  }

  lemma DeclaredCons(h: Hashing, m: Manifest, data: seq<string>, more: seq<seq<string>>)
    requires DeclaredLast(h, m, more) && |more| < |m.files| && Declared(h, m.files[|m.files| - |more| - 1], data)
    ensures DeclaredLast(h, m, [data] + more)
  {
    var later := [data] + more;
    forall i | 0 <= i < |later| ensures Declared(h, m.files[|m.files| - |later| + i], later[i]) {
      assert i > 0 ==> Declared(h, m.files[|m.files| - |more| + (i - 1)], more[i - 1]);
    }
  }

  /** Accepted frames are the frames of the files still to come, and what they carry is what is declared. */
  lemma {:induction false} AcceptedContinues(h: Hashing, m: Manifest, s: Stage, frames: seq<Frame>, t: Stage)
    returns (here: seq<string>, later: seq<seq<string>>)
    requires s.manifest == Some(m) && !s.complete && s.index <= |m.files|
    requires Fold(h, s, frames) == Some(t) && t.complete
    ensures Continues(h, m, s, frames, here, later) && DeclaredLast(h, m, later)
    decreases |frames|
  {
    var f, rest := frames[0], frames[1..];
    if f.CompleteFrame? {
      here, later := [], [];
      CompleteContinues(h, m, s, frames, t);
    } else {
      var next := AcceptedStep(h, m, s, frames, t);
      var data, more := AcceptedContinues(h, m, next, rest, t);
      here, later := ContinuesBack(h, m, s, frames, data, more);
    }
  }

  lemma AcceptedStep(h: Hashing, m: Manifest, s: Stage, frames: seq<Frame>, t: Stage) returns (next: Stage)
    requires s.manifest == Some(m) && !s.complete && s.index <= |m.files|
    requires Fold(h, s, frames) == Some(t) && frames != [] && !frames[0].CompleteFrame?
    ensures Step(h, s, frames[0]) == Some(next) && next.manifest == Some(m) && !next.complete && next.index <= |m.files|
    ensures Fold(h, next, frames[1..]) == Some(t)
    ensures frames[0].FileFrame? || frames[0].DataFrame? || frames[0].EndFrame?
  {
    next := Step(h, s, frames[0]).value;
  }

  lemma ContinuesBack(h: Hashing, m: Manifest, s: Stage, frames: seq<Frame>, data: seq<string>, more: seq<seq<string>>)
    returns (here: seq<string>, later: seq<seq<string>>)
    requires s.manifest == Some(m) && !s.complete && s.index <= |m.files|
    requires frames != [] && (frames[0].FileFrame? || frames[0].DataFrame? || frames[0].EndFrame?) &&
             Step(h, s, frames[0]).Some?
    requires Step(h, s, frames[0]).value.index <= |m.files|
    requires Continues(h, m, Step(h, s, frames[0]).value, frames[1..], data, more) && DeclaredLast(h, m, more)
    ensures Continues(h, m, s, frames, here, later) && DeclaredLast(h, m, later)
  {
    match frames[0]
    case FileFrame(path) =>
      here, later := [], [data] + more;
      FileContinues(h, m, s, frames, data, more);
      DeclaredCons(h, m, data, more);
    case DataFrame(text) =>
      here, later := [text] + data, more;
      DataContinues(h, m, s, frames, data, more);
    case EndFrame(path) =>
      here, later := [], more;
      EndContinues(h, m, s, frames, data, more);
  }

  lemma FileContinues(h: Hashing, m: Manifest, s: Stage, frames: seq<Frame>, data: seq<string>, more: seq<seq<string>>)
    requires s.manifest == Some(m) && !s.complete && s.index <= |m.files|
    requires frames != [] && frames[0].FileFrame? && Step(h, s, frames[0]).Some?
    requires Continues(h, m, Step(h, s, frames[0]).value, frames[1..], data, more)
    ensures Continues(h, m, s, frames, [], [data] + more)
    ensures |more| < |m.files| && |m.files| - |more| - 1 == s.index && Declared(h, m.files[s.index], data)
  {
    var i := s.index;
    var later, path := [data] + more, m.files[i].path;
    assert later[1..] == more && m.files[i..][1..] == m.files[i + 1..];
    assert FileFrames(m.files[i..], later) ==
             [FileFrame(path)] + DataFrames(data) + [EndFrame(path)] + FileFrames(m.files[i + 1..], more);
    assert [] + Carried(data) == Carried(data);
    assert frames == [frames[0]] + frames[1..];
  }

  lemma DataContinues(h: Hashing, m: Manifest, s: Stage, frames: seq<Frame>, data: seq<string>, more: seq<seq<string>>)
    requires s.manifest == Some(m) && !s.complete && s.index <= |m.files|
    requires frames != [] && frames[0].DataFrame? && Step(h, s, frames[0]).Some?
    requires Continues(h, m, Step(h, s, frames[0]).value, frames[1..], data, more)
    ensures Continues(h, m, s, frames, [frames[0].text] + data, more)
  {
    var text := frames[0].text;
    var here := [text] + data;
    assert here[1..] == data;
    assert DataFrames(here) == [frames[0]] + DataFrames(data);
    Regroup(s.current.value, Decode(text), Carried(data));
    assert Carried(here) == Decode(text) + Carried(data);
    assert frames == [frames[0]] + frames[1..];
  }

  lemma EndContinues(h: Hashing, m: Manifest, s: Stage, frames: seq<Frame>, data: seq<string>, more: seq<seq<string>>)
    requires s.manifest == Some(m) && !s.complete && s.index <= |m.files|
    requires frames != [] && frames[0].EndFrame? && Step(h, s, frames[0]).Some?
    requires Continues(h, m, Step(h, s, frames[0]).value, frames[1..], data, more)
    ensures Continues(h, m, s, frames, [], more)
  {
    assert s.current.value + Carried([]) == s.current.value;
    assert frames == [frames[0]] + frames[1..];
  }

  lemma CompleteContinues(h: Hashing, m: Manifest, s: Stage, frames: seq<Frame>, t: Stage)
    requires s.manifest == Some(m) && !s.complete && s.index <= |m.files|
    requires frames != [] && frames[0].CompleteFrame? && Fold(h, s, frames) == Some(t)
    ensures Continues(h, m, s, frames, [], [])
  {
    assert frames == [frames[0]];
    assert m.files[s.index..] == [] && FileFrames([], []) + [frames[0]] == frames;
  }

  /** The files still to come can be staged beside each other and beside what is there. */
  ghost predicate Clear(m: Manifest, s: Stage) {
    && (forall i, j :: s.index <= i < j < |m.files| ==> Apart(m.files[i].path, m.files[j].path))
    && (forall j :: s.index + (if s.current.Some? then 1 else 0) <= j < |m.files| ==>
          CanStage(s.staged, m.files[j].path))
  }

  predicate Apart(p: Path, q: Path) {
    p != q && !Above(p, q) && !Above(q, p)
  }

  lemma {:induction false} AcceptedClear(h: Hashing, m: Manifest, s: Stage, frames: seq<Frame>, t: Stage)
    requires s.manifest == Some(m) && !s.complete && s.index <= |m.files|
    requires Fold(h, s, frames) == Some(t) && t.complete
    ensures Clear(m, s)
    decreases |frames|
  {
    var next := Step(h, s, frames[0]).value;
    if !frames[0].CompleteFrame? {
      AcceptedClear(h, m, next, frames[1..], t);
      if frames[0].EndFrame? {
        EndClear(m, s, next);
      }
    }
  }

  lemma EndClear(m: Manifest, s: Stage, next: Stage)
    requires s.index < |m.files| && s.current.Some? && Clear(m, next)
    requires next.index == s.index + 1 && next.current.None? &&
             next.staged == s.staged[m.files[s.index].path := s.current.value]
    ensures Clear(m, s)
  {
    var path := m.files[s.index].path;
    assert path in next.staged;
    forall j | s.index < j < |m.files| ensures Apart(path, m.files[j].path) && CanStage(s.staged, m.files[j].path) {
      assert CanStage(next.staged, m.files[j].path);
      forall q | q in s.staged ensures Apart(m.files[j].path, q) {
        assert q in next.staged;
      }
    }
  }

  /** The manifest comes first. */
  lemma AcceptedBegins(h: Hashing, frames: seq<Frame>, t: Stage)
    requires Fold(h, BEGIN, frames) == Some(t) && t.complete
    ensures frames != [] && frames[0].ManifestFrame? && ValidManifest(frames[0].manifest)
    ensures Fold(h, BEGIN.(manifest := Some(frames[0].manifest)), frames[1..]) == Some(t)
  {
  }

  lemma AcceptedIsSound(h: Hashing, frames: seq<Frame>, t: Stage) returns (m: Manifest, texts: seq<seq<string>>)
    requires Fold(h, BEGIN, frames) == Some(t) && t.complete
    ensures ValidManifest(m) && Carries(h, m.files, texts) && frames == Frames(h, m, texts)
    ensures t.manifest == Some(m) && Holds(t.staged, m.files, texts, |m.files|)
  {
    AcceptedBegins(h, frames, t);
    m := frames[0].manifest;
    var s := BEGIN.(manifest := Some(m));
    var here;
    here, texts := AcceptedContinues(h, m, s, frames[1..], t);
    AcceptedClear(h, m, s, frames[1..], t);
    assert m.files[0..] == m.files;
    Regroup([ManifestFrame(m)], FileFrames(m.files, texts), [CompleteFrame(h.manifest(m))]);
    assert frames == [frames[0]] + frames[1..];
    ClearCarries(h, m, s, texts);
    var u := SoundIsAccepted(h, m, texts);
  }

  lemma ClearCarries(h: Hashing, m: Manifest, s: Stage, texts: seq<seq<string>>)
    requires Clear(m, s) && s.index == 0 && |texts| == |m.files|
    requires DeclaredLast(h, m, texts)
    ensures Carries(h, m.files, texts)
  {
    forall i, j | 0 <= i < j < |m.files|
      ensures m.files[i].path != m.files[j].path && !Above(m.files[i].path, m.files[j].path) &&
              !Above(m.files[j].path, m.files[i].path)
    {
      assert Apart(m.files[i].path, m.files[j].path);
    }
    forall i | 0 <= i < |texts| ensures Declared(h, m.files[i], texts[i]) {
      assert Declared(h, m.files[|m.files| - |texts| + i], texts[i]);
    }
  }

  // ---- What is written on the way ----

  /** A data frame is taken exactly while a file is open, if it is base64 within bounds and the file has room for it. */
  lemma DataTakenIff(h: Hashing, s: Stage, text: string)
    requires !s.complete && s.manifest.Some?
    ensures var files := s.manifest.value.files;
            Step(h, s, DataFrame(text)).Some? <==>
            && s.current.Some? && s.index < |files|
            && |text| <= 90_000 && WellFormed(text)
            && |s.current.value| + |Decode(text)| <= files[s.index].bytes
  {
  }

  /** The file under way is not longer than its manifest says. */
  predicate Within(s: Stage) {
    s.current.Some? ==>
      && s.manifest.Some? && s.index < |s.manifest.value.files|
      && |s.current.value| <= s.manifest.value.files[s.index].bytes
  }

  predicate Sized(s: Stage) {
    s.manifest.Some? ==> forall i :: 0 <= i < |s.manifest.value.files| ==> s.manifest.value.files[i].bytes >= 0
  }

  lemma WithinStep(h: Hashing, s: Stage, f: Frame)
    requires Within(s) && Sized(s) && Step(h, s, f).Some?
    ensures Within(Step(h, s, f).value) && Sized(Step(h, s, f).value)
  {
  }

  lemma {:induction false} WithinRun(h: Hashing, s: Stage, frames: seq<Frame>)
    requires Within(s) && Sized(s) && Fold(h, s, frames).Some?
    ensures Within(Fold(h, s, frames).value)
    decreases |frames|
  {
    if frames != [] {
      WithinStep(h, s, frames[0]);
      WithinRun(h, Step(h, s, frames[0]).value, frames[1..]);
    }
  }

  /** Whatever frames come, no more is ever written to a file than its manifest says. */
  lemma NeverWritesMore(h: Hashing, frames: seq<Frame>)
    requires Fold(h, BEGIN, frames).Some? && Fold(h, BEGIN, frames).value.current.Some?
    ensures var s := Fold(h, BEGIN, frames).value;
            && s.manifest.Some? && s.index < |s.manifest.value.files|
            && |s.current.value| <= s.manifest.value.files[s.index].bytes
  {
    WithinRun(h, BEGIN, frames);
  }
}
