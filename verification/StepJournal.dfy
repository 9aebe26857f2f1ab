/**
 * The journal of a session's steps: read back with its torn tail cut off, and only ever appended to.
 *
 * Every line is one step as JSON; a crash may cut the last append anywhere.
 */
module StepJournal {
  import opened Wrappers
  import opened Base64
  import opened Lines

  type Evidence(==, !new)  // the fields of a step that tell it from others
  type Detail(==, !new)  // the others but its number: runtime and context

  datatype Step = Step(number: nat, evidence: Evidence, detail: Detail)

  /** Steps as JSON lines. */
  datatype Codec = Codec(encode: Step -> Bytes, parse: Bytes -> Option<Step>)

  /** A line can be read back; neither a part of one nor two of them run together can be taken for a step. */
  ghost predicate Faithful(codec: Codec) {
    && (forall s: Step :: codec.parse(codec.encode(s)) == Some(s) && Plain(codec.encode(s)) && codec.encode(s) != [])
    && (forall s: Step, n: nat :: n < |codec.encode(s)| ==> codec.parse(codec.encode(s)[..n]).None?)
    && (forall s: Step, t: Step :: codec.parse(codec.encode(s) + codec.encode(t)).None?)
  }

  function Encoded(codec: Codec, steps: seq<Step>): (lines: seq<Bytes>)
    ensures |lines| == |steps| && forall i :: 0 <= i < |steps| ==> lines[i] == codec.encode(steps[i])
  {
    seq(|steps|, i requires 0 <= i < |steps| => codec.encode(steps[i]))
  }

  function Text(codec: Codec, steps: seq<Step>): Bytes {
    Joined(Encoded(codec, steps))
  }

  predicate Numbered(steps: seq<Step>) {
    forall i :: 0 <= i < |steps| ==> steps[i].number == i + 1
  }

  // ---- Reading ----

  /** The lines of the file; what follows the last newline is one too, unless it is empty. */
  function Raw(file: Bytes): seq<Bytes> {
    LinesOf(file) + (if RestOf(file) == [] then [] else [RestOf(file)])
  }

  predicate InSequence(codec: Codec, raw: seq<Bytes>, i: nat)
    requires i < |raw|
  {
    codec.parse(raw[i]).Some? && codec.parse(raw[i]).value.number == i + 1
  }

  /** How many lines from `i` on are steps in sequence. */
  function GoodLines(codec: Codec, raw: seq<Bytes>, i: nat): (n: nat)
    requires i <= |raw|
    ensures i <= n <= |raw| && (forall j :: i <= j < n ==> InSequence(codec, raw, j)) &&
            (n < |raw| ==> !InSequence(codec, raw, n))
    decreases |raw| - i
  {
    if i < |raw| && InSequence(codec, raw, i) then GoodLines(codec, raw, i + 1) else i
  }

  function Parsed(codec: Codec, raw: seq<Bytes>, n: nat): seq<Step>
    requires n <= |raw| && forall j :: 0 <= j < n ==> InSequence(codec, raw, j)
  {
    seq(n, i requires 0 <= i < n && InSequence(codec, raw, i) => codec.parse(raw[i]).value)
  }

  datatype Outcome = Outcome(steps: seq<Step>, file: Bytes)

  /** The steps, and the file as reading leaves it; `None` if a line that is not the last is no step in sequence. */
  function ReadFile(codec: Codec, file: Bytes): Option<Outcome> {
    var raw := Raw(file);
    var n := GoodLines(codec, raw, 0);
    if n == |raw| then Some(Outcome(Parsed(codec, raw, n), file))
    else if n + 1 == |raw| && |Joined(raw[..n])| <= |file|
        then Some(Outcome(Parsed(codec, raw, n), file[..|Joined(raw[..n])|]))
    else None
  }

  // ---- A journal cut anywhere ----

  lemma EncodedParts(codec: Codec, a: seq<Step>, b: seq<Step>)
    ensures Encoded(codec, a + b) == Encoded(codec, a) + Encoded(codec, b)
    ensures Text(codec, a + b) == Text(codec, a) + Text(codec, b)
  {
    assert Encoded(codec, a + b) == Encoded(codec, a) + Encoded(codec, b);
    JoinedConcat(Encoded(codec, a), Encoded(codec, b));
  }

  lemma TextOne(codec: Codec, s: Step)
    ensures Text(codec, [s]) == codec.encode(s) + [NEWLINE]
  {
    assert Encoded(codec, [s]) == [codec.encode(s)];
    JoinedCons(codec.encode(s), []);
    assert [codec.encode(s)] + [] == [codec.encode(s)] &&
           codec.encode(s) + [NEWLINE] + [] == codec.encode(s) + [NEWLINE];
  }

  /** Up to a cut there are some whole lines and a part, perhaps all, of the next but for its newline. */
  lemma {:induction false} CutShape(codec: Codec, all: seq<Step>, c: nat) returns (k: nat, m: nat)
    requires c <= |Text(codec, all)|
    ensures k <= |all| && (k < |all| ==> m <= |codec.encode(all[k])|) && (k == |all| ==> m == 0)
    ensures Text(codec, all)[..c] == Text(codec, all[..k]) + (if k < |all| then codec.encode(all[k])[..m] else [])
    decreases |all|
  {
    if all == [] {
      k, m := 0, 0;
    } else {
      var front, last := all[..|all| - 1], all[|all| - 1];
      assert all == front + [last];
      EncodedParts(codec, front, [last]);
      TextOne(codec, last);
      var whole := Text(codec, front);
      if c < |whole| {
        k, m := CutShape(codec, front, c);
        assert Text(codec, all)[..c] == whole[..c];
        assert all[..k] == front[..k];
      } else if c - |whole| <= |codec.encode(last)| {
        k, m := |front|, c - |whole|;
        assert all[..k] == front;
        assert Text(codec, all)[..c] == whole + codec.encode(last)[..m];
      } else {
        k, m := |all|, 0;
        assert all[..k] == all && Text(codec, all)[..c] == Text(codec, all);
      }
    }
  }

  lemma RawOf(codec: Codec, steps: seq<Step>, rest: Bytes)
    requires Faithful(codec) && Plain(rest)
    ensures Raw(Text(codec, steps) + rest) == Encoded(codec, steps) + (if rest == [] then [] else [rest])
  {
    SplitJoin(Encoded(codec, steps), rest);
  }

  lemma GoodPrefix(codec: Codec, raw: seq<Bytes>, n: nat, i: nat)
    requires i <= n <= |raw| && (forall j :: i <= j < n ==> InSequence(codec, raw, j)) &&
             (n < |raw| ==> !InSequence(codec, raw, n))
    ensures GoodLines(codec, raw, i) == n
  {
  }

  /** What reading makes of whole lines followed by something that is no step. */
  lemma ReadTorn(codec: Codec, steps: seq<Step>, rest: Bytes)
    requires Faithful(codec) && Numbered(steps) && Plain(rest) && (rest != [] ==> codec.parse(rest).None?)
    ensures ReadFile(codec, Text(codec, steps) + rest) == Some(Outcome(steps, Text(codec, steps)))
  {
    var file, raw := Text(codec, steps) + rest, Encoded(codec, steps) + (if rest == [] then [] else [rest]);
    RawOf(codec, steps, rest);
    forall j | 0 <= j < |steps| ensures InSequence(codec, raw, j) {
      assert raw[j] == codec.encode(steps[j]);
    }
    GoodPrefix(codec, raw, |steps|, 0);
    assert raw[..|steps|] == Encoded(codec, steps);
    assert Parsed(codec, raw, |steps|) == steps;
    assert file[..|Text(codec, steps)|] == Text(codec, steps);
    assert rest == [] ==> file == Text(codec, steps);
  }

  /** A last line that only lacks its newline is taken for a step, and is left as it is. */
  lemma ReadUnterminated(codec: Codec, steps: seq<Step>, last: Step)
    requires Faithful(codec) && Numbered(steps + [last])
    ensures var file := Text(codec, steps) + codec.encode(last);
            ReadFile(codec, file) == Some(Outcome(steps + [last], file))
  {
    var file, all := Text(codec, steps) + codec.encode(last), steps + [last];
    var raw := Encoded(codec, all);
    RawOf(codec, steps, codec.encode(last));
    EncodedParts(codec, steps, [last]);
    assert Encoded(codec, [last]) == [codec.encode(last)];
    assert Raw(file) == raw;
    forall j | 0 <= j < |all| ensures InSequence(codec, raw, j) {
      assert raw[j] == codec.encode(all[j]);
    }
    GoodPrefix(codec, raw, |all|, 0);
    assert Parsed(codec, raw, |all|) == all;
  }

  /** The byte after the cut is the newline that ends a step. */
  predicate JustBeforeNewline(text: Bytes, c: nat) {
    c < |text| && text[c] == NEWLINE && c > 0 && text[c - 1] != NEWLINE
  }

  /**
   * Wherever the journal is cut, reading gives the steps up to some number: all that are newline-terminated, and one
   * more exactly if the cut is just before a newline. The file ends up as the text of those steps exactly otherwise.
   */
  lemma ReadAfterCut(codec: Codec, all: seq<Step>, c: nat)
    requires Faithful(codec) && Numbered(all) && c <= |Text(codec, all)|
    ensures var file := Text(codec, all)[..c];
            var r := ReadFile(codec, file);
            && r.Some?
            && r.value.steps <= all
            && |r.value.steps| == |LinesOf(file)| + (if JustBeforeNewline(Text(codec, all), c) then 1 else 0)
            && (r.value.file == Text(codec, r.value.steps) <==> !JustBeforeNewline(Text(codec, all), c))
  {
    var k, m := CutShape(codec, all, c);
    var file := Text(codec, all)[..c];
    assert all == all[..k] + all[k..];
    EncodedParts(codec, all[..k], all[k..]);
    if k == |all| {
      assert all[..k] == all && file + [] == file;
      WholeLines(codec, all, []);
      ReadTorn(codec, all, []);
    } else {
      TextAt(codec, all, k, m);
      assert c == |Text(codec, all[..k])| + m;
      if m == |codec.encode(all[k])| {
        assert codec.encode(all[k])[..m] == codec.encode(all[k]);
        assert all[..k] + [all[k]] == all[..k + 1];
        ReadAtLineEnd(codec, all[..k], all[k]);
      } else {
        ReadInLine(codec, all[..k], codec.encode(all[k])[..m]);
      }
    }
  }

  lemma ReadAtLineEnd(codec: Codec, steps: seq<Step>, next: Step)
    requires Faithful(codec) && Numbered(steps + [next])
    ensures var file := Text(codec, steps) + codec.encode(next);
            && ReadFile(codec, file) == Some(Outcome(steps + [next], file))
            && |LinesOf(file)| == |steps|
            && file != Text(codec, steps + [next])
  {
    ReadUnterminated(codec, steps, next);
    WholeLines(codec, steps, codec.encode(next));
    EncodedParts(codec, steps, [next]);
    TextOne(codec, next);
  }

  lemma ReadInLine(codec: Codec, steps: seq<Step>, part: Bytes)
    requires Faithful(codec) && Numbered(steps) && Plain(part) && (part != [] ==> codec.parse(part).None?)
    ensures var file := Text(codec, steps) + part;
            && ReadFile(codec, file) == Some(Outcome(steps, Text(codec, steps)))
            && |LinesOf(file)| == |steps|
  {
    ReadTorn(codec, steps, part);
    WholeLines(codec, steps, part);
  }

  /** Where the bytes of one step are in the text of all. */
  lemma TextAt(codec: Codec, all: seq<Step>, k: nat, m: nat)
    requires Faithful(codec) && k < |all| && m <= |codec.encode(all[k])|
    ensures var at, line := |Text(codec, all[..k])|, codec.encode(all[k]);
            && at + |line| < |Text(codec, all)|
            && (JustBeforeNewline(Text(codec, all), at + m) <==> m == |line|)
  {
    var steps, line := all[..k], codec.encode(all[k]);
    assert all == steps + ([all[k]] + all[k + 1..]);
    EncodedParts(codec, steps, [all[k]] + all[k + 1..]);
    EncodedParts(codec, [all[k]], all[k + 1..]);
    TextOne(codec, all[k]);
    var whole, text := Text(codec, steps), Text(codec, all);
    assert text == whole + (line + [NEWLINE] + Text(codec, all[k + 1..]));
    assert text[|whole| + |line|] == NEWLINE;
    if m < |line| {
      assert text[|whole| + m] == line[m];
    } else {
      assert text[|whole| + m - 1] == line[m - 1];
    }
  }

  lemma WholeLines(codec: Codec, steps: seq<Step>, rest: Bytes)
    requires Faithful(codec) && Plain(rest)
    ensures |LinesOf(Text(codec, steps) + rest)| == |steps|
  {
    SplitJoin(Encoded(codec, steps), rest);
  }

  /**
   * Steps appended after reading are read back, together with those before, exactly if the file was the text of its
   * steps. If its last line lacked the newline, the next reading loses that step too, or fails for good.
   */
  lemma AppendIsReadBackIff(codec: Codec, steps: seq<Step>, file: Bytes, more: seq<Step>)
    requires Faithful(codec) && Numbered(steps + more) && more != []
    requires file == Text(codec, steps) || (steps != [] && file + [NEWLINE] == Text(codec, steps))
    ensures var r := ReadFile(codec, file + Text(codec, more));
            && (r == Some(Outcome(steps + more, Text(codec, steps + more))) <==> file == Text(codec, steps))
            && (file != Text(codec, steps) ==>
                  r == (if |more| == 1 then Some(Outcome(steps[..|steps| - 1], Text(codec, steps[..|steps| - 1])))
                        else None))
  {
    EncodedParts(codec, steps, more);
    if file == Text(codec, steps) {
      ReadTorn(codec, steps + more, []);
      assert file + Text(codec, more) + [] == file + Text(codec, more);
    } else {
      GluedLine(codec, steps, file, more);
    }
  }

  lemma GluedLine(codec: Codec, steps: seq<Step>, file: Bytes, more: seq<Step>)
    requires Faithful(codec) && Numbered(steps + more) && more != [] && steps != [] &&
             file + [NEWLINE] == Text(codec, steps)
    ensures ReadFile(codec, file + Text(codec, more)) ==
            if |more| == 1 then Some(Outcome(steps[..|steps| - 1], Text(codec, steps[..|steps| - 1]))) else None
  {
    var front, last := steps[..|steps| - 1], steps[|steps| - 1];
    var glued := codec.encode(last) + codec.encode(more[0]);
    assert steps == front + [last];
    GluedText(codec, front, last, file, more);
    assert Numbered(front) by {
      forall j | 0 <= j < |front| ensures front[j].number == j + 1 {
        assert (steps + more)[j] == front[j];
      }
    }
    ReadGlued(codec, front, glued, more[1..]);
  }

  lemma GluedText(codec: Codec, front: seq<Step>, last: Step, file: Bytes, more: seq<Step>)
    requires more != [] && file + [NEWLINE] == Text(codec, front + [last])
    ensures file + Text(codec, more) ==
            Text(codec, front) + (codec.encode(last) + codec.encode(more[0]) + [NEWLINE]) + Text(codec, more[1..])
  {
    assert more == [more[0]] + more[1..];
    EncodedParts(codec, front, [last]);
    EncodedParts(codec, [more[0]], more[1..]);
    TextOne(codec, last);
    TextOne(codec, more[0]);
    assert file == (file + [NEWLINE])[..|file|];
    assert file == Text(codec, front) + codec.encode(last);
  }

  lemma ReadGlued(codec: Codec, front: seq<Step>, glued: Bytes, rest: seq<Step>)
    requires Faithful(codec) && Numbered(front) && Plain(glued) && codec.parse(glued).None?
    ensures ReadFile(codec, Text(codec, front) + (glued + [NEWLINE]) + Text(codec, rest)) ==
            if rest == [] then Some(Outcome(front, Text(codec, front))) else None
  {
    var lines := Encoded(codec, front) + [glued] + Encoded(codec, rest);
    JoinedGlued(codec, front, glued, rest);
    GluedPlain(codec, front, glued, rest, lines);
    forall j | 0 <= j < |front| ensures InSequence(codec, lines, j) {
      assert lines[j] == codec.encode(front[j]);
    }
    GoodPrefix(codec, lines, |front|, 0);
    assert lines[..|front|] == Encoded(codec, front);
    assert Parsed(codec, lines, |front|) == front;
    ReadBadLine(codec, lines, |front|);
  }

  lemma GluedPlain(codec: Codec, front: seq<Step>, glued: Bytes, rest: seq<Step>, lines: seq<Bytes>)
    requires Faithful(codec) && Plain(glued) && lines == Encoded(codec, front) + [glued] + Encoded(codec, rest)
    ensures AllPlain(lines)
  {
    forall j | 0 <= j < |lines| ensures Plain(lines[j]) {
      if j < |front| {
        assert lines[j] == codec.encode(front[j]);
      } else if j > |front| {
        assert lines[j] == codec.encode(rest[j - |front| - 1]);
      }
    }
  }

  /** A line that is no step in sequence is cut off if it is the last, and is an error if it is not. */
  lemma ReadBadLine(codec: Codec, lines: seq<Bytes>, n: nat)
    requires AllPlain(lines) && n < |lines| && GoodLines(codec, lines, 0) == n
    ensures ReadFile(codec, Joined(lines)) ==
            if n + 1 == |lines| then Some(Outcome(Parsed(codec, lines, n), Joined(lines[..n]))) else None
  {
    SplitJoin(lines, []);
    assert Joined(lines) + [] == Joined(lines);
    assert Raw(Joined(lines)) == lines;
    assert lines == lines[..n] + lines[n..];
    JoinedConcat(lines[..n], lines[n..]);
    assert Joined(lines)[..|Joined(lines[..n])|] == Joined(lines[..n]);
  }

  lemma JoinedGlued(codec: Codec, front: seq<Step>, glued: Bytes, rest: seq<Step>)
    ensures Joined(Encoded(codec, front) + [glued] + Encoded(codec, rest)) ==
              Text(codec, front) + (glued + [NEWLINE]) + Text(codec, rest)
  {
    JoinedConcat(Encoded(codec, front) + [glued], Encoded(codec, rest));
    JoinedConcat(Encoded(codec, front), [glued]);
    JoinedCons(glued, []);
    assert [glued] + [] == [glued] && glued + [NEWLINE] + [] == glued + [NEWLINE];
  }

  // ---- Synchronising ----

  function Known(steps: seq<Step>): set<Evidence> {
    set i | 0 <= i < |steps| :: steps[i].evidence
  }

  /** The existing steps, and after them every candidate of which there is no evidence yet, numbered on. */
  function Synchronized(existing: seq<Step>, candidates: seq<Step>): seq<Step>
    decreases |candidates|
  {
    if candidates == [] then existing
    else
      var before := Synchronized(existing, candidates[..|candidates| - 1]);
      var candidate := candidates[|candidates| - 1];
      if candidate.evidence in Known(before) then before else before + [candidate.(number := |before| + 1)]
  }

  /** The step is one of the candidates but for its number. */
  ghost predicate Renumbered(candidates: seq<Step>, step: Step, number: nat) {
    exists c :: c in candidates && step == c.(number := number)
  }

  lemma {:induction false} SynchronizedGrows(existing: seq<Step>, candidates: seq<Step>)
    ensures var all := Synchronized(existing, candidates);
            && existing <= all
            && Known(all) == Known(existing) + Known(candidates)
            && (Numbered(existing) ==> Numbered(all))
            && (forall i, j :: 0 <= i < j < |all| && j >= |existing| ==> all[i].evidence != all[j].evidence)
    decreases |candidates|
  {
    if candidates != [] {
      var front, last := candidates[..|candidates| - 1], candidates[|candidates| - 1];
      SynchronizedGrows(existing, front);
      var before, all := Synchronized(existing, front), Synchronized(existing, candidates);
      assert candidates == front + [last];
      KnownSnoc(front, last);
      KnownSnoc(before, last.(number := |before| + 1));
      if last.evidence !in Known(before) {
        forall i | 0 <= i < |before| ensures before[i].evidence != last.evidence {
          assert before[i].evidence in Known(before);
        }
      }
    }
  }

  lemma {:induction false} NewAreCandidates(existing: seq<Step>, candidates: seq<Step>, i: nat)
    requires |existing| <= i < |Synchronized(existing, candidates)|
    ensures Renumbered(candidates, Synchronized(existing, candidates)[i], i + 1)
    decreases |candidates|
  {
    if candidates != [] {
      var front, last := candidates[..|candidates| - 1], candidates[|candidates| - 1];
      assert candidates == front + [last];
      if i < |Synchronized(existing, front)| {
        NewAreCandidates(existing, front, i);
      }
    }
  }

  /**
   * Nothing is changed or dropped; every candidate's evidence is there; what is new is a candidate, numbered on, whose
   * evidence was not there before.
   */
  lemma SynchronizedOnlyAppends(existing: seq<Step>, candidates: seq<Step>)
    ensures var all := Synchronized(existing, candidates);
            && existing <= all
            && Known(all) == Known(existing) + Known(candidates)
            && (Numbered(existing) ==> Numbered(all))
            && (forall i, j :: 0 <= i < j < |all| && j >= |existing| ==> all[i].evidence != all[j].evidence)
            && (forall i :: |existing| <= i < |all| ==> Renumbered(candidates, all[i], i + 1))
  {
    SynchronizedGrows(existing, candidates);
    forall i | |existing| <= i < |Synchronized(existing, candidates)|
      ensures Renumbered(candidates, Synchronized(existing, candidates)[i], i + 1)
    {
      NewAreCandidates(existing, candidates, i);
    }
  }

  lemma KnownSnoc(steps: seq<Step>, s: Step)
    ensures Known(steps + [s]) == Known(steps) + {s.evidence}
  {
    forall e | e in Known(steps) + {s.evidence} ensures e in Known(steps + [s]) {
      if e == s.evidence {
        assert (steps + [s])[|steps|].evidence == e;
      } else {
        var i :| 0 <= i < |steps| && steps[i].evidence == e;
        assert (steps + [s])[i].evidence == e;
      }
    }
  }

  /** A second time, or with any of what is there already, nothing is added. */
  lemma {:induction false} SynchronizingAgainAddsNothing(all: seq<Step>, candidates: seq<Step>)
    requires Known(candidates) <= Known(all)
    ensures Synchronized(all, candidates) == all
    decreases |candidates|
  {
    if candidates != [] {
      var front, last := candidates[..|candidates| - 1], candidates[|candidates| - 1];
      assert candidates == front + [last];
      KnownSnoc(front, last);
      SynchronizingAgainAddsNothing(all, front);
    }
  }

  lemma SynchronizeIsIdempotent(existing: seq<Step>, candidates: seq<Step>)
    ensures Synchronized(Synchronized(existing, candidates), candidates) == Synchronized(existing, candidates)
  {
    SynchronizedOnlyAppends(existing, candidates);
    SynchronizingAgainAddsNothing(Synchronized(existing, candidates), candidates);
  }

  lemma LineCounts(raw: seq<Bytes>, i: nat)
    requires i < |raw|
    ensures |Joined(raw[..i + 1])| == |Joined(raw[..i])| + |raw[i]| + 1
  {
    JoinedConcat(raw[..i], [raw[i]]);
    JoinedCons(raw[i], []);
    assert [raw[i]] + [] == [raw[i]] && raw[..i + 1] == raw[..i] + [raw[i]];
  }

  // ---- The store of one session ----

  class SessionStepStore {
    const codec: Codec
    var file: Bytes
    var cache: Option<seq<Step>>

    /** What is cached is what reading the file would give, and reading would leave the file as it is. */
    ghost predicate Valid()
      reads this
    {
      cache.Some? ==> ReadFile(codec, file) == Some(Outcome(cache.value, file)) && Numbered(cache.value)
    }

    constructor (codec: Codec, file: Bytes)
      ensures Valid() && this.codec == codec && this.file == file && cache.None?
    {
      this.codec, this.file, cache := codec, file, None;
    }

    /** Goes through the lines; a last line that is no step in sequence is cut off the file. */
    method Read() returns (steps: Option<seq<Step>>)
      requires Valid()
      modifies this
      ensures Valid() && cache == (if steps.Some? then steps else old(cache))
      ensures steps.Some? ==> Numbered(steps.value)
      ensures var r := ReadFile(codec, old(file));
              (steps.Some? <==> r.Some?) && (r.Some? ==> steps.value == r.value.steps && file == r.value.file)
      ensures steps.None? ==> file == old(file)
    {
      if cache.Some? {
        return cache;
      }
      var raw := LinesOf(file) + (if RestOf(file) == [] then [] else [RestOf(file)]);
      var read: seq<Step> := [];
      var validBytes := 0;
      for i := 0 to |raw|
        invariant |read| == i && validBytes == |Joined(raw[..i])|
        invariant forall j :: 0 <= j < i ==> InSequence(codec, raw, j) && read[j] == codec.parse(raw[j]).value
        invariant file == old(file) && cache == old(cache)
      {
        var step := codec.parse(raw[i]);
        if step.None? || step.value.number != |read| + 1 {
          GoodPrefix(codec, raw, i, 0);
          assert read == Parsed(codec, raw, i);
          if i + 1 != |raw| {
            return None;
          }
          TruncatedReads(codec, file, raw, i);
          file := file[..validBytes];
          cache := Some(read);
          return cache;
        }
        read := read + [step.value];
        LineCounts(raw, i);
        validBytes := validBytes + |raw[i]| + 1;
      }
      GoodPrefix(codec, raw, |raw|, 0);
      assert read == Parsed(codec, raw, |raw|);
      cache := Some(read);
      return cache;
    }

    /**
     * Reads, and appends what is new in one write, which a crash may cut short anywhere. Afterwards the cache is what a
     * restart would read if the file was the text of its steps; see `AppendIsReadBackIff` for the other case.
     */
    method Synchronize(candidates: seq<Step>, cut: Option<nat>) returns (steps: Option<seq<Step>>)
      requires Valid() && Faithful(codec)
      modifies this
      ensures var r := ReadFile(codec, old(file));
              && (r.None? ==> steps.None? && file == old(file) && cache == old(cache))
              && (r.Some? ==>
                    var all := Synchronized(r.value.steps, candidates);
                    && |all| >= |r.value.steps|
                    && var added := Text(codec, all[|r.value.steps|..]);
                    && file == r.value.file + (if cut.Some? && cut.value < |added| then added[..cut.value] else added)
                    && (if cut.Some? then steps.None? && cache.None? else steps == Some(all) && cache == steps)
                    && (r.value.file == Text(codec, r.value.steps) ==> Valid()))
    {
      var read := Read();
      if read.None? {
        return None;
      }
      var existing := read.value;
      var additions := Additions(existing, candidates);
      ghost var was := file;
      SynchronizedOnlyAppends(existing, candidates);
      var all := existing + additions;
      assert all[|existing|..] == additions;
      var text := Text(codec, additions);
      file := file + (if cut.Some? && cut.value < |text| then text[..cut.value] else text);
      if cut.Some? {
        cache := None;
        return None;
      }
      cache := Some(all);
      if was == Text(codec, existing) {
        EncodedParts(codec, existing, additions);
        ReadTorn(codec, all, []);
        assert file + [] == file;
      }
      steps := cache;
    }

    /** The journal is replaced as a whole, renumbered from one. */
    method Replace(steps: seq<Step>)
      requires Faithful(codec)
      modifies this
      ensures Valid() && cache.Some? && file == Text(codec, cache.value) && Numbered(cache.value)
      ensures |cache.value| == |steps| && forall i :: 0 <= i < |steps| ==> cache.value[i] == steps[i].(number := i + 1)
    {
      var renumbered := seq(|steps|, i requires 0 <= i < |steps| => steps[i].(number := i + 1));
      file := Text(codec, renumbered);
      cache := Some(renumbered);
      ReadTorn(codec, renumbered, []);
      assert file + [] == file;
    }
  }

  /** Goes through the candidates and remembers the evidence seen so far. */
  method Additions(existing: seq<Step>, candidates: seq<Step>) returns (additions: seq<Step>)
    ensures existing + additions == Synchronized(existing, candidates)
  {
    additions := [];
    var evidence := Known(existing);
    assert candidates[..0] == [] && existing + [] == existing;
    for i := 0 to |candidates|
      invariant existing + additions == Synchronized(existing, candidates[..i])
      invariant evidence == Known(existing + additions)
    {
      var candidate := candidates[i];
      assert candidates[..i + 1][..i] == candidates[..i];
      if candidate.evidence !in evidence {
        var step := candidate.(number := |existing| + |additions| + 1);
        KnownSnoc(existing + additions, step);
        assert existing + (additions + [step]) == existing + additions + [step];
        additions := additions + [step];
        evidence := evidence + {step.evidence};
      }
    }
    assert candidates[..|candidates|] == candidates;
  }

  lemma FirstLinesOf(file: Bytes, n: nat)
    requires n <= |LinesOf(file)|
    ensures var first := LinesOf(file)[..n];
            |Joined(first)| <= |file| && file[..|Joined(first)|] == Joined(first) && Raw(Joined(first)) == first
  {
    JoinSplit(file);
    var lines, rest := LinesOf(file), RestOf(file);
    var first := lines[..n];
    assert lines == first + lines[n..];
    JoinedConcat(first, lines[n..]);
    SplitJoin(first, []);
    assert Joined(first) + [] == Joined(first);
  }

  /** The file without a bad last line reads as the same steps and stays as it is. */
  lemma TruncatedReads(codec: Codec, file: Bytes, raw: seq<Bytes>, n: nat)
    requires raw == Raw(file) && n + 1 == |raw| && GoodLines(codec, raw, 0) == n
    ensures |Joined(raw[..n])| <= |file|
    ensures ReadFile(codec, file) == Some(Outcome(Parsed(codec, raw, n), file[..|Joined(raw[..n])|]))
    ensures ReadFile(codec, file[..|Joined(raw[..n])|]) == ReadFile(codec, file)
  {
    var first := LinesOf(file)[..n];
    assert raw[..n] == first;
    FirstLinesOf(file, n);
    forall j | 0 <= j < n ensures InSequence(codec, first, j) {
      assert InSequence(codec, raw, j);
    }
    GoodPrefix(codec, first, n, 0);
    assert Parsed(codec, first, n) == Parsed(codec, raw, n);
  }
}
