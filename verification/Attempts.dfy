/** Which steps the attempts of a session cover, orphan timeouts cut off or not. */
module Attempts {
  // Hooks reach the state through receipts, so what they emit and what they save are one step. An orphan timeout
  // emits first and saves last: the process may die in between, and an error in between keeps the session in memory
  // as it was. A restart emits first and saves last too, but one that is repeated emits the same again.

  import opened Wrappers
  import opened Units
  import opened Sessions
  import Outcomes

  /**
   * `past` and `saved` are history: the events whose effect the session in memory, or the one on disk, has. `half` is
   * there while the process is down in the middle of a restart, and says how many attempts were emitted by then.
   */
  datatype Daemon = Daemon(
    memory: Session, disk: Session, past: seq<Event>, saved: seq<Event>, emitted: seq<Emission>, half: Option<nat>)

  datatype Occurrence =
    | Done(event: Event)
    | Unsaved(extra: nat, head: Option<Revision>)           // an orphan timeout that is over but not saved
    | Thrown(extra: nat, head: Option<Revision>)            // one that fails after it has emitted
    | Interrupted(evidence: seq<Evidence>, count: nat)      // a restart that dies after emitting so many attempts

  const START := Daemon(FRESH, FRESH, [], [], [], None)

  /** A restart goes on from the disk, everything else from memory. */
  function Base(d: Daemon, e: Event): Session {
    if e.Restart? then d.disk else d.memory
  }

  function Past(d: Daemon, e: Event): seq<Event> {
    if e.Restart? then d.saved else d.past
  }

  function EventOf(o: Occurrence): Event {
    match o
    case Done(e) => e
    case Unsaved(extra, head) => Orphan(extra, head)
    case Thrown(extra, head) => Orphan(extra, head)
    case Interrupted(evidence, _) => Restart(evidence)
  }

  function Already(d: Daemon): nat {
    if d.half.Some? then d.half.value else 0
  }

  /** How many of the `size` attempts it finds a restart, and those cut off before it, have emitted in the end. */
  function Reaches(d: Daemon, o: Occurrence, size: nat): nat {
    if !o.Interrupted? || o.count > size then size else if o.count < Already(d) then Already(d) else o.count
  }

  /** The session that a restart has in memory when it has closed the first `n` ranges. */
  function Partly(s: Session, units: seq<Unit>, n: nat): Session {
    if n == 0 || n > |units| then s else s.(completed := s.completed + n, finalizedThrough := units[n - 1].to)
  }

  function Part(all: seq<Emission>, n: nat, m: nat): seq<Emission> {
    if n <= m <= |all| then all[n..m] else []
  }

  /** Nothing but a restart follows one that was cut off. */
  predicate Happens(d: Daemon, o: Occurrence) {
    d.half.None? || EventOf(o).Restart?
  }

  /**
   * What an occurrence emits, whatever becomes of the session. What a repeated restart emits again has the number and
   * the range it had before (`RepeatedRestart`), and is counted once.
   */
  function Emits(d: Daemon, o: Occurrence): seq<Emission> {
    var e := EventOf(o);
    var all := Applied(Base(d, e), e, |Past(d, e)|).1;
    if !Happens(d, o) then []
    else if e.Restart? then Part(all, Already(d), Reaches(d, o, |all|))
    else all
  }

  function Next(d: Daemon, o: Occurrence): Daemon {
    var e := EventOf(o);
    var (t, all) := Applied(Base(d, e), e, |Past(d, e)|);
    var past, emitted := Past(d, e) + [e], d.emitted + Emits(d, o);
    if !Happens(d, o) then d
    else
      match o
      case Done(_) => Daemon(t, t, past, past, emitted, None)
      case Unsaved(_, _) => d.(memory := t, past := past, emitted := emitted)
      case Thrown(_, _) => d.(emitted := emitted)
      case Interrupted(_, _) =>
        var n := Reaches(d, o, |all|);
        d.(memory := Partly(ReadBack(d.disk), Found(d.disk), n), past := d.saved, emitted := emitted, half := Some(n))
  }

  function Follow(d: Daemon, os: seq<Occurrence>): Daemon
    decreases |os|
  {
    if os == [] then d else Follow(Next(d, os[0]), os[1..])
  }

  // ---- What memory and disk hold ----

  ghost predicate Remembered(d: Daemon) {
    && (d.half.None? ==> d.memory == Run(d.past).0)
    && d.disk == Run(d.saved).0
    && |d.saved| <= |d.past|
    && d.saved == d.past[..|d.saved|]
  }

  lemma NextRemembers(d: Daemon, o: Occurrence)
    requires Remembered(d)
    ensures Remembered(Next(d, o))
  {
    var e := EventOf(o);
    LastFacts(Past(d, e), e);
    var past := Past(d, e) + [e];
    assert past[..|past|] == past;
    assert (d.past + [e])[..|d.saved|] == d.saved;
  }

  lemma {:induction false} FollowRemembers(d: Daemon, os: seq<Occurrence>)
    requires Remembered(d)
    ensures Remembered(Follow(d, os))
    decreases |os|
  {
    if os != [] {
      NextRemembers(d, os[0]);
      FollowRemembers(Next(d, os[0]), os[1..]);
    }
  }

  /**
   * However orphan timeouts and restarts are cut off, the session in memory, and the one on disk, is what the events
   * in its past make of a fresh one; the disk is never ahead.
   */
  lemma MemoryIsRun(os: seq<Occurrence>)
    ensures var d := Follow(START, os);
            && (d.half.None? ==> d.memory == Run(d.past).0)
            && d.disk == Run(d.saved).0
            && |d.saved| <= |d.past| && d.saved == d.past[..|d.saved|]
  {
    FollowRemembers(START, os);
  }

  /**
   * Over every such run too, an attempt is emitted as successful exactly when it ends with a response or with the
   * session, and the events whose effect the session has hold a standing approval of it and no call without a result.
   */
  lemma SuccessInEveryRun(os: seq<Occurrence>, o: Occurrence, m: Emission)
    requires m in Emits(Follow(START, os), o)
    ensures var d := Follow(START, os);
            m.outcome == Succeeded <==>
            && o.Done? && (o.event.Finish? || o.event.End?)
            && (exists i: nat :: Warrants(d.past, i, m, o.event.head))
            && (forall i: nat :: !Unanswered(d.past, i))
  {
    var d := Follow(START, os);
    MemoryIsRun(os);
    var e := EventOf(o);
    if e.Finish? || e.End? {
      SuccessIffWarranted(d.past, e, m);
    } else {
      OtherwiseNoSuccess(Base(d, e), e, |Past(d, e)|, m);
    }
  }

  /** The outcome that the events in its past give an attempt which ends with a response or with the session. */
  ghost predicate AsRuled(past: seq<Event>, e: Event, m: Emission)
    requires e.Finish? || e.End?
  {
    m.outcome ==
      if Outcomes.Ruled(past, Approve, m, e.head) && Outcomes.AllAnswered(past) then Succeeded
      else if Outcomes.Ruled(past, Refuse, m, e.head) || (e.Finish? && e.failed) || Outcomes.SomeFailureStands(past)
      then Failed
      else Unknown
  }

  /** The outcome that the step it ends with, and the evidence about it, give an attempt closed at a restart. */
  predicate AsFound(steps: seq<Kind>, evidence: seq<Evidence>, i: nat, m: Emission) {
    && 1 <= m.to <= |steps|
    && m.task == (if i < |evidence| then evidence[i].task else None)
    && m.outcome ==
         if steps[m.to - 1] == Response && i < |evidence| && evidence[i].failed then Failed else Unknown
  }

  lemma LiveOutcome(d: Daemon, e: Event, m: Emission)
    requires d.memory == Run(d.past).0 && m in Applied(d.memory, e, |d.past|).1 && !e.Restart?
    ensures e.Finish? || e.End? ==> AsRuled(d.past, e, m)
    ensures !e.Finish? && !e.End? ==> m.outcome == Unknown
  {
    if e.Finish? || e.End? {
      Outcomes.OutcomeInEveryRun(d.past, e, m);
    } else {
      Outcomes.AbandonedIsUnknown(d.memory, e, |d.past|, m);
    }
  }

  ghost predicate WithItsOutcome(d: Daemon, o: Occurrence, k: nat)
    requires k < |Emits(d, o)|
  {
    var e, m := EventOf(o), Emits(d, o)[k];
    if e.Restart? then AsFound(ReadBack(d.disk).steps, e.evidence, Already(d) + k, m)
    else if e.Finish? || e.End? then AsRuled(d.past, e, m)
    else (e.Submit? || e.Orphan?) && m.outcome == Unknown
  }

  /**
   * Over every such run, which outcome each attempt is emitted with: at its end as the events rule whose effect the
   * session has, failures included; unknown where a prompt or an orphan timeout cuts it off; and at a restart failed
   * exactly if it ends with a response that the evidence calls failed.
   */
  lemma OutcomeInEveryRun(os: seq<Occurrence>, o: Occurrence, k: nat)
    requires k < |Emits(Follow(START, os), o)|
    ensures WithItsOutcome(Follow(START, os), o, k)
  {
    MemoryIsRun(os);
    EmissionOutcome(Follow(START, os), o, k);
  }

  lemma EmissionOutcome(d: Daemon, o: Occurrence, k: nat)
    requires k < |Emits(d, o)| && (d.half.None? ==> d.memory == Run(d.past).0)
    ensures WithItsOutcome(d, o, k)
  {
    var e, m := EventOf(o), Emits(d, o)[k];
    EmissionSource(d, o, k);
    if e.Restart? {
      Outcomes.RestartOutcome(d.disk, e.evidence, |d.saved|, Already(d) + k);
    } else {
      LiveOutcome(d, e, m);
      OnlyTheseEmit(d.memory, e, |d.past|);
    }
  }

  lemma EmissionSource(d: Daemon, o: Occurrence, k: nat)
    requires k < |Emits(d, o)|
    ensures var e := EventOf(o);
            var all := Applied(Base(d, e), e, |Past(d, e)|).1;
            && (e.Restart? ==> Already(d) + k < |all| && Emits(d, o)[k] == all[Already(d) + k])
            && (!e.Restart? ==> d.half.None? && Emits(d, o) == all)
  {
  }

  lemma OnlyTheseEmit(s: Session, e: Event, at: nat)
    requires Applied(s, e, at).1 != []
    ensures e.Finish? || e.End? || e.Submit? || e.Orphan? || e.Restart?
  {
  }

  /**
   * A restart that dies before it saves has emitted a first part of what the next one emits: the same ranges under
   * the same numbers, from which the jobs are named, whatever the vault says by then.
   */
  lemma RepeatedRestart(s: Session, before: seq<Evidence>, again: seq<Evidence>)
    ensures var first, second := Restarted(s, before).1, Restarted(s, again).1;
            && |first| == |second|
            && forall i :: 0 <= i < |first| ==>
                 first[i].unit == second[i].unit && first[i].from == second[i].from && first[i].to == second[i].to
  {
    SameBackfill(ReadBack(s), Found(s), before, again, 0);
  }

  lemma {:induction false} SameBackfill(s: Session, units: seq<Unit>, before: seq<Evidence>, again: seq<Evidence>,
      at: nat)
    requires at <= |units|
    ensures var first, second := Backfill(s, units, before, at).1, Backfill(s, units, again, at).1;
            && |first| == |second|
            && forall i :: 0 <= i < |first| ==>
                 first[i].unit == second[i].unit && first[i].from == second[i].from && first[i].to == second[i].to
    decreases |units| - at
  {
    if at < |units| {
      SameBackfill(Closed(s, units[at]), units, before, again, at + 1);
    }
  }

  // ---- What the session keeps between events ----

  /** A prompt that no attempt was opened for: a recorded decision that reads like one, still open to the scan. */
  ghost predicate StrayAt(steps: seq<Kind>, after: nat, end: nat, n: nat) {
    && after < n < end
    && KindAt(steps, n) == Prompt
    && forall m :: n < m < end ==> KindAt(steps, m) != Response
  }

  ghost predicate StrayPrompt(steps: seq<Kind>, after: nat, end: nat) {
    exists n :: StrayAt(steps, after, end, n)
  }

  /** Where the prompt of the attempt under way is: its usage report comes before it, if there is one. */
  function PromptOf(s: Session): nat
    requires s.start.Some?
  {
    if KindAt(s.steps, s.start.value) == Prompt then s.start.value else s.start.value + 1
  }

  ghost predicate AttemptShape(s: Session)
    requires s.start.Some?
  {
    var start, prompt := s.start.value, PromptOf(s);
    && s.finalizedThrough < start <= |s.steps| == s.stored
    && KindAt(s.steps, prompt) == Prompt
    && (forall n :: n >= start ==> KindAt(s.steps, n) != Response && (KindAt(s.steps, n) == Prompt ==> n == prompt))
    && (prompt != start ==> !StrayPrompt(s.steps, s.finalizedThrough, start))
  }

  ghost predicate Shape(s: Session) {
    && 1 <= s.stored <= |s.steps|
    && s.finalizedThrough <= |s.steps|
    && (s.completed == 0 ==> s.finalizedThrough == 0)
    && (s.start.Some? ==> AttemptShape(s))
    && (s.start.None? && s.completed == 0 ==> forall n :: KindAt(s.steps, n) != Response)
  }

  function LastTo(emitted: seq<Emission>, before: nat): nat {
    if emitted == [] then before else emitted[|emitted| - 1].to
  }

  /** Emissions that continue a session's sequence: later steps and later unit numbers, in order. */
  ghost predicate Continues(s: Session, emitted: seq<Emission>, t: Session) {
    && t.finalizedThrough == LastTo(emitted, s.finalizedThrough)
    && t.completed == s.completed + |emitted|
    && (forall i :: 0 <= i < |emitted| ==>
          s.finalizedThrough < emitted[i].from <= emitted[i].to && emitted[i].unit == s.completed + 1 + i)
    && (forall i, j :: 0 <= i < j < |emitted| ==> emitted[i].to < emitted[j].from)
  }

  lemma ContinuesOn(r: Session, before: seq<Emission>, s: Session, more: seq<Emission>, t: Session)
    requires Continues(r, before, s) && Continues(s, more, t)
    ensures Continues(r, before + more, t)
  {
    var all := before + more;
    assert forall i :: 0 <= i < |before| ==> before[i].to <= s.finalizedThrough;
    forall i | 0 <= i < |all|
      ensures r.finalizedThrough < all[i].from <= all[i].to && all[i].unit == r.completed + 1 + i
    {
      if i >= |before| {
        assert all[i] == more[i - |before|];
        assert before != [] ==> before[|before| - 1].from > r.finalizedThrough;
      }
    }
    forall i, j | 0 <= i < j < |all| ensures all[i].to < all[j].from {
      if j >= |before| {
        assert all[j] == more[j - |before|];
        if i >= |before| {
          assert all[i] == more[i - |before|];
        }
      }
    }
  }

  lemma ContinuesMonotone(s: Session, emitted: seq<Emission>, t: Session)
    requires Continues(s, emitted, t)
    ensures s.finalizedThrough <= t.finalizedThrough
    ensures emitted != [] ==> s.finalizedThrough < t.finalizedThrough
  {
  }

  lemma EmittedKeepsShape(s: Session, head: Option<Revision>)
    requires 1 <= s.stored <= |s.steps| && s.finalizedThrough <= |s.steps|
    requires s.completed == 0 ==> s.finalizedThrough == 0
    requires s.start.Some? ==> s.finalizedThrough < s.start.value <= |s.steps|
    requires AttemptStart(s).None? ==> Shape(s)
    ensures var (t, emitted) := Emitted(s, head);
            && Shape(t) && Continues(s, emitted, t)
            && t.stored == s.stored && |t.steps| == |s.steps|
            && (emitted == [] <==> AttemptStart(s).None?)
            && (emitted != [] ==> t.start.None? && t.completed == s.completed + 1 && t.finalizedThrough == |t.steps|)
  {
  }

  lemma FinishKeepsShape(s: Session, e: Event, at: nat)
    requires Shape(s) && e.Finish?
    ensures var (t, emitted) := Applied(s, e, at);
            Shape(t) && Continues(s, emitted, t) && t.stored == |t.steps|
  {
    var t := Recorded(s, Others(e.extra) + [Response]);
    var u := if e.failed then t.(explicitFailure := true) else t;
    EmittedKeepsShape(u, e.head);
  }

  lemma SubmitKeepsShape(s: Session, e: Event, at: nat)
    requires Shape(s) && e.Submit?
    requires e.runtime && s.start.None? ==> !StrayPrompt(s.steps, s.finalizedThrough, |s.steps| + 1)
    ensures var (t, emitted) := Applied(s, e, at);
            Shape(t) && Continues(s, emitted, t) && t.stored == |t.steps|
  {
    var abandoned := WithoutVerifiedOutcome(s);
    var t := Applied(s, e, at).0;
    if s.start.Some? {
      EmittedKeepsShape(abandoned, e.head);
      PromptKeepsShape(Emitted(abandoned, e.head).0, e, t);
    } else {
      PromptKeepsShape(abandoned, e, t);
    }
  }

  /** A prompt opens an attempt, after a usage report if there is one. */
  lemma PromptKeepsShape(s: Session, e: Event, t: Session)
    requires Shape(s) && e.Submit? && s.start.None?
    requires e.runtime ==> !StrayPrompt(s.steps, s.finalizedThrough, |s.steps| + 1)
    requires t.steps == s.steps + ((if e.runtime then [Other] else []) + [Prompt]) && t.stored == |t.steps|
    requires t.start == Some(|s.steps| + 1) && t.completed == s.completed && t.finalizedThrough == s.finalizedThrough
    ensures Shape(t)
  {
    assert forall n: nat :: n <= |s.steps| ==> KindAt(t.steps, n) == KindAt(s.steps, n);
    assert forall n: nat :: |s.steps| < n < |t.steps| ==> KindAt(t.steps, n) == Other;
    assert KindAt(t.steps, |t.steps|) == Prompt;
    var end := |s.steps| + 1;
    forall n: nat | StrayAt(t.steps, t.finalizedThrough, end, n) ensures StrayAt(s.steps, s.finalizedThrough, end, n) {
      assert forall m: nat :: n < m < end ==> KindAt(s.steps, m) == KindAt(t.steps, m);
    }
  }

  lemma {:induction false} BackfillContinues(s: Session, units: seq<Unit>, evidence: seq<Evidence>, at: nat)
    requires at <= |units| && forall i :: at <= i < |units| ==> s.finalizedThrough < units[i].from <= units[i].to
    requires forall i, j :: 0 <= i < j < |units| ==> units[i].to < units[j].from
    ensures var (t, emitted) := Backfill(s, units, evidence, at);
            && Continues(s, emitted, t)
            && |emitted| == |units| - at
            && t == s.(completed := t.completed,
               finalizedThrough := if at == |units| then s.finalizedThrough else LastEnd(units, 0))
    decreases |units| - at
  {
    if at < |units| {
      var next, m := Closed(s, units[at]), Closing(s, units[at], evidence, at);
      BackfillContinues(next, units, evidence, at + 1);
      var (t, rest) := Backfill(next, units, evidence, at + 1);
      assert Continues(s, [m], next);
      ContinuesOn(s, [m], next, rest, t);
    }
  }

  /** No range of the scan reaches into the attempt under way. */
  lemma RestartClosesBefore(s: Session)
    requires Shape(s)
    ensures var units := ClosedUnits(s.steps, s.finalizedThrough);
            && (s.start.Some? ==> forall i :: 0 <= i < |units| ==> units[i].to < s.start.value)
            && (forall i :: 0 <= i < |units| && units[i].reason == Stop ==> KindAt(s.steps, units[i].to) == Response)
            && (forall i :: 0 <= i < |units| && units[i].reason == PromptBoundary ==>
                  KindAt(s.steps, units[i].from) == Prompt && KindAt(s.steps, units[i].to + 1) == Prompt)
  {
    var units := ClosedUnits(s.steps, s.finalizedThrough);
    ScanCuts(s.steps, s.finalizedThrough, None, s.finalizedThrough);
    forall i | 0 <= i < |units|
      ensures units[i].reason == Stop ==> KindAt(s.steps, units[i].to) == Response
      ensures units[i].reason == PromptBoundary ==>
                KindAt(s.steps, units[i].from) == Prompt && KindAt(s.steps, units[i].to + 1) == Prompt
      ensures s.start.Some? ==> units[i].to < s.start.value
    {
      CutReason(s.steps, s.finalizedThrough, units, i);
      if s.start.Some? {
        UnitEndsBefore(s, units[i]);
      }
    }
  }

  lemma UnitEndsBefore(s: Session, u: Unit)
    requires s.start.Some? && AttemptShape(s)
    requires exists before :: before >= s.finalizedThrough && GoodUnit(s.steps, before, u)
    ensures u.to < s.start.value
  {
    var before :| before >= s.finalizedThrough && GoodUnit(s.steps, before, u);
    var start, prompt := s.start.value, PromptOf(s);
    if u.to >= start {
      assert u.reason == PromptBoundary && KindAt(s.steps, u.to + 1) == Prompt;
      assert u.to + 1 == prompt && u.to == start;
      assert KindAt(s.steps, u.from) == Prompt;
      assert StrayAt(s.steps, s.finalizedThrough, start, u.from);
      assert false;
    }
  }

  lemma {:induction false} CutReason(steps: seq<Kind>, after: nat, units: seq<Unit>, i: nat)
    requires Cut(steps, after, units) && i < |units|
    ensures exists before :: before >= after && GoodUnit(steps, before, units[i])
    decreases i
  {
    if i > 0 {
      CutReason(steps, units[0].to, units[1..], i - 1);
    }
  }

  /**
   * What a restart finds to close: nothing the live machine has emitted, nothing of the attempt under way. Unless a
   * decision reads like a prompt, it is only responses that came while no attempt was open.
   */
  lemma RestartClosesOnlyStrays(s: Session)
    requires Shape(s)
    ensures var units := ClosedUnits(s.steps, s.finalizedThrough);
            && (forall i :: 0 <= i < |units| ==>
                  && s.finalizedThrough < units[i].from <= units[i].to
                  && (s.start.Some? ==> units[i].to < s.start.value)
                  && (if units[i].reason == Stop then KindAt(s.steps, units[i].to) == Response
                      else KindAt(s.steps, units[i].from) == Prompt))
            && ((forall n :: n > s.finalizedThrough && (s.start.Some? ==> n < s.start.value) ==>
                  KindAt(s.steps, n) != Prompt) ==>
                  && (forall i :: 0 <= i < |units| ==> units[i].reason == Stop)
                  && (s.start.None? && s.completed == 0 ==> units == []))
  {
    ClosedUnitsPromises(s.steps, s.finalizedThrough);
    RestartClosesBefore(s);
    var units := ClosedUnits(s.steps, s.finalizedThrough);
    if units != [] {
      assert units[0].reason == Stop ==> KindAt(s.steps, units[0].to) == Response;
    }
  }

  /** A journal that ends before the finalised point has nothing for the scan. */
  lemma NothingBeyond(steps: seq<Kind>, after: nat)
    requires after >= |steps|
    ensures ClosedUnits(steps, after) == []
  {
  }

  /** Advancing the finalised point, short of the attempt under way, and the count of attempts. */
  lemma ShapeLater(s: Session, t: Session)
    requires Shape(s) && t == s.(completed := t.completed, finalizedThrough := t.finalizedThrough)
    requires s.finalizedThrough <= t.finalizedThrough <= |s.steps| && s.completed <= t.completed
    requires t.completed == 0 ==> t.finalizedThrough == 0
    requires s.start.Some? ==> t.finalizedThrough < s.start.value
    ensures Shape(t)
  {
    if s.start.Some? {
      forall n: nat | StrayAt(t.steps, t.finalizedThrough, t.start.value, n)
        ensures StrayAt(s.steps, s.finalizedThrough, t.start.value, n)
      {
      }
    }
  }

  lemma ReadBackKeepsShape(s: Session)
    requires Shape(s) && s.finalizedThrough <= s.stored
    ensures Shape(ReadBack(s))
    ensures s.start.Some? ==> ReadBack(s) == s
    ensures forall n: nat :: KindAt(ReadBack(s).steps, n) == if n <= s.stored then KindAt(s.steps, n) else Other
  {
    assert s.start.Some? ==> s.steps[..s.stored] == s.steps;
    assert forall n: nat :: KindAt(ReadBack(s).steps, n) == if n <= s.stored then KindAt(s.steps, n) else Other;
  }

  lemma {:induction false} BackfillAt(s: Session, units: seq<Unit>, evidence: seq<Evidence>, at: nat)
    requires at <= |units|
    ensures var all := Backfill(s, units, evidence, at).1;
            && |all| == |units| - at
            && forall i :: 0 <= i < |all| ==>
                 all[i].unit == s.completed + 1 + i && all[i].from == units[at + i].from &&
                     all[i].to == units[at + i].to
    decreases |units| - at
  {
    if at < |units| {
      BackfillAt(Closed(s, units[at]), units, evidence, at + 1);
    }
  }

  /** What one stretch of a restart emits continues what was emitted before it. */
  lemma PartContinues(s: Session, units: seq<Unit>, all: seq<Emission>, n: nat, m: nat)
    requires n <= m <= |units| == |all|
    requires forall i :: 0 <= i < |units| ==> s.finalizedThrough < units[i].from <= units[i].to
    requires forall i, j :: 0 <= i < j < |units| ==> units[i].to < units[j].from
    requires forall i :: 0 <= i < |all| ==>
               all[i].unit == s.completed + 1 + i && all[i].from == units[i].from && all[i].to == units[i].to
    ensures Continues(Partly(s, units, n), all[n..m], Partly(s, units, m))
  {
    var part := all[n..m];
    assert forall i :: 0 <= i < |part| ==> part[i] == all[n + i];
  }

  lemma FoundFacts(s: Session)
    requires Shape(s) && s.finalizedThrough <= s.stored
    ensures var units := Found(s);
            && (forall i :: 0 <= i < |units| ==> s.finalizedThrough < units[i].from <= units[i].to <= s.stored)
            && (forall i, j :: 0 <= i < j < |units| ==> units[i].to < units[j].from)
            && (s.start.Some? ==> forall i :: 0 <= i < |units| ==> units[i].to < s.start.value)
  {
    var read := ReadBack(s);
    ReadBackKeepsShape(s);
    ClosedUnitsPromises(read.steps, read.finalizedThrough);
    RestartClosesBefore(read);
  }

  lemma PartlyKeepsShape(s: Session, m: nat)
    requires Shape(s) && s.finalizedThrough <= s.stored && m <= |Found(s)|
    ensures Shape(Partly(ReadBack(s), Found(s), m))
  {
    FoundFacts(s);
    ReadBackKeepsShape(s);
    ShapeLater(ReadBack(s), Partly(ReadBack(s), Found(s), m));
  }

  lemma RestartEnds(s: Session, evidence: seq<Evidence>)
    requires Shape(s) && s.finalizedThrough <= s.stored
    ensures Restarted(s, evidence).0 == Partly(ReadBack(s), Found(s), |Found(s)|)
  {
    FoundFacts(s);
    BackfillContinues(ReadBack(s), Found(s), evidence, 0);
  }

  /** A restart from what was found, in stretches. */
  lemma RestartParts(s: Session, evidence: seq<Evidence>, n: nat, m: nat)
    requires Shape(s) && s.finalizedThrough <= s.stored && n <= m <= |Found(s)|
    ensures var all := Restarted(s, evidence).1;
            && |all| == |Found(s)|
            && Continues(Partly(ReadBack(s), Found(s), n), all[n..m], Partly(ReadBack(s), Found(s), m))
    ensures Shape(Partly(ReadBack(s), Found(s), m))
    ensures Restarted(s, evidence).0 == Partly(ReadBack(s), Found(s), |Found(s)|)
  {
    FoundFacts(s);
    BackfillAt(ReadBack(s), Found(s), evidence, 0);
    PartContinues(ReadBack(s), Found(s), Restarted(s, evidence).1, n, m);
    RestartEnds(s, evidence);
    PartlyKeepsShape(s, m);
  }

  lemma RestartKeepsShape(s: Session, evidence: seq<Evidence>)
    requires Shape(s) && s.finalizedThrough <= s.stored
    ensures var (t, emitted) := Restarted(s, evidence);
            && Shape(t) && Continues(s, emitted, t) && t.steps == s.steps[..s.stored] && t.start == s.start
            && t.finalizedThrough == LastEnd(Found(s), s.finalizedThrough)
  {
    RestartParts(s, evidence, 0, |Found(s)|);
    var all := Restarted(s, evidence).1;
    assert all[0..|Found(s)|] == all;
  }

  /** Recording steps that are neither prompts nor responses, whatever else is set aside. */
  lemma QuietKeepsShape(s: Session, t: Session, count: nat)
    requires Shape(s) && t.steps == s.steps + Others(count) && t.stored == |t.steps|
    requires t.start == s.start && t.completed == s.completed && t.finalizedThrough == s.finalizedThrough
    ensures Shape(t) && Continues(s, [], t)
  {
    assert forall n: nat :: KindAt(t.steps, n) == KindAt(s.steps, n);
    if s.start.Some? {
      forall n: nat | StrayAt(t.steps, t.finalizedThrough, t.start.value, n)
        ensures StrayAt(s.steps, s.finalizedThrough, s.start.value, n)
      {
      }
    }
  }

  /** The decision is recorded as a step that reads like a prompt. */
  predicate RecordsPrompt(s: Session, e: Event) {
    e.Decision? && e.authorised && e.summary && e.looksLikePrompt && Normalized(s, e, 0).Some?
  }

  lemma DecisionKeepsShape(s: Session, e: Event, at: nat)
    requires Shape(s) && e.Decision? && (RecordsPrompt(s, e) ==> s.start.None?)
    ensures var (t, emitted) := Applied(s, e, at);
            Shape(t) && Continues(s, emitted, t)
  {
    var t := Applied(s, e, at).0;
    assert Others(1) == [Other] && Others(0) == [];
    if !RecordsPrompt(s, e) {
      QuietKeepsShape(s, t, if |t.steps| == |s.steps| then 0 else 1);
    } else {
      assert t.steps == s.steps + [Prompt];
      assert forall n: nat :: KindAt(t.steps, n) == if n == |t.steps| then Prompt else KindAt(s.steps, n);
    }
  }

  lemma HookKeepsShape(s: Session, e: Event, at: nat)
    requires Shape(s) && (e.Note? || e.PreTool? || e.PostTool? || e.FileChanged?)
    ensures var (t, emitted) := Applied(s, e, at);
            Shape(t) && Continues(s, emitted, t)
  {
    var t := Applied(s, e, at).0;
    assert Others(1) == [Other] && Others(0) == [];
    match e
    case Note(count) => QuietKeepsShape(s, t, count);
    case PreTool(_, _) => QuietKeepsShape(s, t, 1);
    case PostTool(_, _, _, checked) => QuietKeepsShape(s, t, if checked then 2 else 1);
    case FileChanged => QuietKeepsShape(s, t, 0);
  }

  lemma EndKeepsShape(s: Session, e: Event, at: nat)
    requires Shape(s) && (e.End? || e.Orphan?)
    ensures var (t, emitted) := Applied(s, e, at);
            && Shape(t) && Continues(s, emitted, t)
            && (emitted == [] <==> s.finalized || AttemptStart(s).None?)
            && (emitted != [] ==> t.start.None? && t.completed == s.completed + 1 && t.finalizedThrough == |t.steps|)
            && |t.steps| == |s.steps| + (if e.Orphan? && s.finalized then 0 else e.extra)
            && t.finalized
  {
    var cleared := if e.End? then s else WithoutVerifiedOutcome(s).(finalized := true);
    var t := Recorded(cleared, Others(e.extra));
    QuietKeepsShape(s, t.(stored := |t.steps|), e.extra);
    if !s.finalized {
      EmittedKeepsShape(t, e.head);
    }
  }

  // ---- Runs ----

  /** The disk has what memory has, but for the effect of one orphan timeout. */
  ghost predicate Ahead(d: Daemon) {
    d.memory == d.disk || exists extra, head :: d.memory == Applied(d.disk, Orphan(extra, head), 0).0
  }

  /** A restart has died with some of what it found closed in memory. */
  ghost predicate Halfway(d: Daemon)
    requires d.half.Some?
  {
    && d.disk.finalizedThrough <= d.disk.stored
    && d.half.value <= |Found(d.disk)|
    && d.memory == Partly(ReadBack(d.disk), Found(d.disk), d.half.value)
  }

  ghost predicate Inv(d: Daemon) {
    && Shape(d.memory)
    && Shape(d.disk)
    && Continues(FRESH, d.emitted, d.memory)
    && (if d.half.None? then Ahead(d) else Halfway(d))
  }

  /** What an unsaved orphan timeout has done to the session in memory, if it has done anything. */
  lemma AheadFacts(d: Daemon)
    requires Inv(d) && d.half.None?
    ensures d.disk.completed <= d.memory.completed && d.disk.finalizedThrough <= d.memory.finalizedThrough
    ensures d.memory != d.disk ==> d.memory.finalized
    ensures d.memory.completed == d.disk.completed ==> d.memory.finalizedThrough == d.disk.finalizedThrough
    ensures d.memory.completed > d.disk.completed ==>
              AttemptStart(d.disk).Some? && d.memory.finalizedThrough >= |d.disk.steps| &&
                  d.disk.finalizedThrough < |d.disk.steps|
  {
    if d.memory != d.disk {
      var extra, head :| d.memory == Applied(d.disk, Orphan(extra, head), 0).0;
      EndKeepsShape(d.disk, Orphan(extra, head), 0);
    }
  }

  /**
   * The occurrences that endanger nothing: a restart finds every emission saved and every finalised step in the
   * journal, no decision that reads like a prompt is recorded into an attempt, no prompt with a usage report follows
   * such a decision while it is open to the scan, and no orphan timeout fails after emitting. Repeating a restart that
   * died endangers nothing more.
   */
  ghost predicate Regular(d: Daemon, o: Occurrence) {
    d.half.Some? ||
    match o
    case Done(e) =>
      && (e.Restart? ==> FindsAll(d))
      && (RecordsPrompt(d.memory, e) ==> d.memory.start.None?)
      && (e.Submit? && e.runtime && d.memory.start.None? ==>
            !StrayPrompt(d.memory.steps, d.memory.finalizedThrough, |d.memory.steps| + 1))
    case Unsaved(_, _) => true
    case Thrown(_, _) => d.memory.finalized || AttemptStart(d.memory).None?
    case Interrupted(_, _) => FindsAll(d)
  }

  predicate FindsAll(d: Daemon) {
    d.disk.completed == d.memory.completed && d.disk.finalizedThrough <= d.disk.stored
  }

  ghost predicate RegularRun(d: Daemon, os: seq<Occurrence>)
    decreases |os|
  {
    os == [] || (Regular(d, os[0]) && RegularRun(Next(d, os[0]), os[1..]))
  }

  lemma AppliedKeepsShape(s: Session, e: Event, at: nat)
    requires Shape(s) && !e.Restart? && (RecordsPrompt(s, e) ==> s.start.None?)
    requires e.Submit? && e.runtime && s.start.None? ==> !StrayPrompt(s.steps, s.finalizedThrough, |s.steps| + 1)
    ensures var (t, emitted) := Applied(s, e, at);
            Shape(t) && Continues(s, emitted, t)
  {
    match e
    case Submit(_, _, _) => SubmitKeepsShape(s, e, at);
    case Finish(_, _, _) => FinishKeepsShape(s, e, at);
    case End(_, _) => EndKeepsShape(s, e, at);
    case Orphan(_, _) => EndKeepsShape(s, e, at);
    case Decision(_, _, _, _, _) => DecisionKeepsShape(s, e, at);
    case _ => HookKeepsShape(s, e, at);
  }

  lemma UnsavedKeepsInv(d: Daemon, extra: nat, head: Option<Revision>)
    requires Inv(d) && d.half.None?
    ensures Inv(Next(d, Unsaved(extra, head)))
  {
    var e := Orphan(extra, head);
    EndKeepsShape(d.memory, e, |d.past|);
    AheadFacts(d);
    var t := Applied(d.memory, e, |d.past|);
    ContinuesOn(FRESH, d.emitted, d.memory, t.1, t.0);
    if d.memory == d.disk {
      assert t.0 == Applied(d.disk, e, 0).0;
    }
  }

  lemma RestartKeepsInv(d: Daemon, o: Occurrence)
    requires Inv(d) && Regular(d, o) && EventOf(o).Restart?
    ensures Inv(Next(d, o))
  {
    var evidence := EventOf(o).evidence;
    var n, m := Already(d), Reaches(d, o, |Found(d.disk)|);
    if d.half.None? {
      AheadFacts(d);
    }
    RestartParts(d.disk, evidence, n, m);
    var all := Restarted(d.disk, evidence).1;
    assert Emits(d, o) == all[n..m];
    ContinuesOn(FRESH, d.emitted, Partly(ReadBack(d.disk), Found(d.disk), n), all[n..m], Next(d, o).memory);
  }

  lemma DoneKeepsInv(d: Daemon, e: Event)
    requires Inv(d) && d.half.None? && Regular(d, Done(e)) && !e.Restart?
    ensures Inv(Next(d, Done(e)))
  {
    var t := Applied(d.memory, e, |d.past|);
    AppliedKeepsShape(d.memory, e, |d.past|);
    ContinuesOn(FRESH, d.emitted, d.memory, t.1, t.0);
  }

  lemma NextKeepsInv(d: Daemon, o: Occurrence)
    requires Inv(d) && Regular(d, o)
    ensures Inv(Next(d, o))
  {
    if EventOf(o).Restart? {
      RestartKeepsInv(d, o);
    } else if d.half.None? {
      match o
      case Done(e) => DoneKeepsInv(d, e);
      case Unsaved(extra, head) => UnsavedKeepsInv(d, extra, head);
      case Thrown(extra, head) =>
        EndKeepsShape(d.memory, Orphan(extra, head), |d.past|);
        assert d.emitted + [] == d.emitted;
    }
  }

  lemma {:induction false} FollowKeepsInv(d: Daemon, os: seq<Occurrence>)
    requires Inv(d) && RegularRun(d, os)
    ensures Inv(Follow(d, os))
    decreases |os|
  {
    if os != [] {
      NextKeepsInv(d, os[0]);
      FollowKeepsInv(Next(d, os[0]), os[1..]);
    }
  }

  lemma StartInv()
    ensures Inv(START)
  {
  }

  /** Attempts cover non-empty ranges of steps, one after another, and are numbered 1, 2, 3 and so on. */
  ghost predicate Promise(emitted: seq<Emission>) {
    && (forall i :: 0 <= i < |emitted| ==> 1 <= emitted[i].from <= emitted[i].to && emitted[i].unit == i + 1)
    && (forall i, j :: 0 <= i < j < |emitted| ==> emitted[i].to < emitted[j].from)
  }

  /** Over every regular run of hooks, orphan timeouts, cut off or not, and restarts. */
  lemma AttemptsAreDisjoint(os: seq<Occurrence>)
    requires RegularRun(START, os)
    ensures var d := Follow(START, os);
            && Promise(d.emitted)
            && d.memory.completed == |d.emitted|
            && d.memory.finalizedThrough == LastTo(d.emitted, 0) <= |d.memory.steps|
  {
    StartInv();
    FollowKeepsInv(START, os);
  }

  // ---- Exactly when the promise is safe ----

  ghost predicate Safe(d: Daemon) {
    forall more :: RegularRun(d, more) ==> Promise(Follow(d, more).emitted)
  }

  lemma InvIsSafe(d: Daemon)
    requires Inv(d)
    ensures Safe(d)
  {
    forall more | RegularRun(d, more) ensures Promise(Follow(d, more).emitted) {
      FollowKeepsInv(d, more);
    }
  }

  lemma TwoSteps(d: Daemon, a: Occurrence, b: Occurrence)
    ensures Follow(d, [a, b]) == Next(Next(d, a), b)
    ensures RegularRun(d, [a, b]) <==> Regular(d, a) && Regular(Next(d, a), b)
  {
    var t := Next(d, a);
    assert [a, b][1..] == [b] && [b][1..] == [];
    assert Follow(t, [b]) == Next(t, b);
    assert RegularRun(t, [b]) <==> Regular(t, b);
  }

  lemma PromptOpens(s: Session, at: nat)
    requires s.start.Some? ==> s.start.value <= |s.steps|
    ensures var (t, emitted) := Applied(s, Submit(None, false, None), at);
            && t.start.Some? && |s.steps| + 1 == t.start.value == |t.steps|
            && t.completed == s.completed + |emitted|
            && (emitted != [] ==> emitted[0].unit == s.completed + 1)
            && (s.start.None? ==> emitted == [])
            && t.steps == s.steps + [Prompt]
  {
    assert [] + [Prompt] == [Prompt];
  }

  /** A response closes the attempt under way and nothing less. */
  lemma ResponseCloses(s: Session, e: Event, at: nat)
    requires e.Finish? && s.start.Some? && s.start.value <= |s.steps|
    ensures var emitted := Applied(s, e, at).1;
            && |emitted| == 1 && emitted[0].unit == s.completed + 1
            && emitted[0].from == s.start.value && emitted[0].to > |s.steps|
  {
  }

  /** Once more, or fewer, attempts are emitted than are counted, some later one has the wrong number. */
  lemma MiscountIsUnsafe(d: Daemon)
    requires d.half.None? && d.memory.completed != |d.emitted|
    requires d.memory.start.Some? ==> d.memory.start.value <= |d.memory.steps|
    ensures !Safe(d)
  {
    var a, b := Done(Submit(None, false, None)), Done(Finish(false, 0, None));
    PromptOpens(d.memory, |d.past|);
    var t := Next(d, a);
    ResponseCloses(t.memory, b.event, |t.past|);
    TwoSteps(d, a, b);
    var all := Follow(d, [a, b]).emitted;
    assert all == d.emitted + Emits(d, a) + Emits(t, b);
    assert all[|d.emitted|].unit == d.memory.completed + 1;
    assert RegularRun(d, [a, b]);
  }

  /** An attempt that starts within what was emitted before breaks the promise as well. */
  lemma OverlapBreaks(d: Daemon, o: Occurrence)
    requires d.half.None? && d.emitted != [] && Emits(d, o) != []
    requires Emits(d, o)[0].from <= d.emitted[|d.emitted| - 1].to
    ensures !Promise(Next(d, o).emitted)
  {
    var all, n := Next(d, o).emitted, |d.emitted|;
    assert all[n - 1] == d.emitted[n - 1] && all[n] == Emits(d, o)[0];
  }

  lemma ShortJournalIsUnsafe(d: Daemon)
    requires d.half.None? && d.memory.start.None? &&
             |d.memory.steps| < d.memory.finalizedThrough == LastTo(d.emitted, 0)
    ensures !Safe(d)
  {
    var a, b := Done(Submit(None, false, None)), Done(Finish(false, 0, None));
    PromptOpens(d.memory, |d.past|);
    var t := Next(d, a);
    assert t.emitted == d.emitted;
    ResponseCloses(t.memory, b.event, |t.past|);
    OverlapBreaks(t, b);
    TwoSteps(d, a, b);
    assert RegularRun(d, [a, b]);
  }

  /** Between an open prompt and one that is the last step, the scan closes all but that last step. */
  lemma LastPromptCloses(steps: seq<Kind>, after: nat, p: nat)
    requires after < p < |steps| && KindAt(steps, p) == Prompt && KindAt(steps, |steps|) == Prompt
    requires forall n :: n > p ==> KindAt(steps, n) != Response
    ensures ClosedUnits(steps, after) != [] && LastEnd(ClosedUnits(steps, after), after) == |steps| - 1
  {
    var units := ClosedUnits(steps, after);
    ScanCuts(steps, after, None, after);
    CutTail(steps, after, units);
    var last := LastEnd(units, after);
    assert last >= p;
    CutReason(steps, after, units, |units| - 1);
    var before :| before >= after && GoodUnit(steps, before, units[|units| - 1]);
    assert KindAt(steps, last) != Response;
    assert KindAt(steps, last + 1) == Prompt;
  }

  /** A restart closes what is under way if a prompt that opened nothing follows it. */
  lemma RestartReopens(s: Session, p: nat, evidence: seq<Evidence>)
    requires s.stored == |s.steps| && s.finalizedThrough < p < |s.steps|
    requires KindAt(s.steps, p) == Prompt && KindAt(s.steps, |s.steps|) == Prompt
    requires forall n :: n > p ==> KindAt(s.steps, n) != Response
    ensures var (t, emitted) := Restarted(s, evidence);
            && emitted != [] && emitted[|emitted| - 1].to == |s.steps| - 1
            && t.start == s.start && t.steps == s.steps
  {
    assert s.steps[..s.stored] == s.steps && ReadBack(s) == s;
    var units := ClosedUnits(s.steps, s.finalizedThrough);
    ClosedUnitsPromises(s.steps, s.finalizedThrough);
    LastPromptCloses(s.steps, s.finalizedThrough, p);
    BackfillContinues(s, units, evidence, 0);
    assert Restarted(s, evidence) == Backfill(s, units, evidence, 0);
  }

  lemma ReopenedOverlaps(d: Daemon, p: nat, evidence: seq<Evidence>, finish: Event)
    requires d.half.None? && d.disk == d.memory && d.memory.stored == |d.memory.steps|
    requires d.memory.start.Some? && finish.Finish?
    requires d.memory.start.value < |d.memory.steps| && d.memory.finalizedThrough < p < |d.memory.steps|
    requires KindAt(d.memory.steps, p) == Prompt && KindAt(d.memory.steps, |d.memory.steps|) == Prompt
    requires forall n :: n > p ==> KindAt(d.memory.steps, n) != Response
    ensures RegularRun(d, [Done(Restart(evidence)), Done(finish)])
    ensures !Promise(Follow(d, [Done(Restart(evidence)), Done(finish)]).emitted)
  {
    var a, b := Done(Restart(evidence)), Done(finish);
    RestartReopens(d.memory, p, evidence);
    var t := Next(d, a);
    ResponseCloses(t.memory, b.event, |t.past|);
    assert t.emitted[|t.emitted| - 1].to == |d.memory.steps| - 1;
    OverlapBreaks(t, b);
    TwoSteps(d, a, b);
  }

  lemma LookalikeOverlaps(d: Daemon, e: Event, evidence: seq<Evidence>, finish: Event)
    requires Inv(d) && d.half.None? && RecordsPrompt(d.memory, e) && d.memory.start.Some? && finish.Finish?
    ensures RegularRun(Next(d, Done(e)), [Done(Restart(evidence)), Done(finish)])
    ensures !Promise(Follow(Next(d, Done(e)), [Done(Restart(evidence)), Done(finish)]).emitted)
  {
    var s, t := d.memory, Next(d, Done(e));
    assert t.memory.steps == s.steps + [Prompt];
    assert forall n: nat :: KindAt(t.memory.steps, n) == if n == |t.memory.steps| then Prompt else KindAt(s.steps, n);
    ReopenedOverlaps(t, PromptOf(s), evidence, finish);
  }

  lemma PromptAfterStrayIsUnsafe(d: Daemon, e: Event)
    requires Inv(d) && d.half.None? && e.Submit? && e.runtime && d.memory.start.None?
    requires StrayPrompt(d.memory.steps, d.memory.finalizedThrough, |d.memory.steps| + 1)
    ensures !Safe(Next(d, Done(e)))
  {
    var s, t := d.memory, Next(d, Done(e));
    var end := |s.steps| + 1;
    var p :| StrayAt(s.steps, s.finalizedThrough, end, p);
    assert [Other] + [Prompt] == [Other, Prompt];
    assert t.memory.steps == s.steps + [Other, Prompt];
    assert forall n: nat :: KindAt(t.memory.steps, n) == if n == end + 1 then Prompt else KindAt(s.steps, n);
    ReopenedOverlaps(t, p, [], Finish(false, 0, None));
  }

  /** A restart that has lost an emission, or finalised steps, leaves a state that is not safe. */
  lemma RestartedIsUnsafe(d: Daemon, t: Daemon, evidence: seq<Evidence>)
    requires Inv(d) && d.half.None? && !FindsAll(d)
    requires t.half.None? && t.memory == Restarted(d.disk, evidence).0
    requires |t.emitted| == |d.emitted| + |Restarted(d.disk, evidence).1|
    requires Restarted(d.disk, evidence).1 == [] ==> t.emitted == d.emitted
    ensures !Safe(t)
  {
    AheadFacts(d);
    var s := d.disk;
    if s.finalizedThrough <= s.stored {
      RestartKeepsShape(s, evidence);
      MiscountIsUnsafe(t);
    } else {
      NothingBeyond(s.steps[..s.stored], s.finalizedThrough);
      if s.completed < d.memory.completed {
        MiscountIsUnsafe(t);
      } else {
        ShortJournalIsUnsafe(t);
      }
    }
  }

  lemma SafeGoesOn(d: Daemon, o: Occurrence)
    requires Safe(d) && Regular(d, o)
    ensures Safe(Next(d, o))
  {
    var t := Next(d, o);
    forall more | RegularRun(t, more) ensures Promise(Follow(t, more).emitted) {
      var all := [o] + more;
      assert all[0] == o && all[1..] == more;
      assert RegularRun(d, all) && Follow(d, all) == Follow(t, more);
    }
  }

  lemma RestartIsUnsafe(d: Daemon, o: Occurrence)
    requires Inv(d) && EventOf(o).Restart? && !Regular(d, o)
    ensures !Safe(Next(d, o))
  {
    var evidence, t := EventOf(o).evidence, Next(d, o);
    var all := Restarted(d.disk, evidence).1;
    if o.Done? {
      assert Emits(d, o) == all;
      RestartedIsUnsafe(d, t, evidence);
    } else {
      var again := Done(Restart(evidence));
      var n := Reaches(d, o, |all|);
      assert Emits(d, o) == all[..n] && Emits(t, again) == all[n..];
      RestartedIsUnsafe(d, Next(t, again), evidence);
      if Safe(t) {
        SafeGoesOn(t, again);
      }
    }
  }

  /**
   * After every regular run, an occurrence is safe exactly if it is regular: then, and only then, does every regular
   * continuation keep ranges disjoint and numbers consecutive.
   */
  lemma SafeIffRegular(os: seq<Occurrence>, o: Occurrence)
    requires RegularRun(START, os)
    ensures var d := Follow(START, os); Regular(d, o) <==> Safe(Next(d, o))
  {
    StartInv();
    FollowKeepsInv(START, os);
    var d := Follow(START, os);
    if Regular(d, o) {
      NextKeepsInv(d, o);
      InvIsSafe(Next(d, o));
    } else {
      IrregularIsUnsafe(d, o);
    }
  }

  lemma IrregularIsUnsafe(d: Daemon, o: Occurrence)
    requires Inv(d) && !Regular(d, o)
    ensures !Safe(Next(d, o))
  {
    match o
    case Done(e) =>
      if e.Restart? {
        RestartIsUnsafe(d, o);
      } else if e.Submit? {
        PromptAfterStrayIsUnsafe(d, e);
      } else {
        LookalikeOverlaps(d, e, [], Finish(false, 0, None));
      }
    case Unsaved(_, _) =>
    case Thrown(extra, head) =>
      EndKeepsShape(d.memory, EventOf(o), |d.past|);
      MiscountIsUnsafe(Next(d, o));
    case Interrupted(_, _) =>
      RestartIsUnsafe(d, o);
  }

  ghost predicate SafeThroughout(d: Daemon, os: seq<Occurrence>) {
    forall k :: 0 <= k <= |os| ==> Safe(Follow(d, os[..k]))
  }

  lemma SafeThroughoutNext(d: Daemon, os: seq<Occurrence>)
    requires os != []
    ensures SafeThroughout(d, os) <==> Safe(d) && SafeThroughout(Next(d, os[0]), os[1..])
  {
    var t, rest := Next(d, os[0]), os[1..];
    assert os[..0] == [];
    forall k | 0 <= k <= |rest| ensures Follow(d, os[..k + 1]) == Follow(t, rest[..k]) {
      assert os[..k + 1][0] == os[0] && os[..k + 1][1..] == rest[..k];
    }
    if Safe(d) && SafeThroughout(t, rest) {
      forall k | 0 <= k <= |os| ensures Safe(Follow(d, os[..k])) {
        if k > 0 {
          assert Follow(d, os[..k - 1 + 1]) == Follow(t, rest[..k - 1]);
        }
      }
    }
    if SafeThroughout(d, os) {
      assert Safe(Follow(d, os[..0]));
      forall k | 0 <= k <= |rest| ensures Safe(Follow(t, rest[..k])) {
        assert Follow(d, os[..k + 1]) == Follow(t, rest[..k]);
      }
    }
  }

  lemma {:induction false} SafeThroughoutIff(d: Daemon, os: seq<Occurrence>)
    requires Inv(d)
    ensures RegularRun(d, os) <==> SafeThroughout(d, os)
    decreases |os|
  {
    InvIsSafe(d);
    if os == [] {
      assert os[..0] == [];
    } else {
      SafeThroughoutNext(d, os);
      var t := Next(d, os[0]);
      if Regular(d, os[0]) {
        NextKeepsInv(d, os[0]);
        SafeThroughoutIff(t, os[1..]);
      } else {
        var rest := os[1..];
        assert rest[..0] == [];
        assert SafeThroughout(t, rest) ==> Safe(Follow(t, rest[..0]));
        IrregularIsUnsafe(d, os[0]);
      }
    }
  }

  /** Of whole runs: the promise stays safe from beginning to end exactly if the run is regular. */
  lemma RunIsSafeIffRegular(os: seq<Occurrence>)
    ensures RegularRun(START, os) <==> SafeThroughout(START, os)
  {
    StartInv();
    SafeThroughoutIff(START, os);
  }

  /** The finalised point moves back exactly at a restart, cut off or not, that has lost an emission. */
  lemma FinalizedPointMovesBackIff(os: seq<Occurrence>, o: Occurrence)
    requires RegularRun(START, os)
    ensures var d := Follow(START, os);
            Next(d, o).memory.finalizedThrough < d.memory.finalizedThrough <==>
            EventOf(o).Restart? && d.half.None? && d.disk.completed < d.memory.completed
  {
    StartInv();
    FollowKeepsInv(START, os);
    var d := Follow(START, os);
    if EventOf(o).Restart? {
      RestartMovesBackIff(d, o);
    } else if d.half.None? && Regular(d, o) {
      RegularMovesOn(d, o);
    } else if d.half.None? {
      IrregularStays(d, o);
    }
  }

  lemma IrregularStays(d: Daemon, o: Occurrence)
    requires !Regular(d, o) && !EventOf(o).Restart?
    ensures Next(d, o).memory.finalizedThrough == d.memory.finalizedThrough
  {
    if o.Done? {
      assert (o.event.Submit? && d.memory.start.None?) || o.event.Decision?;
    }
  }

  lemma PartlyMonotone(s: Session, n: nat, m: nat)
    requires Shape(s) && s.finalizedThrough <= s.stored && n <= m <= |Found(s)|
    ensures s.finalizedThrough <= Partly(ReadBack(s), Found(s), n).finalizedThrough
    ensures Partly(ReadBack(s), Found(s), n).finalizedThrough <= Partly(ReadBack(s), Found(s), m).finalizedThrough
    ensures Partly(ReadBack(s), Found(s), m).finalizedThrough <= Restarted(s, []).0.finalizedThrough
  {
    var read, units := ReadBack(s), Found(s);
    ReadBackKeepsShape(s);
    ClosedUnitsPromises(read.steps, read.finalizedThrough);
    RestartParts(s, [], n, m);
    assert forall i, j :: 0 <= i < j < |units| ==> units[i].to < units[j].to;
  }

  /** Where a restart, cut off or not, gets to. */
  lemma RestartMemory(d: Daemon, o: Occurrence)
    requires EventOf(o).Restart? && Shape(d.disk) && d.disk.finalizedThrough <= d.disk.stored
    ensures var m := Reaches(d, o, |Found(d.disk)|);
            Next(d, o).memory == Partly(ReadBack(d.disk), Found(d.disk), m)
  {
    BackfillAt(ReadBack(d.disk), Found(d.disk), EventOf(o).evidence, 0);
    RestartEnds(d.disk, EventOf(o).evidence);
  }

  lemma ShortRestart(d: Daemon, o: Occurrence)
    requires EventOf(o).Restart? && d.disk.stored < d.disk.finalizedThrough && d.disk.stored <= |d.disk.steps|
    ensures Next(d, o).memory.finalizedThrough == d.disk.finalizedThrough
  {
    NothingBeyond(ReadBack(d.disk).steps, d.disk.finalizedThrough);
  }

  lemma RestartMovesBackIff(d: Daemon, o: Occurrence)
    requires Inv(d) && EventOf(o).Restart?
    ensures Next(d, o).memory.finalizedThrough < d.memory.finalizedThrough <==>
            d.half.None? && d.disk.completed < d.memory.completed
  {
    var s := d.disk;
    if d.half.None? {
      AheadFacts(d);
    }
    if s.finalizedThrough > s.stored {
      ShortRestart(d, o);
    } else {
      RestartMemory(d, o);
      PartlyMonotone(s, Already(d), Reaches(d, o, |Found(s)|));
      if d.half.None? && s.completed < d.memory.completed {
        RestartStaysBehind(s, []);
      }
    }
  }

  lemma RegularMovesOn(d: Daemon, o: Occurrence)
    requires Inv(d) && d.half.None? && Regular(d, o) && !EventOf(o).Restart?
    ensures d.memory.finalizedThrough <= Next(d, o).memory.finalizedThrough
  {
    var t := Applied(d.memory, EventOf(o), |d.past|);
    if o.Done? {
      AppliedKeepsShape(d.memory, EventOf(o), |d.past|);
    } else {
      EndKeepsShape(d.memory, EventOf(o), |d.past|);
    }
    ContinuesMonotone(d.memory, t.1, t.0);
  }

  /** With an attempt under way, a restart does not get to the end of the steps. */
  lemma RestartStaysBehind(s: Session, evidence: seq<Evidence>)
    requires Shape(s) && s.finalizedThrough <= s.stored && AttemptStart(s).Some? && s.finalizedThrough < |s.steps|
    ensures Restarted(s, evidence).0.finalizedThrough < |s.steps|
  {
    RestartKeepsShape(s, evidence);
    var read := ReadBack(s);
    ReadBackKeepsShape(s);
    var units := ClosedUnits(read.steps, read.finalizedThrough);
    RestartClosesBefore(read);
    if units != [] {
      var u := units[|units| - 1];
      assert u.reason == Stop ==> KindAt(read.steps, u.to) == Response;
      assert u.reason == PromptBoundary ==> KindAt(read.steps, u.to + 1) == Prompt;
    }
  }

  // ---- What happens otherwise ----

  /**
   * In every state that a regular run reaches: after a decision that reads like a prompt, a restart and a response,
   * attempts overlap exactly if one was open when the decision was recorded.
   */
  lemma LookalikeOverlapsIff(os: seq<Occurrence>, e: Event, evidence: seq<Evidence>, finish: Event)
    requires RegularRun(START, os) && RecordsPrompt(Follow(START, os).memory, e) && finish.Finish?
    requires Follow(START, os).half.None?
    ensures var d := Follow(START, os);
            !Promise(Follow(Next(d, Done(e)), [Done(Restart(evidence)), Done(finish)]).emitted) <==>
                d.memory.start.Some?
  {
    StartInv();
    FollowKeepsInv(START, os);
    var d := Follow(START, os);
    if d.memory.start.Some? {
      LookalikeOverlaps(d, e, evidence, finish);
    } else {
      NextKeepsInv(d, Done(e));
      RestartAndFinish(Next(d, Done(e)), evidence, finish);
    }
  }

  lemma RestartAndFinish(d: Daemon, evidence: seq<Evidence>, finish: Event)
    requires Inv(d) && d.half.None? && d.disk == d.memory && d.disk.finalizedThrough <= d.disk.stored && finish.Finish?
    ensures Promise(Follow(d, [Done(Restart(evidence)), Done(finish)]).emitted)
  {
    NextKeepsInv(d, Done(Restart(evidence)));
    NextKeepsInv(Next(d, Done(Restart(evidence))), Done(finish));
    TwoSteps(d, Done(Restart(evidence)), Done(finish));
  }

  /** An orphan timeout that fails after emitting emits its attempt again the next time. */
  lemma ErrorRepeats(d: Daemon, extra: nat, again: nat, head: Option<Revision>)
    requires Shape(d.memory) && d.half.None? && !d.memory.finalized && AttemptStart(d.memory).Some?
    ensures var first, t := Emits(d, Thrown(extra, head)), Next(d, Thrown(extra, head));
            var second := Emits(t, Done(Orphan(again, head)));
            && |first| == |second| == 1
            && first[0].unit == second[0].unit && first[0].from == second[0].from <= first[0].to
  {
  }

  /** So does one whose session is not saved before the process dies, if the restart has nothing else to close. */
  lemma CrashRepeats(d: Daemon, extra: nat, again: nat, head: Option<Revision>)
    requires Inv(d) && d.half.None? && d.disk == d.memory && !d.memory.finalized && AttemptStart(d.memory).Some?
    requires ClosedUnits(d.memory.steps[..d.memory.stored], d.memory.finalizedThrough) == []
    ensures var first, t := Emits(d, Unsaved(extra, head)), Next(d, Unsaved(extra, head));
            var r := Next(t, Done(Restart([])));
            var second := Emits(r, Done(Orphan(again, head)));
            && Emits(t, Done(Restart([]))) == []
            && |first| == |second| == 1
            && first[0].unit == second[0].unit && first[0].from == second[0].from <= first[0].to
  {
  }

  lemma PromptFirst()
    ensures var d := Next(START, Done(Submit(None, false, None)));
            && Inv(d) && d.disk == d.memory && d.emitted == [] && d.memory.completed == 0
            && !d.memory.finalized && AttemptStart(d.memory) == Some(2)
            && d.memory.steps == [Other, Prompt] && d.memory.stored == 2
            && ClosedUnits([Other, Prompt], 0) == []
  {
    StartInv();
    assert [Other] + [Prompt] == [Other, Prompt];
    NextKeepsInv(START, Done(Submit(None, false, None)));
    PromptOpens(FRESH, 0);
    ScanOfOnePrompt();
  }

  lemma ScanOfOnePrompt()
    ensures ClosedUnits([Other, Prompt], 0) == []
  {
    assert Scan([Other, Prompt], 1, None, 0) == Scan([Other, Prompt], 2, Some(2), 0) == [];
  }

  lemma FirstStep(d: Daemon, o: Occurrence, os: seq<Occurrence>)
    ensures Follow(d, [o] + os) == Follow(Next(d, o), os)
  {
    assert ([o] + os)[1..] == os;
  }

  lemma CutOffByError()
    ensures var os := [Done(Submit(None, false, None)), Thrown(0, None), Done(Orphan(0, None))];
            var emitted := Follow(START, os).emitted;
            |emitted| == 2 && emitted[0].unit == emitted[1].unit == 1 && emitted[0].from == emitted[1].from
  {
    var a, b, c := Done(Submit(None, false, None)), Thrown(0, None), Done(Orphan(0, None));
    PromptFirst();
    var d := Next(START, a);
    ErrorRepeats(d, 0, 0, None);
    FirstStep(START, a, [b, c]);
    assert [a] + [b, c] == [a, b, c];
    TwoSteps(d, b, c);
  }

  /** The second emission of `CrashRepeats` is the next in the log. */
  lemma CrashLog(d: Daemon, head: Option<Revision>)
    requires Inv(d) && d.half.None? && d.disk == d.memory && !d.memory.finalized && AttemptStart(d.memory).Some?
    requires ClosedUnits(d.memory.steps[..d.memory.stored], d.memory.finalizedThrough) == [] && d.emitted == []
    ensures var t := Next(Next(d, Unsaved(0, head)), Done(Restart([])));
            var emitted := Next(t, Done(Orphan(0, head))).emitted;
            |emitted| == 2 && emitted[0].unit == emitted[1].unit == d.memory.completed + 1 &&
                emitted[0].from == emitted[1].from
  {
    CrashRepeats(d, 0, 0, head);
    var t := Next(Next(d, Unsaved(0, head)), Done(Restart([])));
    assert t.emitted == Emits(d, Unsaved(0, head));
  }

  lemma CutOffByCrash()
    ensures var os := [Done(Submit(None, false, None)), Unsaved(0, None), Done(Restart([])), Done(Orphan(0, None))];
            var emitted := Follow(START, os).emitted;
            |emitted| == 2 && emitted[0].unit == emitted[1].unit == 1 && emitted[0].from == emitted[1].from
  {
    var a, b, r, c := Done(Submit(None, false, None)), Unsaved(0, None), Done(Restart([])), Done(Orphan(0, None));
    PromptFirst();
    var d := Next(START, a);
    assert [Other, Prompt][..2] == [Other, Prompt];
    CrashLog(d, None);
    FirstStep(START, a, [b, r, c]);
    FirstStep(d, b, [r, c]);
    TwoSteps(Next(d, b), r, c);
    assert [a] + [b, r, c] == [a, b, r, c] && [b] + [r, c] == [b, r, c];
  }

  lemma RunSnoc(events: seq<Event>, e: Event, s: Session, emitted: seq<Emission>)
    requires Run(events).0 == s && Run(events).1 == emitted
    ensures Run(events + [e]).0 == Applied(s, e, |events|).0
    ensures Run(events + [e]).1 == emitted + Applied(s, e, |events|).1
  {
    assert (events + [e])[..|events + [e]| - 1] == events;
  }

  /**
   * An orphan timeout that records steps finalises them although they are in no journal. After a restart the next
   * attempt starts within the finalised steps just when the journal ended before the finalised point.
   */
  lemma ShortJournalOverlaps(s: Session, head: Option<Revision>, at: nat)
    requires s.stored <= |s.steps| && s.finalizedThrough <= |s.steps| && s.start.None? && s.completed > 0
    requires ClosedUnits(s.steps[..s.stored], s.finalizedThrough) == []
    ensures var restarted := Applied(s, Restart([]), at).0;
            var submitted := Applied(restarted, Submit(None, false, head), at + 1).0;
            var emitted := Applied(submitted, Finish(false, 0, head), at + 2).1;
            && Applied(s, Restart([]), at).1 == Applied(restarted, Submit(None, false, head), at + 1).1 == []
            && |emitted| == 1 && (emitted[0].from <= s.finalizedThrough <==> s.stored < s.finalizedThrough)
  {
    assert Others(0) == [];
  }

  lemma OrphanStage(head: Option<Revision>)
    ensures Run([Submit(None, false, head), Orphan(1, head)]) ==
            (Session([Other, Prompt, Other], 2, None, 1, 3, None, None, false, {}, true),
                [Emission(1, 2, 3, None, Unknown)])
  {
    var e := [Submit(None, false, head), Orphan(1, head)];
    assert Others(1) == [Other];
    var s1 := FRESH.(steps := [Other, Prompt], stored := 2, start := Some(2));
    assert [Other] + ([] + [Prompt]) == s1.steps;
    RunSnoc([], e[0], FRESH, []);
    assert [] + [e[0]] == [e[0]];
    assert s1.steps + Others(1) == [Other, Prompt, Other];
    RunSnoc([e[0]], e[1], s1, []);
    assert [e[0]] + [e[1]] == e;
    var t := Recorded(s1.(finalized := true), Others(1));
    assert t == s1.(steps := [Other, Prompt, Other], finalized := true);
    assert Applied(s1, e[1], 1) == Emitted(t, head);
    var m := Emission(1, 2, 3, None, Unknown);
    assert Emitted(t, head).1 == [m] && [] + [m] == [m];
  }

  lemma OrphanStepsOverlap(head: Option<Revision>)
    ensures var events := [Submit(None, false, head), Orphan(1, head), Restart([]), Submit(None, false, head),
        Finish(false, 0, head)];
            var emitted := Run(events).1;
            |emitted| == 2 && emitted[1].from <= emitted[0].to
  {
    var e := [Submit(None, false, head), Orphan(1, head), Restart([]), Submit(None, false, head),
        Finish(false, 0, head)];
    var m := Emission(1, 2, 3, None, Unknown);
    var s2 := Session([Other, Prompt, Other], 2, None, 1, 3, None, None, false, {}, true);
    OrphanStage(head);
    assert s2.steps[..2] == [Other, Prompt];
    ShortJournalOverlaps(s2, head, 2);
    var s3 := Applied(s2, e[2], 2).0;
    RunSnoc(e[..2], e[2], s2, [m]);
    assert e[..2] == [e[0], e[1]] && e[..2] + [e[2]] == e[..3];
    var s4 := Applied(s3, e[3], 3).0;
    RunSnoc(e[..3], e[3], s3, [m] + Applied(s2, e[2], 2).1);
    assert e[..3] + [e[3]] == e[..4];
    RunSnoc(e[..4], e[4], s4, [m] + Applied(s2, e[2], 2).1 + Applied(s3, e[3], 3).1);
    assert e[..4] + [e[4]] == e;
  }

  /** A decision whose summary reads like the marker of a prompt makes a restart close an attempt still under way. */
  lemma PromptLookalikeOverlaps(head: Option<Revision>)
    ensures var events := [Submit(None, false, head), Decision(true, true, true, None, head), Restart([]),
        Finish(false, 0, head)];
            var emitted := Run(events).1;
            |emitted| == 2 && emitted[1].from <= emitted[0].to
  {
    var e := [Submit(None, false, head), Decision(true, true, true, None, head), Restart([]), Finish(false, 0, head)];
    assert Others(0) == [];
    var s1 := FRESH.(steps := [Other, Prompt], stored := 2, start := Some(2));
    assert [Other] + ([] + [Prompt]) == s1.steps;
    RunSnoc([], e[0], FRESH, []);
    assert [] + [e[0]] == [e[0]];
    var s2 := s1.(steps := [Other, Prompt, Prompt], stored := 3);
    assert s1.steps + [Prompt] == s2.steps;
    RunSnoc([e[0]], e[1], s1, []);
    assert [e[0]] + [e[1]] == [e[0], e[1]];
    var m := Emission(1, 2, 2, None, Unknown);
    var s3 := s2.(completed := 1, finalizedThrough := 2);
    LookalikeScan(s2.steps);
    var units := [Unit(2, 2, PromptBoundary)];
    assert s2.steps[..3] == s2.steps;
    assert Backfill(s3, units, [], 1) == (s3, []);
    assert Backfill(s2, units, [], 0) == (s3, [m] + []);
    RunSnoc([e[0], e[1]], e[2], s2, []);
    assert [e[0], e[1]] + [e[2]] == [e[0], e[1], e[2]] && [] + ([m] + []) == [m];
    RunSnoc([e[0], e[1], e[2]], e[3], s3, [m]);
    assert [e[0], e[1], e[2]] + [e[3]] == e;
  }

  lemma LookalikeScan(steps: seq<Kind>)
    requires steps == [Other, Prompt, Prompt]
    ensures ClosedUnits(steps, 0) == [Unit(2, 2, PromptBoundary)]
  {
    assert Scan(steps, 3, Some(3), 2) == [];
    assert Scan(steps, 2, Some(2), 0) == [Unit(2, 2, PromptBoundary)] + [];
    assert Scan(steps, 1, None, 0) == Scan(steps, 2, Some(2), 0);
  }
}
