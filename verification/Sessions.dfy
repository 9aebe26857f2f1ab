/** One captured session as a state machine over hooks, orphan timeouts and restarts. */
module Sessions {
  // It says which steps each emitted attempt covers, and which outcome it may claim. Here every event takes effect
  // and is saved as a whole; `Attempts` adds what an orphan timeout leaves behind when it is cut off.

  import opened Wrappers
  import opened Units

  type TaskKey(==, !new)
  type Revision(==, !new)
  type ToolKey(==, !new)

  datatype Verdict = Approve | Refuse

  /** A task acceptance, already bound to what it names; `decision` is the position of its hook in the run. */
  datatype Acceptance = Acceptance(task: Option<TaskKey>, attempt: nat, revision: Revision, verdict: Verdict,
      decision: nat)

  datatype Session = Session(
    steps: seq<Kind>,
    stored: nat,  // how many of the steps are in the step journal
    start: Option<nat>,
    completed: nat,
    finalizedThrough: nat,
    task: Option<TaskKey>,
    acceptance: Option<Acceptance>,
    explicitFailure: bool,
    pending: set<ToolKey>,
    finalized: bool)

  /** What an operator sends along with a decision. */
  datatype Supplied = Supplied(
    wellFormed: bool,  // version 1, an explicit verdict, criteria of the task
    task: Option<TaskKey>,
    attempt: nat,
    revision: Option<Revision>,
    verdict: Verdict)

  /** Hooks with what they observe: `head` is the repository revision, if one can be told, when the hook is read. */
  datatype Event =
    | Note(count: nat)                                 // hooks that only record steps
    | Submit(task: Option<TaskKey>, runtime: bool, head: Option<Revision>)
    | PreTool(key: ToolKey, mutating: bool)
    | PostTool(key: ToolKey, mutating: bool, repositoryChanged: bool, checked: bool)
    | FileChanged
    | Decision(authorised: bool, summary: bool, looksLikePrompt: bool, acceptance: Option<Supplied>,
        head: Option<Revision>)
    | Finish(failed: bool, extra: nat, head: Option<Revision>)
    | End(extra: nat, head: Option<Revision>)
    | Orphan(extra: nat, head: Option<Revision>)
    | Restart(evidence: seq<Evidence>)

  /** What the vault says of an attempt closed at a restart: its task, and whether its last hook was a failure. */
  datatype Evidence = Evidence(task: Option<TaskKey>, failed: bool)

  datatype Outcome = Succeeded | Failed | Unknown

  datatype Emission = Emission(unit: nat, from: nat, to: nat, task: Option<TaskKey>, outcome: Outcome)

  const FRESH := Session([Other], 1, None, 0, 0, None, None, false, {}, false)

  function Others(count: nat): seq<Kind> {
    seq(count, _ => Other)
  }

  function Recorded(s: Session, kinds: seq<Kind>): Session {
    s.(steps := s.steps + kinds)
  }

  function WithoutVerifiedOutcome(s: Session): Session {
    s.(acceptance := None, explicitFailure := false)
  }

  /** The first step of the attempt under way, if there is one. */
  function AttemptStart(s: Session): Option<nat> {
    if s.start.Some? then s.start else if s.completed == 0 then Some(1) else None
  }

  function CompletedAttempt(s: Session): Session {
    s.(start := None, completed := s.completed + 1, finalizedThrough := |s.steps|)
  }

  function OutcomeOf(s: Session, head: Option<Revision>): Outcome {
    var accepted :=
      s.acceptance.Some? && s.acceptance.value.task == s.task && s.acceptance.value.attempt == s.completed + 1 &&
      Some(s.acceptance.value.revision) == head;
    if accepted && s.acceptance.value.verdict == Approve && s.pending == {} then Succeeded
    else if accepted && s.acceptance.value.verdict == Refuse then Failed
    else if s.explicitFailure then Failed
    else Unknown
  }

  /** Emits the attempt under way, unless it has no steps. */
  function Emitted(s: Session, head: Option<Revision>): (Session, seq<Emission>) {
    var start := AttemptStart(s);
    if start.None? || start.value > |s.steps| then (s, [])
    else (CompletedAttempt(s), [Emission(s.completed + 1, start.value, |s.steps|, s.task, OutcomeOf(s, head))])
  }

  /** What the guard on operator decisions makes of a supplied acceptance; `None` is an error. */
  function Normalized(s: Session, e: Event, at: nat): Option<Option<Acceptance>>
    requires e.Decision?
  {
    match e.acceptance
    case None => Some(None)
    case Some(a) =>
      if !e.authorised then Some(None)
      else if !a.wellFormed || a.task != s.task || a.attempt != s.completed + 1 || e.head.None? ||
          a.revision != e.head then None
      else Some(Some(Acceptance(a.task, a.attempt, e.head.value, a.verdict, at)))
  }

  function Submitted(s: Session, e: Event): (Session, seq<Emission>)
    requires e.Submit?
  {
    var abandoned := WithoutVerifiedOutcome(s);
    var (before, emitted) := if s.start.Some? then Emitted(abandoned, e.head) else (abandoned, []);
    var begun := before.(start := Some(|before.steps| + 1), task := e.task);
    (Recorded(begun, (if e.runtime then [Other] else []) + [Prompt]), emitted)
  }

  function Decided(s: Session, e: Event, at: nat): Session
    requires e.Decision?
  {
    var acceptance := Normalized(s, e, at);
    if !e.authorised || acceptance.None? || !e.summary then s
    else
      var decided := Recorded(s, [if e.looksLikePrompt then Prompt else Other]);
      match acceptance.value
      case None => decided
      case Some(a) => decided.(acceptance := Some(a), explicitFailure := a.verdict == Refuse)
  }

  /** What closing a range at a restart emits; evidence that is missing says nothing. */
  function Closing(s: Session, u: Unit, evidence: seq<Evidence>, i: nat): Emission {
    var found := if i < |evidence| then evidence[i] else Evidence(None, false);
    Emission(s.completed + 1, u.from, u.to, found.task, if u.reason == Stop && found.failed then Failed else Unknown)
  }

  function Closed(s: Session, u: Unit): Session {
    s.(completed := s.completed + 1, finalizedThrough := u.to)
  }

  /** The attempts a restart closes from the `i`-th range on, one after another. */
  function Backfill(s: Session, units: seq<Unit>, evidence: seq<Evidence>, i: nat): (Session, seq<Emission>)
    requires i <= |units|
    decreases |units| - i
  {
    if i == |units| then (s, [])
    else
      var rest := Backfill(Closed(s, units[i]), units, evidence, i + 1);
      (rest.0, [Closing(s, units[i], evidence, i)] + rest.1)
  }

  lemma BackfillStep(s: Session, units: seq<Unit>, evidence: seq<Evidence>, i: nat, before: seq<Emission>)
    requires i < |units|
    ensures Backfill(s, units, evidence, i).0 == Backfill(Closed(s, units[i]), units, evidence, i + 1).0
    ensures before + Backfill(s, units, evidence, i).1 ==
            before + [Closing(s, units[i], evidence, i)] + Backfill(Closed(s, units[i]), units, evidence, i + 1).1
  {
  }

  /** The loop over what is to be closed, which advances the unit count and the finalised point as it emits. */
  method BackfillCompletedUnits(s: Session, evidence: seq<Evidence>) returns (t: Session, emitted: seq<Emission>)
    ensures (t, emitted) == Backfill(s, ClosedUnits(s.steps, s.finalizedThrough), evidence, 0)
  {
    var units := ClosedEvaluationUnits(s.steps, Some(s.finalizedThrough));
    t, emitted := s, [];
    ghost var (last, all) := Backfill(s, units, evidence, 0);
    assert all == [] + all;
    for i := 0 to |units|
      invariant last == Backfill(t, units, evidence, i).0
      invariant all == emitted + Backfill(t, units, evidence, i).1
    {
      BackfillStep(t, units, evidence, i, emitted);
      emitted := emitted + [Closing(t, units[i], evidence, i)];
      t := Closed(t, units[i]);
    }
    assert emitted + [] == emitted;
  }

  /** The session with the steps that are in its journal. */
  function ReadBack(s: Session): Session {
    if s.stored <= |s.steps| then s.(steps := s.steps[..s.stored]) else s
  }

  /** What a restart finds to close. */
  function Found(s: Session): seq<Unit> {
    ClosedUnits(ReadBack(s).steps, s.finalizedThrough)
  }

  /** A restart reads the journalled steps back and closes what the live machine left open. */
  function Restarted(s: Session, evidence: seq<Evidence>): (Session, seq<Emission>) {
    Backfill(ReadBack(s), Found(s), evidence, 0)
  }

  function Journalled(r: (Session, seq<Emission>)): (Session, seq<Emission>) {
    (r.0.(stored := |r.0.steps|), r.1)
  }

  /** One event, the `at`-th of the run. Every hook puts all steps into the journal; an orphan timeout does not. */
  function Applied(s: Session, e: Event, at: nat): (Session, seq<Emission>) {
    match e
    case Note(count) => Journalled((Recorded(s, Others(count)), []))
    case Submit(_, _, _) => Journalled(Submitted(s, e))
    case PreTool(key, mutating) =>
      var t := if mutating then WithoutVerifiedOutcome(s) else s;
      Journalled((Recorded(t.(pending := t.pending + {key}), [Other]), []))
    case PostTool(key, mutating, repositoryChanged, checked) =>
      var t := Recorded(s.(pending := s.pending - {key}), Others(if checked then 2 else 1));
      Journalled((if mutating || repositoryChanged then WithoutVerifiedOutcome(t) else t, []))
    case FileChanged => Journalled((WithoutVerifiedOutcome(s), []))
    case Decision(_, _, _, _, _) => Journalled((Decided(s, e, at), []))
    case Finish(failed, extra, head) =>
      var t := Recorded(s, Others(extra) + [Response]);
      Journalled(Emitted(if failed then t.(explicitFailure := true) else t, head))
    case End(extra, head) =>
      var t := Recorded(s, Others(extra));
      var (u, emitted) := if s.finalized then (t, []) else Emitted(t, head);
      Journalled((u.(finalized := true), emitted))
    case Orphan(extra, head) =>
      if s.finalized then (s, [])
      else Emitted(Recorded(WithoutVerifiedOutcome(s).(finalized := true), Others(extra)), head)
    case Restart(evidence) => Restarted(s, evidence)
  }

  function Run(events: seq<Event>): (Session, seq<Emission>) {
    if events == [] then (FRESH, [])
    else
      var (s, emitted) := Run(events[..|events| - 1]);
      var (t, more) := Applied(s, events[|events| - 1], |events| - 1);
      (t, emitted + more)
  }

  // ---- Outcomes ----

  /** The acceptance that the `d`-th event of the run granted, if it is a decision that did. */
  function Granted(events: seq<Event>, d: nat): Option<Acceptance>
    requires d < |events|
  {
    var e := events[d];
    if e.Decision? && e.authorised && e.summary then
      var a := Normalized(Run(events[..d]).0, e, d);
      if a.Some? then a.value else None
    else None
  }

  /** The event takes back whatever was accepted before: a new prompt, a mutation, or giving the session up. */
  predicate Withdraws(events: seq<Event>, i: nat)
    requires i < |events|
  {
    var e := events[i];
    || e.Submit?
    || (e.PreTool? && e.mutating)
    || (e.PostTool? && (e.mutating || e.repositoryChanged))
    || e.FileChanged?
    || (e.Orphan? && !Run(events[..i]).0.finalized)
  }

  /** The `d`-th event granted an acceptance, and nothing since took it back or replaced it. */
  ghost predicate Standing(events: seq<Event>, d: nat) {
    && d < |events|
    && Granted(events, d).Some?
    && forall i :: d < i < |events| ==> !Withdraws(events, i) && Granted(events, i).None?
  }

  /** The `i`-th event started a tool call that has not reported a result. */
  ghost predicate Unanswered(events: seq<Event>, i: nat) {
    && i < |events|
    && events[i].PreTool?
    && forall j :: i < j < |events| ==> !(events[j].PostTool? && events[j].key == events[i].key)
  }

  lemma PrefixFacts(events: seq<Event>, e: Event, i: nat)
    requires i < |events|
    ensures Granted(events + [e], i) == Granted(events, i)
    ensures Withdraws(events + [e], i) == Withdraws(events, i)
  {
    assert (events + [e])[..i] == events[..i];
  }

  lemma LastFacts(events: seq<Event>, e: Event)
    ensures (events + [e])[..|events|] == events
    ensures Run(events + [e]).0 == Applied(Run(events).0, e, |events|).0
  {
    assert (events + [e])[..|events + [e]| - 1] == events;
  }

  lemma StandingSnoc(events: seq<Event>, e: Event, d: nat)
    requires d < |events|
    ensures Standing(events + [e], d) <==>
            Standing(events, d) && !Withdraws(events + [e], |events|) && Granted(events + [e], |events|).None?
  {
    var all := events + [e];
    PrefixFacts(events, e, d);
    forall i | d < i < |events|
      ensures Withdraws(all, i) == Withdraws(events, i) && Granted(all, i) == Granted(events, i) {
      PrefixFacts(events, e, i);
    }
    if Standing(all, d) {
      forall i | d < i < |events| ensures !Withdraws(events, i) && Granted(events, i).None? {
        assert !Withdraws(all, i);
      }
    }
  }

  /** What one event does to the acceptance and to the tools under way. */
  lemma AppliedAcceptance(s: Session, e: Event, at: nat)
    ensures var t := Applied(s, e, at).0;
            && t.pending ==
                 (if e.PreTool? then s.pending + {e.key} else if e.PostTool? then s.pending - {e.key} else s.pending)
            && t.acceptance ==
                 (if e.Decision? && e.authorised && e.summary && Normalized(s, e, at).Some? &&
                     Normalized(s, e, at).value.Some? then
                    Normalized(s, e, at).value
                  else if e.Submit? || (e.PreTool? && e.mutating) ||
                      (e.PostTool? && (e.mutating || e.repositoryChanged)) ||
                          e.FileChanged? || (e.Orphan? && !s.finalized) then None
                  else s.acceptance)
  {
    if e.Restart? {
      BackfillFrame(ReadBack(s), Found(s), e.evidence, 0);
    }
  }

  lemma AcceptanceStep(events: seq<Event>, e: Event)
    ensures var s, t, all := Run(events).0, Run(events + [e]).0, events + [e];
            && t.acceptance == (if Granted(all, |events|).Some? then Granted(all, |events|)
                                else if Withdraws(all, |events|) then None else s.acceptance)
            && t.pending ==
                 (if e.PreTool? then s.pending + {e.key} else if e.PostTool? then s.pending - {e.key} else s.pending)
  {
    LastFacts(events, e);
    AppliedAcceptance(Run(events).0, e, |events|);
  }

  lemma {:induction false} BackfillFrame(s: Session, units: seq<Unit>, evidence: seq<Evidence>, at: nat)
    requires at <= |units|
    ensures var t := Backfill(s, units, evidence, at).0;
            t == s.(completed := t.completed, finalizedThrough := t.finalizedThrough)
    ensures forall m :: m in Backfill(s, units, evidence, at).1 ==> m.outcome != Succeeded
    decreases |units| - at
  {
    if at < |units| {
      BackfillFrame(Closed(s, units[at]), units, evidence, at + 1);
    }
  }

  lemma {:induction false} AcceptanceIsStanding(events: seq<Event>, d: nat)
    ensures Standing(events, d) ==> Run(events).0.acceptance == Granted(events, d)
    ensures Run(events).0.acceptance.Some? ==>
              var a := Run(events).0.acceptance.value;
              Standing(events, a.decision) && Granted(events, a.decision) == Some(a)
    decreases |events|
  {
    if events != [] {
      var front, last := events[..|events| - 1], events[|events| - 1];
      assert front + [last] == events;
      AcceptanceIsStanding(front, d);
      AcceptanceStep(front, last);
      if d < |front| {
        StandingSnoc(front, last, d);
        PrefixFacts(front, last, d);
      }
      if Run(events).0.acceptance.Some? {
        var a := Run(events).0.acceptance.value;
        if Granted(events, |front|).None? {
          StandingSnoc(front, last, a.decision);
          PrefixFacts(front, last, a.decision);
        }
      }
    }
  }

  ghost predicate UnansweredKey(events: seq<Event>, key: ToolKey) {
    exists i: nat :: Unanswered(events, i) && events[i].key == key
  }

  lemma UnansweredSnoc(events: seq<Event>, e: Event, i: nat)
    requires i < |events|
    ensures Unanswered(events + [e], i) <==> Unanswered(events, i) && !(e.PostTool? && e.key == events[i].key)
  {
    var all := events + [e];
    assert all[i] == events[i] && all[|events|] == e;
    if Unanswered(all, i) {
      forall j | i < j < |events| ensures !(events[j].PostTool? && events[j].key == events[i].key) {
        assert all[j] == events[j];
      }
    }
    if Unanswered(events, i) && !(e.PostTool? && e.key == events[i].key) {
      forall j | i < j < |all| ensures !(all[j].PostTool? && all[j].key == all[i].key) {
        assert j < |events| ==> all[j] == events[j];
      }
    }
  }

  lemma {:induction false} PendingIsUnanswered(events: seq<Event>, key: ToolKey)
    ensures key in Run(events).0.pending <==> UnansweredKey(events, key)
    decreases |events|
  {
    if events != [] {
      var front, last := events[..|events| - 1], events[|events| - 1];
      assert front + [last] == events;
      PendingIsUnanswered(front, key);
      AcceptanceStep(front, last);
      if last.PreTool? && last.key == key {
        assert Unanswered(events, |front|);
      } else if UnansweredKey(front, key) {
        var i: nat :| Unanswered(front, i) && front[i].key == key;
        UnansweredSnoc(front, last, i);
        if !(last.PostTool? && last.key == key) {
          assert Unanswered(events, i) && events[i].key == key;
        }
      }
      if UnansweredKey(events, key) && !(last.PreTool? && last.key == key) {
        var i: nat :| Unanswered(events, i) && events[i].key == key;
        UnansweredSnoc(front, last, i);
        assert Unanswered(front, i) && front[i].key == key;
      }
    }
  }

  lemma NothingPendingIff(events: seq<Event>)
    ensures Run(events).0.pending == {} <==> forall i: nat :: !Unanswered(events, i)
  {
    if Run(events).0.pending == {} {
      forall i: nat ensures !Unanswered(events, i) {
        if i < |events| && events[i].PreTool? {
          PendingIsUnanswered(events, events[i].key);
        }
      }
    } else {
      var key :| key in Run(events).0.pending;
      PendingIsUnanswered(events, key);
    }
  }

  /** The `d`-th event approved this task, attempt and revision, and that still stands. */
  ghost predicate Warrants(events: seq<Event>, d: nat, m: Emission, head: Option<Revision>) {
    && Standing(events, d)
    && events[d].authorised
    && events[d].acceptance.Some?
    && events[d].acceptance.value.verdict == Approve
    && events[d].acceptance.value.task == m.task
    && events[d].acceptance.value.attempt == m.unit
    && events[d].acceptance.value.revision == head
    && head.Some?
  }

  lemma AcceptedIffWarranted(events: seq<Event>, m: Emission, head: Option<Revision>)
    ensures var acceptance := Run(events).0.acceptance;
            (acceptance.Some? && acceptance.value.verdict == Approve && acceptance.value.task == m.task &&
             acceptance.value.attempt == m.unit && Some(acceptance.value.revision) == head) <==>
            exists d: nat :: Warrants(events, d, m, head)
  {
    var acceptance := Run(events).0.acceptance;
    if acceptance.Some? {
      AcceptanceIsStanding(events, acceptance.value.decision);
      if acceptance.value.verdict == Approve && acceptance.value.task == m.task && acceptance.value.attempt == m.unit &&
         Some(acceptance.value.revision) == head {
        assert Warrants(events, acceptance.value.decision, m, head);
      }
    }
    if d: nat :| Warrants(events, d, m, head) {
      AcceptanceIsStanding(events, d);
    }
  }

  /** What the live machine emits when it closes an attempt. */
  lemma EmittedOutcome(s: Session, t: Session, head: Option<Revision>, m: Emission)
    requires m in Emitted(t, head).1
    requires t.acceptance == s.acceptance && t.pending == s.pending && t.task == s.task && t.completed == s.completed
    ensures m.outcome == Succeeded <==>
            && s.acceptance.Some? && s.acceptance.value.verdict == Approve && s.acceptance.value.task == m.task
            && s.acceptance.value.attempt == m.unit && Some(s.acceptance.value.revision) == head
            && s.pending == {}
  {
  }

  lemma ClosingOutcome(s: Session, e: Event, at: nat, m: Emission)
    requires e.Finish? || e.End?
    requires m in Applied(s, e, at).1
    ensures m.outcome == Succeeded <==>
            && s.acceptance.Some? && s.acceptance.value.verdict == Approve && s.acceptance.value.task == m.task
            && s.acceptance.value.attempt == m.unit && Some(s.acceptance.value.revision) == e.head
            && s.pending == {}
  {
    if e.Finish? {
      var t := Recorded(s, Others(e.extra) + [Response]);
      EmittedOutcome(s, if e.failed then t.(explicitFailure := true) else t, e.head, m);
    } else {
      EmittedOutcome(s, Recorded(s, Others(e.extra)), e.head, m);
    }
  }

  /** Only a response or the end of the session can close an attempt successfully. */
  lemma OtherwiseNoSuccess(s: Session, e: Event, at: nat, m: Emission)
    requires m in Applied(s, e, at).1 && !e.Finish? && !e.End?
    ensures m.outcome != Succeeded
  {
    if e.Restart? {
      BackfillFrame(ReadBack(s), Found(s), e.evidence, 0);
    }
  }

  /**
   * Over every run: an attempt is emitted as successful exactly when it ends with a response or with the session,
   * an authorised decision approved this very task, attempt and final revision, no prompt, mutation or later
   * decision has superseded it, and no tool call is pending.
   */
  lemma SuccessIffWarranted(events: seq<Event>, e: Event, m: Emission)
    requires m in Applied(Run(events).0, e, |events|).1
    ensures m.outcome == Succeeded <==>
            && (e.Finish? || e.End?)
            && (exists d: nat :: Warrants(events, d, m, e.head))
            && (forall i: nat :: !Unanswered(events, i))
  {
    var s := Run(events).0;
    if e.Finish? || e.End? {
      ClosingOutcome(s, e, |events|, m);
      AcceptedIffWarranted(events, m, e.head);
      NothingPendingIff(events);
    } else {
      OtherwiseNoSuccess(s, e, |events|, m);
    }
  }
}
