/** Which outcome an attempt is emitted with, in terms of nothing but the events of the run. */
module Outcomes {
  import opened Wrappers
  import opened Units
  import opened Sessions

  // ---- What the events say ----

  /** The task of the last prompt. */
  function TaskOf(events: seq<Event>): Option<TaskKey> {
    if events == [] then None
    else
      var last := |events| - 1;
      if events[last].Submit? then events[last].task else TaskOf(events[..last])
  }

  /** The session has ended, or was given up. */
  predicate Ended(events: seq<Event>) {
    exists i :: 0 <= i < |events| && (events[i].End? || events[i].Orphan?)
  }

  /** An authorised decision with a summary that names the current task, the attempt under way and the revision. */
  predicate Grants(events: seq<Event>, d: nat) {
    && d < |events| && events[d].Decision? && events[d].authorised && events[d].summary && events[d].acceptance.Some?
    && var a := events[d].acceptance.value;
       && a.wellFormed && a.task == TaskOf(events[..d]) && a.attempt == |Run(events[..d]).1| + 1
       && a.revision.Some? && a.revision == events[d].head
  }

  predicate GrantsVerdict(events: seq<Event>, d: nat, verdict: Verdict) {
    Grants(events, d) && events[d].acceptance.value.verdict == verdict
  }

  /** A new prompt, a change, or giving the session up. */
  predicate TakesBack(events: seq<Event>, i: nat) {
    && i < |events|
    && match events[i]
       case Submit(_, _, _) => true
       case PreTool(_, mutating) => mutating
       case PostTool(_, mutating, repositoryChanged, _) => mutating || repositoryChanged
       case FileChanged => true
       case Orphan(_, _) => !Ended(events[..i])
       case _ => false
  }

  /** The `d`-th event rules so on the task, attempt and revision, and nothing since took it back or replaced it. */
  ghost predicate Rules(events: seq<Event>, d: nat, verdict: Verdict, m: Emission, head: Option<Revision>) {
    && GrantsVerdict(events, d, verdict)
    && events[d].acceptance.value.task == m.task
    && events[d].acceptance.value.attempt == m.unit
    && events[d].acceptance.value.revision == head
    && forall i: nat :: d < i < |events| ==> !TakesBack(events, i) && !Grants(events, i)
  }

  ghost predicate Ruled(events: seq<Event>, verdict: Verdict, m: Emission, head: Option<Revision>) {
    exists d: nat :: Rules(events, d, verdict, m, head)
  }

  predicate Fails(events: seq<Event>, i: nat) {
    i < |events| && ((events[i].Finish? && events[i].failed) || GrantsVerdict(events, i, Refuse))
  }

  /** A failed response, or a refusal of whatever was under way, that nothing took back and no approval came after. */
  ghost predicate FailureStands(events: seq<Event>, i: nat) {
    Fails(events, i) && forall j: nat :: i < j < |events| ==>
        !TakesBack(events, j) && !GrantsVerdict(events, j, Approve)
  }

  ghost predicate SomeFailureStands(events: seq<Event>) {
    exists i: nat :: FailureStands(events, i)
  }

  // ---- What the session remembers of them ----

  lemma AppliedFacts(s: Session, e: Event, at: nat)
    ensures var (t, emitted) := Applied(s, e, at);
            && t.task == (if e.Submit? then e.task else s.task)
            && t.completed == s.completed + |emitted|
            && t.finalized == (s.finalized || e.End? || e.Orphan?)
  {
    if e.Restart? {
      BackfillFrame(ReadBack(s), Found(s), e.evidence, 0);
      BackfillCount(ReadBack(s), Found(s), e.evidence, 0);
    }
  }

  lemma {:induction false} BackfillCount(s: Session, units: seq<Unit>, evidence: seq<Evidence>, at: nat)
    requires at <= |units|
    ensures var (t, emitted) := Backfill(s, units, evidence, at);
            t.completed == s.completed + |emitted| && |emitted| == |units| - at
    decreases |units| - at
  {
    if at < |units| {
      BackfillCount(Closed(s, units[at]), units, evidence, at + 1);
    }
  }

  /** The session knows the current task, how many attempts were emitted, and whether it has ended. */
  lemma {:induction false} SessionFacts(events: seq<Event>)
    ensures var (s, emitted) := Run(events);
            s.task == TaskOf(events) && s.completed == |emitted| && (s.finalized <==> Ended(events))
    decreases |events|
  {
    if events != [] {
      var front, last := events[..|events| - 1], events[|events| - 1];
      SessionFacts(front);
      AppliedFacts(Run(front).0, last, |front|);
      assert Ended(events) <==> Ended(front) || last.End? || last.Orphan? by {
        if Ended(front) {
          var i :| 0 <= i < |front| && (front[i].End? || front[i].Orphan?);
          assert events[i] == front[i];
        }
      }
    }
  }

  lemma GrantedIff(events: seq<Event>, d: nat)
    requires d < |events|
    ensures Granted(events, d).Some? <==> Grants(events, d)
    ensures Grants(events, d) ==>
              var a := events[d].acceptance.value;
              Granted(events, d) == Some(Acceptance(a.task, a.attempt, a.revision.value, a.verdict, d))
  {
    SessionFacts(events[..d]);
  }

  lemma WithdrawsIff(events: seq<Event>, i: nat)
    requires i < |events|
    ensures Withdraws(events, i) <==> TakesBack(events, i)
  {
    SessionFacts(events[..i]);
  }

  lemma StandingIff(events: seq<Event>, d: nat)
    ensures Standing(events, d) <==>
            Grants(events, d) && forall i: nat :: d < i < |events| ==> !TakesBack(events, i) && !Grants(events, i)
  {
    if d < |events| {
      GrantedIff(events, d);
      forall i: nat | d < i < |events|
        ensures (Withdraws(events, i) <==> TakesBack(events, i)) && (Granted(events, i).None? <==> !Grants(events, i))
      {
        GrantedIff(events, i);
        WithdrawsIff(events, i);
      }
    }
  }

  /** The acceptance that the session holds is about this emission exactly if some event rules so. */
  lemma HeldIffRuled(events: seq<Event>, verdict: Verdict, m: Emission, head: Option<Revision>)
    ensures var held := Run(events).0.acceptance;
            Ruled(events, verdict, m, head) <==>
            && held.Some? && held.value.verdict == verdict && held.value.task == m.task
            && held.value.attempt == m.unit && Some(held.value.revision) == head
  {
    var held := Run(events).0.acceptance;
    if held.Some? {
      var d := held.value.decision;
      AcceptanceIsStanding(events, d);
      StandingIff(events, d);
      GrantedIff(events, d);
      if held.value.verdict == verdict && held.value.task == m.task && held.value.attempt == m.unit &&
         Some(held.value.revision) == head {
        assert Rules(events, d, verdict, m, head);
      }
    }
    if d: nat :| Rules(events, d, verdict, m, head) {
      StandingIff(events, d);
      AcceptanceIsStanding(events, d);
      GrantedIff(events, d);
    }
  }

  // ---- The failure flag ----

  lemma AppliedFlag(s: Session, e: Event, at: nat)
    ensures var granted := if e.Decision? && e.authorised && e.summary then Normalized(s, e, at) else None;
            Applied(s, e, at).0.explicitFailure ==
              (if e.Finish? then e.failed || s.explicitFailure
               else if granted.Some? && granted.value.Some? then granted.value.value.verdict == Refuse
               else if e.Submit? || (e.PreTool? && e.mutating) ||
                   (e.PostTool? && (e.mutating || e.repositoryChanged)) || e.FileChanged? ||
                   (e.Orphan? && !s.finalized) then false
               else s.explicitFailure)
  {
    if e.Restart? {
      BackfillFrame(ReadBack(s), Found(s), e.evidence, 0);
    }
  }

  lemma FlagStep(events: seq<Event>, e: Event)
    ensures var all, n := events + [e], |events|;
            Run(all).0.explicitFailure <==>
            Fails(all, n) || (Run(events).0.explicitFailure && !TakesBack(all, n) && !GrantsVerdict(all, n, Approve))
  {
    var all, n := events + [e], |events|;
    LastFacts(events, e);
    GrantedIff(all, n);
    WithdrawsIff(all, n);
    AppliedFlag(Run(events).0, e, n);
  }

  lemma SamePast(events: seq<Event>, e: Event, i: nat)
    requires i < |events|
    ensures Grants(events + [e], i) == Grants(events, i)
    ensures TakesBack(events + [e], i) == TakesBack(events, i)
    ensures Fails(events + [e], i) == Fails(events, i)
  {
    assert (events + [e])[..i] == events[..i];
  }

  lemma FailureStandsSnoc(events: seq<Event>, e: Event, i: nat)
    requires i < |events|
    ensures var all, n := events + [e], |events|;
            FailureStands(all, i) <==>
            FailureStands(events, i) && !TakesBack(all, n) && !GrantsVerdict(all, n, Approve)
  {
    var all, n := events + [e], |events|;
    SamePast(events, e, i);
    forall j: nat | j < n
      ensures TakesBack(all, j) == TakesBack(events, j)
      ensures GrantsVerdict(all, j, Approve) == GrantsVerdict(events, j, Approve)
    {
      SamePast(events, e, j);
    }
    if FailureStands(all, i) {
      forall j: nat | i < j < n ensures !TakesBack(events, j) && !GrantsVerdict(events, j, Approve) {
        assert !TakesBack(all, j) && !GrantsVerdict(all, j, Approve);
      }
    }
  }

  lemma {:induction false} FlagIffFailureStands(events: seq<Event>)
    ensures Run(events).0.explicitFailure <==> SomeFailureStands(events)
    decreases |events|
  {
    if events != [] {
      var front, last := events[..|events| - 1], events[|events| - 1];
      assert front + [last] == events;
      FlagIffFailureStands(front);
      FlagStep(front, last);
      if Fails(events, |front|) {
        assert FailureStands(events, |front|);
      } else {
        if i: nat :| FailureStands(events, i) {
          FailureStandsSnoc(front, last, i);
          assert FailureStands(front, i);
        }
        if i: nat :| FailureStands(front, i) {
          FailureStandsSnoc(front, last, i);
        }
      }
    }
  }

  // ---- Main results ----

  lemma LiveOutcome(s: Session, t: Session, head: Option<Revision>, m: Emission)
    requires m in Emitted(t, head).1
    requires t.acceptance == s.acceptance && t.pending == s.pending
    ensures var about := s.acceptance.Some? && s.acceptance.value.task == m.task &&
            s.acceptance.value.attempt == m.unit &&
                Some(s.acceptance.value.revision) == head;
            m.outcome ==
              if about && s.acceptance.value.verdict == Approve && s.pending == {} then Succeeded
              else if (about && s.acceptance.value.verdict == Refuse) || t.explicitFailure then Failed
              else Unknown
  {
  }

  lemma ClosedOutcome(s: Session, e: Event, at: nat, m: Emission)
    requires e.Finish? || e.End?
    requires m in Applied(s, e, at).1
    ensures var about := s.acceptance.Some? && s.acceptance.value.task == m.task &&
            s.acceptance.value.attempt == m.unit &&
                Some(s.acceptance.value.revision) == e.head;
            m.outcome ==
              if about && s.acceptance.value.verdict == Approve && s.pending == {} then Succeeded
              else if (about && s.acceptance.value.verdict == Refuse) || s.explicitFailure || (e.Finish? && e.failed)
              then Failed
              else Unknown
  {
    if e.Finish? {
      var t := Recorded(s, Others(e.extra) + [Response]);
      LiveOutcome(s, if e.failed then t.(explicitFailure := true) else t, e.head, m);
    } else {
      LiveOutcome(s, Recorded(s, Others(e.extra)), e.head, m);
    }
  }

  ghost predicate AllAnswered(events: seq<Event>) {
    forall i: nat :: !Unanswered(events, i)
  }

  /**
   * Over every run, an attempt that ends with a response or with the session is emitted as successful exactly if a
   * standing decision approves it and every tool call has reported; as failed exactly if it is not successful and a
   * standing decision refuses it, the response has failed, or an earlier failure stands; and otherwise as unknown.
   */
  lemma OutcomeInEveryRun(events: seq<Event>, e: Event, m: Emission)
    requires m in Applied(Run(events).0, e, |events|).1 && (e.Finish? || e.End?)
    ensures m.outcome ==
            if Ruled(events, Approve, m, e.head) && AllAnswered(events) then Succeeded
            else if Ruled(events, Refuse, m, e.head) || (e.Finish? && e.failed) || SomeFailureStands(events) then Failed
            else Unknown
  {
    ClosedOutcome(Run(events).0, e, |events|, m);
    HeldIffRuled(events, Approve, m, e.head);
    HeldIffRuled(events, Refuse, m, e.head);
    FlagIffFailureStands(events);
    NothingPendingIff(events);
  }

  /** What a prompt or an orphan timeout closes is unknown. */
  lemma AbandonedIsUnknown(s: Session, e: Event, at: nat, m: Emission)
    requires m in Applied(s, e, at).1 && !e.Finish? && !e.End? && !e.Restart?
    ensures e.Submit? || e.Orphan?
    ensures m.outcome == Unknown
  {
  }

  lemma {:induction false} BackfillOutcomes(s: Session, units: seq<Unit>, evidence: seq<Evidence>, at: nat, i: nat)
    requires at <= i < |units|
    ensures var all := Backfill(s, units, evidence, at).1;
            && i - at < |all|
            && all[i - at].task == (if i < |evidence| then evidence[i].task else None)
            && all[i - at].outcome ==
                 if units[i].reason == Stop && i < |evidence| && evidence[i].failed then Failed else Unknown
    decreases |units| - at
  {
    BackfillCount(s, units, evidence, at);
    if at < i {
      BackfillOutcomes(Closed(s, units[at]), units, evidence, at + 1, i);
    }
  }

  /**
   * What a restart closes is failed exactly if it ends with a response that the evidence found for it calls failed, and
   * otherwise unknown; its task is the one that is found.
   */
  lemma RestartOutcome(s: Session, evidence: seq<Evidence>, at: nat, i: nat)
    requires i < |Applied(s, Restart(evidence), at).1|
    ensures var m, steps := Applied(s, Restart(evidence), at).1[i], ReadBack(s).steps;
            && 1 <= m.to <= |steps|
            && m.task == (if i < |evidence| then evidence[i].task else None)
            && m.outcome ==
                 if steps[m.to - 1] == Response && i < |evidence| && evidence[i].failed then Failed else Unknown
  {
    var read, units := ReadBack(s), Found(s);
    BackfillCount(read, units, evidence, 0);
    BackfillOutcomes(read, units, evidence, 0, i);
    BackfillEnds(read, units, evidence, 0, i);
    assert read.finalizedThrough < |read.steps|;
    ClosedUnitsIsTheCut(read.steps, read.finalizedThrough, units);
    ReasonIsTheEnd(read.steps, read.finalizedThrough, units, i);
  }

  lemma {:induction false} BackfillEnds(s: Session, units: seq<Unit>, evidence: seq<Evidence>, at: nat, i: nat)
    requires at <= i < |units| && i - at < |Backfill(s, units, evidence, at).1|
    ensures Backfill(s, units, evidence, at).1[i - at].to == units[i].to
    decreases |units| - at
  {
    if at < i {
      BackfillEnds(Closed(s, units[at]), units, evidence, at + 1, i);
    }
  }

  lemma {:induction false} ReasonIsTheEnd(steps: seq<Kind>, after: nat, units: seq<Unit>, i: nat)
    requires Cut(steps, after, units) && i < |units|
    ensures 1 <= units[i].to <= |steps|
    ensures units[i].reason == Stop <==> steps[units[i].to - 1] == Response
    decreases i
  {
    if i > 0 {
      ReasonIsTheEnd(steps, units[0].to, units[1..], i - 1);
    } else {
      assert GoodUnit(steps, after, units[0]);
      assert KindAt(steps, units[0].to) == steps[units[0].to - 1];
    }
  }
}
