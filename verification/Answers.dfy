/** That just what the engine answers to a receipt reaches memory, disk and spool, over every run of the queue. */
module Answers {
  import opened Wrappers
  import opened Receipts

  /** The later of a state and a receipt. */
  function TimeAt(state: State, r: Receipt): int {
    if state.lastEventTime < r.eventTime then r.eventTime else state.lastEventTime
  }

  /** What the engine says to a receipt: it is shown the state at the receipt's time, or later. */
  function Answer(e: Engine, env: nat, state: State, r: Receipt): Outcome {
    e.ingest(env, State(TimeAt(state, r), state.sessions, state.counters), r.id, r.fingerprint, r.eventTime)
  }

  // ---- One receipt ----

  /** The answer decides everything about a receipt that is taken up. */
  lemma PickedExactly(e: Engine, s: System, id: Id, env: nat, throws: bool)
    requires CanPick(s, id) && s.disk.active[id].prepared == None
    ensures var r, t := s.disk.active[id], Apply(e, s, Pick(id, env, throws));
            var noted := r.(failures := r.failures + 1);
            var kept := if throws then noted else r;
            && t.enqueued == s.enqueued && t.mem.Up? && t.mem.booted == s.mem.booted
            && t.mem.lastEventTime == (if s.mem.lastEventTime < r.eventTime then r.eventTime else s.mem.lastEventTime)
            && match Answer(e, env, s.mem.state, r)
               case Ok(sessions, counters, jobs) =>
                 var p := Prepared(State(TimeAt(s.mem.state, r), sessions, counters), jobs);
                 && t.log == s.log + [Commit(env, r)]
                 && t.disk == s.disk.(active := s.disk.active[id := kept.(prepared := Some(p))])
                 && t.mem.state == (if throws then s.mem.state else p.state)
                 && t.mem.phase == (if throws then Idle else Replacing(id, sessions.Keys))
                 && t.mem.blocked == (if throws then s.mem.blocked else Some(id))
               case Reject =>
                 && t.log == s.log && t.mem.state == s.mem.state && t.mem.phase == Unlinking(id)
                 && t.disk == s.disk.(active := s.disk.active[id := noted], rejected := s.disk.rejected[id := noted])
               case Retry =>
                 && t.log == s.log && t.mem.state == s.mem.state && t.mem.phase == Idle
                 && t.disk == s.disk.(active := s.disk.active[id := noted])
  {
  }

  /** What a commit adds to the reference: the engine's sessions, counters and jobs, or nothing if it refuses. */
  lemma CommitAddsTheAnswer(e: Engine, log: seq<Entry>, env: nat, r: Receipt)
    ensures var before, after := Refer(e, log), Refer(e, log + [Commit(env, r)]);
            match Answer(e, env, before.state, r)
            case Ok(sessions, counters, jobs) =>
              && after.state == State(TimeAt(before.state, r), sessions, counters)
              && after.steps == before.steps + (map k | k in sessions :: sessions[k].steps)
              && FoldJobs(e, log + [Commit(env, r)]) == FoldJobs(e, log) + (set j | j in jobs)
            case _ => after == before && FoldJobs(e, log + [Commit(env, r)]) == FoldJobs(e, log)
  {
    FoldSnoc(e, log, Commit(env, r));
  }

  /** What a restart and a heartbeat make of the reference: the engine decides, activity and time apart. */
  lemma OtherEntriesAddNoJobs(e: Engine, log: seq<Entry>, env: nat)
    ensures var before, after := Refer(e, log), Refer(e, log + [Restart(env)]);
            && after.steps == before.steps && FoldJobs(e, log + [Restart(env)]) == FoldJobs(e, log)
            && after.state.lastEventTime == before.state.lastEventTime
            && after.state.counters == before.state.counters
            && after.state.sessions.Keys == before.state.sessions.Keys
            && forall k :: k in after.state.sessions ==>
                 var steps := if k in before.steps then before.steps[k] else [];
                 var read := Session(false, steps, before.state.sessions[k].data);
                 after.state.sessions[k] == Session(false, steps, e.backfill(env, k, read))
    ensures var before, after := Refer(e, log), Refer(e, log + [Beat(env)]);
            var beaten := e.heartbeat(env, before.state);
            && after.steps == before.steps && FoldJobs(e, log + [Beat(env)]) == FoldJobs(e, log)
            && after.state.sessions == beaten.sessions && after.state.counters == beaten.counters
            && after.state.lastEventTime ==
                 (if before.state.lastEventTime < beaten.lastEventTime then beaten.lastEventTime
                  else before.state.lastEventTime)
  {
    FoldSnoc(e, log, Restart(env));
    FoldSnoc(e, log, Beat(env));
  }

  // ---- Every run ----

  /** The engine answered the receipt with just what is prepared. */
  predicate AnsweredWith(e: Engine, env: nat, state: State, r: Receipt, p: Prepared) {
    && Answer(e, env, state, r) == Ok(p.state.sessions, p.state.counters, p.jobs)
    && p.state.lastEventTime == TimeAt(state, r)
  }

  ghost predicate Truthful(e: Engine, r: Receipt) {
    r.prepared.Some? ==> exists env: nat, state: State :: AnsweredWith(e, env, state, r, r.prepared.value)
  }

  function JobsOf(r: Receipt): set<Job> {
    if r.prepared.Some? then set j | j in r.prepared.value.jobs else {}
  }

  ghost predicate TruthfulAt(e: Engine, d: Disk, id: Id) {
    && (id in d.active ==> Truthful(e, d.active[id]))
    && (id in d.completed ==> Truthful(e, d.completed[id]))
    && (id in d.active && id in d.completed ==> d.active[id].prepared == d.completed[id].prepared)
  }

  predicate Yields(d: Disk, id: Id, job: Job) {
    (id in d.active && job in JobsOf(d.active[id])) || (id in d.completed && job in JobsOf(d.completed[id]))
  }

  ghost predicate HasSource(d: Disk, job: Job) {
    exists id :: Yields(d, id, job)
  }

  /** All jobs of what is completed are out, and of what is being enqueued those before the mark. */
  ghost predicate JobsOut(s: System, id: Id) {
    && (id in s.disk.completed ==> s.disk.completed[id].prepared.Some? && JobsOf(s.disk.completed[id]) <= s.enqueued)
    && (s.mem.Up? && id in s.disk.active && s.disk.active[id].prepared.Some? ==>
          var jobs := s.disk.active[id].prepared.value.jobs;
          && (s.mem.phase.Enqueuing? && s.mem.phase.id == id ==>
                s.mem.phase.done <= |jobs| && forall k :: 0 <= k < s.mem.phase.done ==> jobs[k] in s.enqueued)
          && (s.mem.phase == Completing(id) ==> JobsOf(s.disk.active[id]) <= s.enqueued))
  }

  ghost predicate JobsInv(e: Engine, s: System) {
    && (forall id :: TruthfulAt(e, s.disk, id))
    && (forall id :: JobsOut(s, id))
    && (forall job :: job in s.enqueued ==> HasSource(s.disk, job))
  }

  /** What has been prepared stays with its receipt, whether that is active or completed. */
  predicate PreparedAs(d: Disk, id: Id, p: Prepared) {
    && (id in d.active || id in d.completed)
    && (id in d.active ==> d.active[id].prepared == Some(p))
    && (id in d.completed ==> d.completed[id].prepared == Some(p))
  }

  lemma PreparedStaysPick(e: Engine, s: System, a: Action, id: Id, p: Prepared)
    requires a.Pick? && CanPick(s, a.id) && PreparedAs(s.disk, id, p)
    ensures PreparedAs(Apply(e, s, a).disk, id, p)
  {
    if s.disk.active[a.id].prepared.None? {
      PickedExactly(e, s, a.id, a.env, a.throws);
    }
  }

  lemma PreparedStaysAdvance(e: Engine, s: System, id: Id, p: Prepared)
    requires TimeInv(s) && s.mem.Up? && PreparedAs(s.disk, id, p)
    ensures PreparedAs(Apply(e, s, Advance).disk, id, p)
  {
    assert s.mem.phase == Unlinking(id) ==> Leaving(s.disk, id);
  }

  lemma PreparedStays(e: Engine, s: System, a: Action, id: Id, p: Prepared)
    requires TimeInv(s) && PreparedAs(s.disk, id, p)
    ensures PreparedAs(Apply(e, s, a).disk, id, p)
  {
    match a
    case Pick(picked, _, _) =>
      if CanPick(s, picked) {
        PreparedStaysPick(e, s, a, id, p);
      }
    case Advance =>
      if s.mem.Up? {
        PreparedStaysAdvance(e, s, id, p);
      }
    case _ =>
  }

  lemma {:induction false} PreparedStaysRun(e: Engine, s: System, actions: seq<Action>, id: Id, p: Prepared)
    requires TimeInv(s) && PreparedAs(s.disk, id, p)
    ensures PreparedAs(Run(e, s, actions).disk, id, p)
    decreases |actions|
  {
    if actions != [] {
      PreparedStays(e, s, actions[0], id, p);
      TimeInvStep(e, s, actions[0]);
      PreparedStaysRun(e, Apply(e, s, actions[0]), actions[1..], id, p);
    }
  }

  lemma YieldsStays(e: Engine, s: System, a: Action, id: Id, job: Job)
    requires TimeInv(s) && TruthfulAt(e, s.disk, id) && JobsOut(s, id) && Yields(s.disk, id, job)
    ensures Yields(Apply(e, s, a).disk, id, job)
  {
    var p := if id in s.disk.completed then s.disk.completed[id].prepared.value else s.disk.active[id].prepared.value;
    PreparedStays(e, s, a, id, p);
  }

  /** Failures are no part of what is answered. */
  lemma SameTruth(e: Engine, r: Receipt, failures: nat)
    requires Truthful(e, r)
    ensures Truthful(e, r.(failures := failures))
  {
    if r.prepared.Some? {
      var env: nat, state: State :| AnsweredWith(e, env, state, r, r.prepared.value);
      assert AnsweredWith(e, env, state, r.(failures := failures), r.prepared.value);
    }
  }

  lemma PickIsTruthful(e: Engine, s: System, id: Id, env: nat, throws: bool, other: Id)
    requires CanPick(s, id) && TruthfulAt(e, s.disk, id) && TruthfulAt(e, s.disk, other)
    ensures TruthfulAt(e, Apply(e, s, Pick(id, env, throws)).disk, other)
  {
    var r := s.disk.active[id];
    if r.prepared.None? {
      PickedExactly(e, s, id, env, throws);
      var t := Apply(e, s, Pick(id, env, throws));
      var o := Answer(e, env, s.mem.state, r);
      if o.Ok? {
        assert AnsweredWith(e, env, s.mem.state, t.disk.active[id], t.disk.active[id].prepared.value);
      }
    }
  }

  lemma TruthfulStep(e: Engine, s: System, a: Action, id: Id)
    requires TimeInv(s) && forall other :: TruthfulAt(e, s.disk, other)
    ensures TruthfulAt(e, Apply(e, s, a).disk, id)
  {
    assert TruthfulAt(e, s.disk, id);
    match a
    case Pick(picked, env, throws) =>
      if CanPick(s, picked) {
        assert TruthfulAt(e, s.disk, picked);
        PickIsTruthful(e, s, picked, env, throws, id);
      }
    case Fail =>
      if s.mem.Up? && !s.mem.phase.Idle? && s.mem.phase.id == id && id in s.disk.active {
        SameTruth(e, s.disk.active[id], s.disk.active[id].failures + 1);
      }
    case _ =>
  }

  lemma JobsOutPick(e: Engine, s: System, a: Action, id: Id)
    requires TimeInv(s) && a.Pick? && CanPick(s, a.id) && JobsOut(s, id)
    ensures JobsOut(Apply(e, s, a), id)
  {
    if s.disk.active[a.id].prepared.None? {
      PickedExactly(e, s, a.id, a.env, a.throws);
    }
  }

  lemma JobsOutAdvance(e: Engine, s: System, id: Id)
    requires TimeInv(s) && s.mem.Up? && JobsOut(s, id) && (!s.mem.phase.Idle? ==> JobsOut(s, s.mem.phase.id))
    ensures JobsOut(Apply(e, s, Advance), id)
  {
    var t := Apply(e, s, Advance);
    if s.mem.phase.Enqueuing? && s.mem.phase.id == id {
      assert Reached(s, id);
      var jobs := s.disk.active[id].prepared.value.jobs;
      assert s.mem.phase.done == |jobs| ==> JobsOf(s.disk.active[id]) <= s.enqueued;
    } else if s.mem.phase.Completing? {
      assert Reached(s, s.mem.phase.id);
    }
  }

  lemma JobsOutStep(e: Engine, s: System, a: Action, id: Id)
    requires TimeInv(s) && forall other :: JobsOut(s, other)
    ensures JobsOut(Apply(e, s, a), id)
  {
    assert JobsOut(s, id);
    match a
    case Pick(picked, _, _) =>
      if CanPick(s, picked) {
        JobsOutPick(e, s, a, id);
      }
    case Advance =>
      if s.mem.Up? {
        assert !s.mem.phase.Idle? ==> JobsOut(s, s.mem.phase.id);
        JobsOutAdvance(e, s, id);
      }
    case _ =>
  }

  /** A job that is new in the spool is the next of the receipt under way. */
  lemma NewJob(e: Engine, s: System, a: Action, job: Job)
    requires TimeInv(s) && job in Apply(e, s, a).enqueued && job !in s.enqueued
    ensures a.Advance? && s.mem.Up? && s.mem.phase.Enqueuing? && Yields(s.disk, s.mem.phase.id, job)
  {
    if a.Pick? && CanPick(s, a.id) && s.disk.active[a.id].prepared.None? {
      PickedExactly(e, s, a.id, a.env, a.throws);
    }
  }

  lemma JobsInvStep(e: Engine, s: System, a: Action)
    requires TimeInv(s) && JobsInv(e, s)
    ensures JobsInv(e, Apply(e, s, a))
  {
    var t := Apply(e, s, a);
    forall id ensures TruthfulAt(e, t.disk, id) { TruthfulStep(e, s, a, id); }
    forall id ensures JobsOut(t, id) { JobsOutStep(e, s, a, id); }
    forall job | job in t.enqueued ensures HasSource(t.disk, job) {
      if job in s.enqueued {
        assert HasSource(s.disk, job);
      } else {
        NewJob(e, s, a, job);
      }
      var id :| Yields(s.disk, id, job);
      assert TruthfulAt(e, s.disk, id) && JobsOut(s, id);
      YieldsStays(e, s, a, id, job);
    }
  }

  lemma {:induction false} JobsInvRun(e: Engine, s: System, actions: seq<Action>)
    requires TimeInv(s) && JobsInv(e, s)
    ensures TimeInv(Run(e, s, actions)) && JobsInv(e, Run(e, s, actions))
    decreases |actions|
  {
    if actions != [] {
      TimeInvStep(e, s, actions[0]);
      JobsInvStep(e, s, actions[0]);
      JobsInvRun(e, Apply(e, s, actions[0]), actions[1..]);
    }
  }

  /** At some time the engine answered the receipt with this job among others. */
  ghost predicate FromAnswer(e: Engine, r: Receipt, job: Job) {
    exists env: nat, state: State :: Answer(e, env, state, r).Ok? && job in Answer(e, env, state, r).jobs
  }

  /** The engine accepted the receipt, and every job of its answer was put into the spool. */
  ghost predicate AllOut(e: Engine, r: Receipt, enqueued: set<Job>) {
    exists env: nat, state: State ::
        Answer(e, env, state, r).Ok? && (set j | j in Answer(e, env, state, r).jobs) <= enqueued
  }

  ghost predicate SomeReceiptYields(e: Engine, d: Disk, job: Job) {
    exists id :: Yields(d, id, job) &&
      ((id in d.active && FromAnswer(e, d.active[id], job)) ||
          (id in d.completed && FromAnswer(e, d.completed[id], job)))
  }

  lemma YieldsIsAnswer(e: Engine, r: Receipt, job: Job)
    requires Truthful(e, r) && job in JobsOf(r)
    ensures FromAnswer(e, r, job)
  {
    var env: nat, state: State :| AnsweredWith(e, env, state, r, r.prepared.value);
    assert Answer(e, env, state, r).Ok?;
  }

  lemma CompletedIsOut(e: Engine, r: Receipt, enqueued: set<Job>)
    requires Truthful(e, r) && r.prepared.Some? && JobsOf(r) <= enqueued
    ensures AllOut(e, r, enqueued)
  {
    var env: nat, state: State :| AnsweredWith(e, env, state, r, r.prepared.value);
    assert Answer(e, env, state, r).Ok?;
  }

  /**
   * In every run, crashes, failures and heartbeats included: every job that was ever put into the spool is one that the
   * engine answered some receipt with, and of every completed receipt all jobs of such an answer were.
   */
  lemma JobsAreTheEnginesOwn(e: Engine, actions: seq<Action>)
    ensures var s := Run(e, INITIAL, actions);
            && (forall job :: job in s.enqueued ==> SomeReceiptYields(e, s.disk, job))
            && (forall id :: id in s.disk.completed ==> AllOut(e, s.disk.completed[id], s.enqueued))
  {
    InitialRefines(e);
    JobsInvRun(e, INITIAL, actions);
    var s := Run(e, INITIAL, actions);
    forall job | job in s.enqueued ensures SomeReceiptYields(e, s.disk, job) {
      assert HasSource(s.disk, job);
      var id :| Yields(s.disk, id, job);
      assert TruthfulAt(e, s.disk, id);
      if id in s.disk.active && job in JobsOf(s.disk.active[id]) {
        YieldsIsAnswer(e, s.disk.active[id], job);
      } else {
        YieldsIsAnswer(e, s.disk.completed[id], job);
      }
    }
    forall id | id in s.disk.completed ensures AllOut(e, s.disk.completed[id], s.enqueued) {
      assert TruthfulAt(e, s.disk, id) && JobsOut(s, id);
      CompletedIsOut(e, s.disk.completed[id], s.enqueued);
    }
  }

  /** The state as the state file has it. */
  function AsSaved(state: State): Saved {
    Saved(state.lastEventTime,
          map k | k in state.sessions :: SavedSession(state.sessions[k].active, state.sessions[k].data),
          state.counters)
  }

  /** What was prepared has arrived where the receipt is about to be completed, and its jobs where it is completed. */
  ghost predicate MaterialisedAs(t: System, id: Id, p: Prepared) {
    && (id in t.disk.completed ==> forall job :: job in p.jobs ==> job in t.enqueued)
    && (t.mem.Up? && t.mem.phase == Completing(id) ==>
          && t.mem.state == p.state && t.disk.saved == Some(AsSaved(p.state))
          && (forall k :: k in p.state.sessions ==>
                k in t.disk.steps && t.disk.steps[k] == p.state.sessions[k].steps)
          && forall job :: job in p.jobs ==> job in t.enqueued)
  }

  /**
   * From any run on in which no heartbeat acts while a prepared receipt is listed, and through whatever comes later:
   * a receipt that the engine has answered with sessions, counters and jobs stays prepared with these; whenever it is
   * about to be completed, they are in memory, in the state file, in the journals and in the spool; and once it is
   * completed, its jobs have been enqueued.
   */
  lemma AnswerIsMaterialised(e: Engine, before: seq<Action>, id: Id, env: nat, throws: bool, later: seq<Action>,
      p: Prepared)
    requires var s := Run(e, INITIAL, before);
             && SafeRun(e, s, [Pick(id, env, throws)] + later) && SafeRun(e, INITIAL, before)
             && CanPick(s, id) && s.disk.active[id].prepared == None
             && Answer(e, env, s.mem.state, s.disk.active[id]) == Ok(p.state.sessions, p.state.counters, p.jobs)
             && p.state.lastEventTime == TimeAt(s.mem.state, s.disk.active[id])
    ensures var t := Run(e, Run(e, INITIAL, before), [Pick(id, env, throws)] + later);
            PreparedAs(t.disk, id, p) && MaterialisedAs(t, id, p)
  {
    InitialRefines(e);
    FoldInvRun(e, INITIAL, before);
    JobsInvRun(e, INITIAL, before);
    MaterialisedFrom(e, Run(e, INITIAL, before), id, env, throws, later, p);
  }

  lemma MaterialisedFrom(e: Engine, s: System, id: Id, env: nat, throws: bool, later: seq<Action>, p: Prepared)
    requires TimeInv(s) && FoldInv(e, s) && JobsInv(e, s) && SafeRun(e, s, [Pick(id, env, throws)] + later)
    requires CanPick(s, id) && s.disk.active[id].prepared == None
    requires Answer(e, env, s.mem.state, s.disk.active[id]) == Ok(p.state.sessions, p.state.counters, p.jobs)
    requires p.state.lastEventTime == TimeAt(s.mem.state, s.disk.active[id])
    ensures var t := Run(e, s, [Pick(id, env, throws)] + later);
            PreparedAs(t.disk, id, p) && MaterialisedAs(t, id, p)
  {
    var all := [Pick(id, env, throws)] + later;
    FoldInvRun(e, s, all);
    JobsInvRun(e, s, all);
    PickStays(e, s, id, env, throws, later, p);
    AllMaterialised(e, Run(e, s, all), id, p);
  }

  lemma PickStays(e: Engine, s: System, id: Id, env: nat, throws: bool, later: seq<Action>, p: Prepared)
    requires TimeInv(s) && CanPick(s, id) && s.disk.active[id].prepared == None
    requires Answer(e, env, s.mem.state, s.disk.active[id]) == Ok(p.state.sessions, p.state.counters, p.jobs)
    requires p.state.lastEventTime == TimeAt(s.mem.state, s.disk.active[id])
    ensures PreparedAs(Run(e, s, [Pick(id, env, throws)] + later).disk, id, p)
  {
    var all := [Pick(id, env, throws)] + later;
    PickedExactly(e, s, id, env, throws);
    TimeInvStep(e, s, Pick(id, env, throws));
    assert all[0] == Pick(id, env, throws) && all[1..] == later;
    PreparedStaysRun(e, Apply(e, s, Pick(id, env, throws)), later, id, p);
  }

  lemma AllMaterialised(e: Engine, t: System, id: Id, p: Prepared)
    requires FoldInv(e, t) && JobsInv(e, t) && PreparedAs(t.disk, id, p)
    ensures MaterialisedAs(t, id, p)
  {
    assert JobsOut(t, id);
  }

  // ---- One receipt after another ----

  /** What the receipts are about: the state, the jobs put into the spool, and which were completed or rejected. */
  datatype Ledger = Ledger(state: State, jobs: set<Job>, completed: set<Id>, rejected: set<Id>)

  /** The engine can say that a receipt has to wait, unless it was prepared before. */
  predicate MustWait(e: Engine, l: Ledger, r: Receipt, env: nat) {
    r.prepared == None && Answer(e, env, l.state, r) == Retry
  }

  /** What a receipt is, or was, prepared with. */
  function PreparedBy(e: Engine, env: nat, state: State, r: Receipt): Option<Prepared> {
    if r.prepared.Some? then r.prepared
    else
      match Answer(e, env, state, r)
      case Ok(sessions, counters, jobs) => Some(Prepared(State(TimeAt(state, r), sessions, counters), jobs))
      case _ => None
  }

  /** What one receipt makes of it. */
  function Handled(e: Engine, l: Ledger, r: Receipt, env: nat): Ledger {
    match PreparedBy(e, env, l.state, r)
    case Some(p) => Ledger(p.state, l.jobs + (set j | j in p.jobs), l.completed + {r.id}, l.rejected)
    case None => if Answer(e, env, l.state, r) == Reject then l.(rejected := l.rejected + {r.id}) else l
  }

  lemma HandledIfPrepared(e: Engine, l: Ledger, r: Receipt, env: nat, p: Prepared)
    requires PreparedBy(e, env, l.state, r) == Some(p)
    ensures Handled(e, l, r, env) == Ledger(p.state, l.jobs + (set j | j in p.jobs), l.completed + {r.id}, l.rejected)
  {
  }

  lemma HandledIfRejected(e: Engine, l: Ledger, r: Receipt, env: nat)
    requires PreparedBy(e, env, l.state, r) == None && !MustWait(e, l, r, env)
    ensures Handled(e, l, r, env) == l.(rejected := l.rejected + {r.id})
  {
  }

  /** What receipts make of it one after another, each under its own environment. */
  function HandledAll(e: Engine, l: Ledger, rs: seq<Receipt>, envs: seq<nat>): Ledger
    requires |rs| == |envs|
    decreases |rs|
  {
    if rs == [] then l
    else
      var last := |rs| - 1;
      Handled(e, HandledAll(e, l, rs[..last], envs[..last]), rs[last], envs[last])
  }

  lemma HandledSnoc(e: Engine, l: Ledger, rs: seq<Receipt>, envs: seq<nat>, r: Receipt, env: nat)
    requires |rs| == |envs|
    ensures HandledAll(e, l, rs + [r], envs + [env]) == Handled(e, HandledAll(e, l, rs, envs), r, env)
  {
    assert (rs + [r])[..|rs|] == rs && (envs + [env])[..|envs|] == envs;
  }
}
