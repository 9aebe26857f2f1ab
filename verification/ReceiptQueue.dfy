/** The receiver's queue as the daemon runs it, tied to the state machine of `Receipts`. */
module ReceiptQueue {
  // Every method is a run of that machine, so that dying half-way through one leaves a prefix of such a run.

  import opened Wrappers
  import opened Receipts
  import opened Answers

  datatype Error = ReceiptReused | RecoveryPending | WriteFailed | HookRejected | HookUnavailable

  lemma LoadMeans(e: Engine, s: System, env: nat)
    requires s.mem.Up? && !s.mem.booted && s.mem.phase == Idle && NothingPrepared(s.disk)
    ensures var state := Backfilled(e, env, Loaded(s.disk));
            Apply(e, s, Load(env)) ==
            System(Started(s.disk, state),
                   Up(true, state, LatestListed(s.disk, s.disk.active.Keys, Loaded(s.disk).lastEventTime), None, Idle),
                   s.log + [Restart(env)], s.enqueued)
  {
  }

  function FirstJobs(p: Prepared, n: nat): set<Job>
    requires n <= |p.jobs|
  {
    set j | j in p.jobs[..n]
  }

  lemma NextJob(p: Prepared, n: nat)
    requires n < |p.jobs|
    ensures FirstJobs(p, n + 1) == FirstJobs(p, n) + {p.jobs[n]} <= set j | j in p.jobs
  {
    assert p.jobs[..n + 1] == p.jobs[..n] + [p.jobs[n]];
  }

  class CaptureReceiptQueue {
    const engine: Engine
    var active: map<Id, Receipt>
    var completed: map<Id, Receipt>
    var rejected: map<Id, Receipt>
    var steps: map<Key, seq<Step>>
    var saved: Option<Saved>
    var spool: set<Job>
    var booted: bool
    var state: State
    var lastEventTime: int
    var blocked: Option<Id>
    ghost var phase: Phase
    ghost var log: seq<Entry>
    ghost var enqueued: set<Job>

    function Files(): Disk
      reads this
    {
      Disk(active, completed, rejected, steps, saved, spool)
    }

    ghost function Sys(): System
      reads this
    {
      System(Files(), Up(booted, state, lastEventTime, blocked, phase), log, enqueued)
    }

    /** Between two calls: nothing half done in this process, whatever earlier ones left behind. */
    ghost predicate Resting()
      reads this
    {
      TimeInv(Sys()) && phase == Idle
    }

    /** A process that has just started on the files another one left. */
    constructor (engine: Engine, disk: Disk, ghost log: seq<Entry>, ghost enqueued: set<Job>)
      requires TimeInv(System(disk, Down, log, enqueued))
      ensures this.engine == engine && Resting() && !booted
      ensures Sys() == Apply(engine, System(disk, Down, log, enqueued), Boot)
    {
      this.engine := engine;
      active, completed, rejected := disk.active, disk.completed, disk.rejected;
      steps, saved, spool := disk.steps, disk.saved, disk.spool;
      booted, state, lastEventTime, blocked := false, EMPTY_STATE, -1, None;
      phase := Idle;
      this.log, this.enqueued := log, enqueued;
      new;
      TimeInvStep(engine, System(disk, Down, log, enqueued), Boot);
    }

    /** Accepts an occurrence unless it is known, in which case only the same evidence is acknowledged again. */
    method AcceptNow(id: Id, fingerprint: string, now: int) returns (r: Result<Id, Error>, ghost actions: seq<Action>)
      requires Resting() && booted
      modifies this
      ensures Resting() && booted && Sys() == Run(engine, old(Sys()), actions)
      ensures r.Success? ==> r.value == id && Known(Files(), id)
      ensures old(Known(Files(), id)) ==> Sys() == old(Sys())
      ensures r == Failure(ReceiptReused) <==>
                old(Known(Files(), id)) && old(Recorded(id)).fingerprint != fingerprint
      ensures r.Success? && !old(Known(Files(), id)) ==>
                && active == old(active)[id := Receipt(id, fingerprint, lastEventTime, None, 0)]
                && lastEventTime == AcceptTime(old(Sys()).mem, now)
    {
      actions := [];
      if Known(Files(), id) {
        return if Recorded(id).fingerprint == fingerprint then Success(id) else Failure(ReceiptReused), [];
      }
      lastEventTime := AcceptTime(Up(booted, state, lastEventTime, blocked, Idle), now);
      var fault := *;
      if !fault {
        active := active[id := Receipt(id, fingerprint, lastEventTime, None, 0)];
      }
      ghost var step := Accept(id, fingerprint, now, !fault);
      actions := Record(old(Sys()), [], step);
      return if fault then Failure(WriteFailed) else Success(id), actions;
    }

    /** The record of a known receipt: active first, then completed, then rejected. */
    function Recorded(id: Id): Receipt
      requires Known(Files(), id)
      reads this
    {
      if id in active then active[id] else if id in completed then completed[id] else rejected[id]
    }

    /** Adds the step that has just been taken to the history of the current call. */
    ghost method Record(before: System, actions: seq<Action>, a: Action) returns (longer: seq<Action>)
      requires TimeInv(Run(engine, before, actions))
      requires Sys() == Apply(engine, Run(engine, before, actions), a)
      ensures longer == actions + [a] && Sys() == Run(engine, before, longer) && TimeInv(Sys())
    {
      longer := actions + [a];
      RunSnoc(engine, before, actions, a);
      TimeInvStep(engine, Run(engine, before, actions), a);
    }

    ghost predicate Ascending(ids: seq<Id>)
      reads this
    {
      && (forall i :: 0 <= i < |ids| ==> ids[i] in active)
      && forall i, j :: 0 <= i < j < |ids| ==> active[ids[i]].eventTime < active[ids[j]].eventTime
    }

    /** The receipts still to be processed, earliest first. */
    method List() returns (ids: seq<Id>)
      requires Resting()
      ensures forall id :: id in ids <==> Listed(Files(), id)
      ensures Ascending(ids)
    {
      ids := [];
      var todo := active.Keys;
      while todo != {}
        invariant todo <= active.Keys
        invariant forall id :: id in ids <==> Listed(Files(), id) && id !in todo
        invariant Ascending(ids)
        decreases todo
      {
        var id :| id in todo;
        todo := todo - {id};
        if id !in completed {
          forall i | 0 <= i < |ids| ensures active[ids[i]].eventTime != active[id].eventTime {
            assert ids[i] in ids;
            assert InOrder(Files(), ids[i], id);
          }
          var at := Position(ids, active[id].eventTime);
          ids := ids[..at] + [id] + ids[at..];
        }
      }
    }

    method Position(ids: seq<Id>, time: int) returns (at: nat)
      requires Ascending(ids)
      requires forall i :: 0 <= i < |ids| ==> active[ids[i]].eventTime != time
      ensures at <= |ids|
      ensures forall i :: 0 <= i < at ==> active[ids[i]].eventTime < time
      ensures forall i :: at <= i < |ids| ==> time < active[ids[i]].eventTime
    {
      at := 0;
      while at < |ids| && active[ids[at]].eventTime < time
        invariant at <= |ids|
        invariant forall i :: 0 <= i < at ==> active[ids[i]].eventTime < time
      {
        at := at + 1;
      }
    }

    /** Up to failures, the same receipts are listed; `except` may have gone. */
    twostate predicate KeepsOthers(except: Id)
      reads this
    {
      && booted == old(booted)
      && active.Keys <= old(active).Keys
      && completed.Keys >= old(completed).Keys
      && rejected.Keys >= old(rejected).Keys
      && (forall id :: id != except ==> (Listed(Files(), id) <==> old(Listed(Files(), id))))
      && (forall id :: id != except && old(Listed(Files(), id)) ==> active[id] == old(active)[id])
    }

    ghost function Books(): Ledger
      reads this
    {
      Ledger(state, enqueued, completed.Keys, rejected.Keys)
    }

    twostate predicate SameStore()
      reads this
    {
      state == old(state) && saved == old(saved) && steps == old(steps)
    }

    twostate predicate SameHistory()
      reads this
    {
      log == old(log) && enqueued == old(enqueued)
    }

    /** The receipt is as it was, with one more failure. */
    twostate predicate Noted(id: Id)
      requires old(id in active)
      reads this
    {
      active == old(active)[id := old(active)[id].(failures := old(active)[id].failures + 1)]
    }

    /** Reports an error of the step under way: the receipt stays, with the failure noted in it. */
    method Fault(id: Id, ghost before: System, ghost actions: seq<Action>) returns (ghost longer: seq<Action>)
      requires TimeInv(Sys()) && Sys() == Run(engine, before, actions)
      requires !phase.Idle? && phase.id == id && id in active && (phase.Unlinking? ==> id in completed)
      modifies this
      ensures Resting() && Sys() == Run(engine, before, longer) && KeepsOthers(id)
      ensures Noted(id) && completed == old(completed) && rejected == old(rejected)
      ensures SameStore() && SameHistory()
    {
      active := active[id := active[id].(failures := active[id].failures + 1)];
      phase := Idle;
      longer := Record(before, actions, Fail);
    }

    /** The first steps of a receipt prepared before. */
    method Resume(id: Id, p: Prepared, ghost before: System, ghost actions: seq<Action>)
        returns (ghost longer: seq<Action>)
      requires Resting() && Sys() == Run(engine, before, actions) && CanPick(Sys(), id)
      requires active[id].prepared == Some(p)
      modifies this
      ensures TimeInv(Sys()) && Sys() == Run(engine, before, longer) && KeepsOthers(id)
      ensures active == old(active) && completed == old(completed) && rejected == old(rejected)
      ensures SameStore() && SameHistory()
      ensures phase == Replacing(id, p.state.sessions.Keys)
    {
      lastEventTime := Max(lastEventTime, active[id].eventTime);
      blocked, phase := Some(id), Replacing(id, p.state.sessions.Keys);
      longer := Record(before, actions, Pick(id, 0, false));
    }

    /** The write took effect but reported an error, which is noted as a failure. */
    method PrepareThrows(id: Id, env: nat, p: Prepared, ghost before: System, ghost actions: seq<Action>)
        returns (ghost longer: seq<Action>)
      requires Resting() && Sys() == Run(engine, before, actions) && CanPick(Sys(), id)
      requires active[id].prepared == None && Interpret(engine, env, state, active[id]) == Committed(p)
      modifies this
      ensures TimeInv(Sys()) && Sys() == Run(engine, before, longer) && KeepsOthers(id)
      ensures ListedPrepared(Files(), id) && active[id].prepared == Some(p)
      ensures log == old(log) + [Commit(env, old(active)[id])] && enqueued == old(enqueued)
      ensures saved == old(saved) && steps == old(steps) && completed == old(completed) && rejected == old(rejected)
      ensures phase == Idle && state == old(state)
    {
      var receipt := active[id];
      lastEventTime := Max(lastEventTime, receipt.eventTime);
      log := log + [Commit(env, receipt)];
      active := active[id := receipt.(prepared := Some(p), failures := receipt.failures + 1)];
      assert Files() == Failed(old(Files()).(active := old(active)[id := receipt.(prepared := Some(p))]), id);
      longer := Record(before, actions, Pick(id, env, true));
    }

    method PrepareSucceeds(id: Id, env: nat, p: Prepared, ghost before: System, ghost actions: seq<Action>)
        returns (ghost longer: seq<Action>)
      requires Resting() && Sys() == Run(engine, before, actions) && CanPick(Sys(), id)
      requires active[id].prepared == None && Interpret(engine, env, state, active[id]) == Committed(p)
      modifies this
      ensures TimeInv(Sys()) && Sys() == Run(engine, before, longer) && KeepsOthers(id)
      ensures ListedPrepared(Files(), id) && active[id].prepared == Some(p)
      ensures log == old(log) + [Commit(env, old(active)[id])] && enqueued == old(enqueued)
      ensures saved == old(saved) && steps == old(steps) && completed == old(completed) && rejected == old(rejected)
      ensures phase == Replacing(id, p.state.sessions.Keys) && state == p.state
    {
      var receipt := active[id];
      lastEventTime := Max(lastEventTime, receipt.eventTime);
      log := log + [Commit(env, receipt)];
      active := active[id := receipt.(prepared := Some(p))];
      state, blocked, phase := p.state, Some(id), Replacing(id, p.state.sessions.Keys);
      longer := Record(before, actions, Pick(id, env, false));
    }

    /** Makes the interpretation of a receipt durable; the write may report an error although it took effect. */
    method Prepare(id: Id, env: nat, p: Prepared, ghost before: System, ghost actions: seq<Action>)
        returns (ok: bool, ghost longer: seq<Action>)
      requires Resting() && Sys() == Run(engine, before, actions) && CanPick(Sys(), id)
      requires active[id].prepared == None && Interpret(engine, env, state, active[id]) == Committed(p)
      modifies this
      ensures TimeInv(Sys()) && Sys() == Run(engine, before, longer) && KeepsOthers(id)
      ensures ListedPrepared(Files(), id) && active[id].prepared == Some(p)
      ensures log == old(log) + [Commit(env, old(active)[id])] && enqueued == old(enqueued)
      ensures saved == old(saved) && steps == old(steps) && completed == old(completed) && rejected == old(rejected)
      ensures ok ==> phase == Replacing(id, p.state.sessions.Keys) && state == p.state
      ensures !ok ==> phase == Idle && state == old(state)
    {
      var throws := *;
      if throws {
        longer := PrepareThrows(id, env, p, before, actions);
      } else {
        longer := PrepareSucceeds(id, env, p, before, actions);
      }
      ok := !throws;
    }

    /** Notes that the receipt has to be tried again. */
    method Postpone(id: Id, env: nat, ghost before: System, ghost actions: seq<Action>)
        returns (ghost longer: seq<Action>)
      requires Resting() && Sys() == Run(engine, before, actions) && CanPick(Sys(), id)
      requires active[id].prepared == None && Interpret(engine, env, state, active[id]).Retried?
      modifies this
      ensures TimeInv(Sys()) && Sys() == Run(engine, before, longer) && KeepsOthers(id)
      ensures Noted(id) && completed == old(completed) && rejected == old(rejected) && SameStore() && SameHistory()
      ensures phase == Idle
    {
      var receipt := active[id];
      lastEventTime := Max(lastEventTime, receipt.eventTime);
      active := active[id := receipt.(failures := receipt.failures + 1)];
      longer := Record(before, actions, Pick(id, env, false));
    }

    /** Notes a rejection; the receipt can go once that is written. */
    method Reject(id: Id, env: nat, ghost before: System, ghost actions: seq<Action>)
        returns (ghost longer: seq<Action>)
      requires Resting() && Sys() == Run(engine, before, actions) && CanPick(Sys(), id)
      requires active[id].prepared == None && Interpret(engine, env, state, active[id]).Rejected?
      modifies this
      ensures TimeInv(Sys()) && Sys() == Run(engine, before, longer) && KeepsOthers(id)
      ensures Noted(id) && completed == old(completed) && SameStore() && SameHistory()
      ensures rejected == old(rejected)[id := active[id]] && phase == Unlinking(id)
    {
      var receipt := active[id];
      lastEventTime := Max(lastEventTime, receipt.eventTime);
      active := active[id := receipt.(failures := receipt.failures + 1)];
      rejected := rejected[id := active[id]];
      phase := Unlinking(id);
      PickedExactly(engine, old(Sys()), id, env, false);
      longer := Record(before, actions, Pick(id, env, false));
    }

    /**
     * Starts the first receipt: interprets its hook unless that was done before, and makes the result durable.
     * Success says that the receipt is prepared and being materialised; otherwise the error is a rejection or
     * stops the pass.
     */
    method Begin(id: Id, env: nat, ghost before: System, ghost actions: seq<Action>)
        returns (r: Result<Prepared, Error>, ghost longer: seq<Action>)
      requires Resting() && Sys() == Run(engine, before, actions) && CanPick(Sys(), id)
      modifies this
      ensures TimeInv(Sys()) && Sys() == Run(engine, before, longer) && KeepsOthers(id)
      ensures id in active && completed == old(completed) && enqueued == old(enqueued)
      ensures saved == old(saved) && steps == old(steps)
      ensures old(active[id].prepared).Some? ==> r == Success(old(active[id].prepared.value)) && log == old(log)
      ensures r.Success? ==> phase == Replacing(id, r.value.state.sessions.Keys)
      ensures r.Failure? && r != Failure(HookRejected) ==> phase == Idle
      ensures match old(PreparedBy(engine, env, state, active[id]))
              case Some(p) =>
                && (r == Success(p) || r == Failure(WriteFailed))
                && ListedPrepared(Files(), id) && active[id].prepared == Some(p)
                && rejected == old(rejected) && log == old(LogAfter(id, env))
              case None =>
                && r == Failure(if old(MustWait(engine, Books(), active[id], env)) then HookUnavailable
                                 else HookRejected)
                && Noted(id) && SameStore() && log == old(log)
                && (r == Failure(HookUnavailable) ==> rejected == old(rejected))
                && (r == Failure(HookRejected) ==>
                      phase == Unlinking(id) && rejected == old(rejected)[id := active[id]])
    {
      if active[id].prepared.Some? {
        var p := active[id].prepared.value;
        longer := Resume(id, p, before, actions);
        return Success(p), longer;
      }
      match Interpret(engine, env, state, active[id])
      case Committed(p) =>
        var ok;
        ok, longer := Prepare(id, env, p, before, actions);
        r := if ok then Success(p) else Failure(WriteFailed);
      case Rejected =>
        longer := Reject(id, env, before, actions);
        r := Failure(HookRejected);
      case Retried =>
        longer := Postpone(id, env, before, actions);
        r := Failure(HookUnavailable);
    }

    /** Only a receipt that was not prepared before is committed. */
    ghost function LogAfter(id: Id, env: nat): seq<Entry>
      requires id in active
      reads this
    {
      if active[id].prepared.Some? then log else log + [Commit(env, active[id])]
    }

    /** After a fault the receipt is still there, prepared with the same. */
    predicate StillPrepared(id: Id, p: Prepared)
      reads this
    {
      id in active && active[id].prepared == Some(p)
    }

    /** Writes the step journal of every session of a prepared state. */
    method ReplaceAll(id: Id, p: Prepared, ghost before: System, ghost actions: seq<Action>)
        returns (ok: bool, ghost longer: seq<Action>)
      requires TimeInv(Sys()) && Sys() == Run(engine, before, actions)
      requires phase == Replacing(id, p.state.sessions.Keys)
      requires ListedPrepared(Files(), id) && active[id].prepared == Some(p)
      modifies this
      ensures TimeInv(Sys()) && Sys() == Run(engine, before, longer) && KeepsOthers(id)
      ensures StillPrepared(id, p) && completed == old(completed) && rejected == old(rejected) && SameHistory()
      ensures ok ==> phase == Saving(id) && active == old(active)
      ensures ok ==> forall k :: k in p.state.sessions ==> k in steps && steps[k] == p.state.sessions[k].steps
      ensures !ok ==> phase == Idle
    {
      longer := actions;
      var todo := p.state.sessions.Keys;
      while todo != {}
        invariant TimeInv(Sys()) && Sys() == Run(engine, before, longer)
        invariant todo <= p.state.sessions.Keys && phase == Replacing(id, todo)
        invariant active == old(active) && completed == old(completed) && rejected == old(rejected) &&
                  booted == old(booted) && SameHistory()
        invariant forall k :: k in p.state.sessions && k !in todo ==>
                    k in steps && steps[k] == p.state.sessions[k].steps
        decreases todo
      {
        var fault := *;
        if fault {
          longer := Fault(id, before, longer);
          return false, longer;
        }
        var key :| key in todo;
        todo := todo - {key};
        steps := steps[key := p.state.sessions[key].steps];
        phase := Replacing(id, todo);
        longer := Record(before, longer, Replace(key));
      }
      phase := Saving(id);
      longer := Record(before, longer, Advance);
      ok := true;
    }

    /** Writes the state file of a prepared state. */
    method SaveState(id: Id, p: Prepared, ghost before: System, ghost actions: seq<Action>)
        returns (ok: bool, ghost longer: seq<Action>)
      requires TimeInv(Sys()) && Sys() == Run(engine, before, actions)
      requires phase == Saving(id)
      requires ListedPrepared(Files(), id) && active[id].prepared == Some(p)
      modifies this
      ensures TimeInv(Sys()) && Sys() == Run(engine, before, longer) && KeepsOthers(id)
      ensures StillPrepared(id, p) && completed == old(completed) && rejected == old(rejected) && SameHistory()
      ensures steps == old(steps)
      ensures ok ==> phase == Enqueuing(id, 0) && active == old(active)
      ensures ok ==> state == p.state && saved == Some(Strip(p.state))
      ensures !ok ==> phase == Idle
    {
      var fault := *;
      if fault {
        longer := Fault(id, before, actions);
        return false, longer;
      }
      saved := Some(Strip(p.state));
      state := p.state;
      phase := Enqueuing(id, 0);
      longer := Record(before, actions, Advance);
      ok := true;
    }

    method EnqueueOne(id: Id, p: Prepared, done: nat, ghost before: System, ghost actions: seq<Action>)
        returns (ghost longer: seq<Action>)
      requires TimeInv(Sys()) && Sys() == Run(engine, before, actions)
      requires phase == Enqueuing(id, done) && done < |p.jobs|
      requires ListedPrepared(Files(), id) && active[id].prepared == Some(p)
      modifies `spool, `enqueued, `phase
      ensures TimeInv(Sys()) && Sys() == Run(engine, before, longer)
      ensures phase == Enqueuing(id, done + 1)
      ensures enqueued == old(enqueued) + {p.jobs[done]}
    {
      spool := spool + {p.jobs[done]};
      enqueued := enqueued + {p.jobs[done]};
      phase := Enqueuing(id, done + 1);
      longer := Record(before, actions, Advance);
    }

    method EnqueueAll(id: Id, p: Prepared, ghost before: System, ghost actions: seq<Action>)
        returns (ok: bool, ghost longer: seq<Action>)
      requires TimeInv(Sys()) && Sys() == Run(engine, before, actions)
      requires phase == Enqueuing(id, 0)
      requires ListedPrepared(Files(), id) && active[id].prepared == Some(p)
      modifies this
      ensures TimeInv(Sys()) && Sys() == Run(engine, before, longer) && KeepsOthers(id)
      ensures StillPrepared(id, p) && completed == old(completed) && rejected == old(rejected)
      ensures SameStore() && log == old(log)
      ensures ok ==> phase == Completing(id) && active == old(active)
      ensures ok ==> enqueued == old(enqueued) + (set j | j in p.jobs)
      ensures old(enqueued) <= enqueued <= old(enqueued) + (set j | j in p.jobs)
      ensures !ok ==> phase == Idle
    {
      ok, longer := EnqueueJobs(id, p, before, actions);
      if ok {
        longer := EndEnqueuing(id, p, before, longer);
      } else {
        longer := Fault(id, before, longer);
      }
    }

    /** The loop over the jobs, which a fault may end early. */
    method EnqueueJobs(id: Id, p: Prepared, ghost before: System, ghost actions: seq<Action>)
        returns (ok: bool, ghost longer: seq<Action>)
      requires TimeInv(Sys()) && Sys() == Run(engine, before, actions)
      requires phase == Enqueuing(id, 0)
      requires ListedPrepared(Files(), id) && active[id].prepared == Some(p)
      modifies `spool, `enqueued, `phase
      ensures TimeInv(Sys()) && Sys() == Run(engine, before, longer)
      ensures phase.Enqueuing? && phase.id == id
      ensures ok ==> phase == Enqueuing(id, |p.jobs|) && enqueued == old(enqueued) + (set j | j in p.jobs)
      ensures old(enqueued) <= enqueued <= old(enqueued) + (set j | j in p.jobs)
    {
      longer := actions;
      var done := 0;
      while done < |p.jobs|
        invariant 0 <= done <= |p.jobs|
        invariant TimeInv(Sys()) && Sys() == Run(engine, before, longer)
        invariant phase == Enqueuing(id, done)
        invariant enqueued == old(enqueued) + FirstJobs(p, done)
      {
        var fault := *;
        if fault {
          return false, longer;
        }
        longer := EnqueueOne(id, p, done, before, longer);
        NextJob(p, done);
        done := done + 1;
      }
      assert p.jobs[..done] == p.jobs;
      return true, longer;
    }

    method EndEnqueuing(id: Id, p: Prepared, ghost before: System, ghost actions: seq<Action>)
        returns (ghost longer: seq<Action>)
      requires TimeInv(Sys()) && Sys() == Run(engine, before, actions)
      requires phase == Enqueuing(id, |p.jobs|)
      requires ListedPrepared(Files(), id) && active[id].prepared == Some(p)
      modifies `blocked, `phase
      ensures TimeInv(Sys()) && Sys() == Run(engine, before, longer) && phase == Completing(id)
    {
      blocked := None;
      phase := Completing(id);
      longer := Record(before, actions, Advance);
    }

    /** Materialises a prepared receipt: steps, then state, then jobs. Any of the writes may fail. */
    method Materialise(id: Id, p: Prepared, ghost before: System, ghost actions: seq<Action>)
        returns (ok: bool, ghost longer: seq<Action>)
      requires TimeInv(Sys()) && Sys() == Run(engine, before, actions)
      requires phase == Replacing(id, p.state.sessions.Keys)
      requires ListedPrepared(Files(), id) && active[id].prepared == Some(p)
      modifies this
      ensures TimeInv(Sys()) && Sys() == Run(engine, before, longer) && KeepsOthers(id)
      ensures StillPrepared(id, p) && completed == old(completed) && rejected == old(rejected) && log == old(log)
      ensures old(enqueued) <= enqueued <= old(enqueued) + (set j | j in p.jobs)
      ensures ok ==>
                && phase == Completing(id) && active == old(active)
                && state == p.state && saved == Some(AsSaved(p.state))
                && (forall k :: k in p.state.sessions ==> k in steps && steps[k] == p.state.sessions[k].steps)
                && enqueued == old(enqueued) + (set j | j in p.jobs)
      ensures !ok ==> phase == Idle
    {
      ok, longer := ReplaceAll(id, p, before, actions);
      if !ok {
        return;
      }
      ok, longer := SaveState(id, p, before, longer);
      if !ok {
        return;
      }
      ok, longer := EnqueueAll(id, p, before, longer);
    }

    /** Moves a materialised receipt to the completed ones. */
    method Complete(id: Id, ghost before: System, ghost actions: seq<Action>)
        returns (ok: bool, ghost longer: seq<Action>)
      requires TimeInv(Sys()) && Sys() == Run(engine, before, actions) && phase == Completing(id)
      modifies this
      ensures Resting() && Sys() == Run(engine, before, longer) && KeepsOthers(id)
      ensures SameStore() && SameHistory() && rejected == old(rejected)
      ensures ok ==> completed == old(completed)[id := old(active)[id]] && id !in active
      ensures !ok ==> id in active && active[id].prepared == old(active)[id].prepared
    {
      longer := actions;
      var fault := *;
      if fault {
        longer := Fault(id, before, longer);
        return false, longer;
      }
      completed := completed[id := active[id]];
      phase := Unlinking(id);
      longer := Record(before, longer, Advance);
      ok, longer := Unlink(id, before, longer);
    }

    /** Removes the active copy once there is another; that may fail, and the other copy stays. */
    method Unlink(id: Id, ghost before: System, ghost actions: seq<Action>)
        returns (ok: bool, ghost longer: seq<Action>)
      requires TimeInv(Sys()) && Sys() == Run(engine, before, actions) && phase == Unlinking(id) && id in active
      modifies this
      ensures Resting() && Sys() == Run(engine, before, longer) && KeepsOthers(id)
      ensures (ok <==> id !in active) && completed == old(completed) && rejected == old(rejected)
      ensures !ok ==> active[id].prepared == old(active)[id].prepared
      ensures SameStore() && SameHistory()
    {
      var fault := *;
      if fault {
        if id in completed {
          longer := Fault(id, before, actions);
        } else {
          phase := Idle;
          longer := Record(before, actions, Fail);
        }
        return false, longer;
      }
      active := active - {id};
      phase := Idle;
      longer := Record(before, actions, Advance);
      ok := true;
    }

    /** Materialises and completes a prepared receipt. */
    method Finish(id: Id, p: Prepared, ghost before: System, ghost actions: seq<Action>)
        returns (ok: bool, ghost longer: seq<Action>)
      requires TimeInv(Sys()) && Sys() == Run(engine, before, actions)
      requires phase == Replacing(id, p.state.sessions.Keys)
      requires ListedPrepared(Files(), id) && active[id].prepared == Some(p)
      modifies this
      ensures Resting() && Sys() == Run(engine, before, longer) && KeepsOthers(id)
      ensures rejected == old(rejected) && log == old(log)
      ensures ok ==> Gone(id) && id in completed
      ensures ok ==> Books() == Ledger(p.state, old(enqueued) + (set j | j in p.jobs), old(completed).Keys + {id},
                                       old(rejected).Keys)
      ensures ok ==> saved == Some(AsSaved(p.state)) && forall k :: k in p.state.sessions ==>
                       k in steps && steps[k] == p.state.sessions[k].steps
      ensures !ok ==> StillPrepared(id, p) && old(enqueued) <= enqueued <= old(enqueued) + (set j | j in p.jobs)
    {
      ok, longer := Materialise(id, p, before, actions);
      if ok {
        ok, longer := Complete(id, before, longer);
      }
    }

    /**
     * Handles one receipt. If nothing fails, memory, state file, journals and spool have what the engine answered, or
     * the receipt is rejected and they are as before; a fault leaves it prepared with that answer.
     */
    method Process(id: Id, env: nat, ghost before: System, ghost actions: seq<Action>)
        returns (ok: bool, ghost longer: seq<Action>)
      requires Resting() && Sys() == Run(engine, before, actions) && CanPick(Sys(), id)
      modifies this
      ensures Resting() && Sys() == Run(engine, before, longer) && KeepsOthers(id)
      ensures ok ==> Gone(id) && Books() == old(Handled(engine, Books(), active[id], env))
      ensures old(PreparedBy(engine, env, state, active[id])).Some? ==>
                HasPrepared(id, env, old(PreparedBy(engine, env, state, active[id])).value, ok)
      ensures old(PreparedBy(engine, env, state, active[id])).None? ==>
                HasRefused(id, old(MustWait(engine, Books(), active[id], env)), ok)
      ensures ok && old(active[id].prepared).Some? ==> id in completed
    {
      ghost var r, was := active[id], Books();
      assert r.id == id by { assert Marked(Files(), id); }
      var begun;
      begun, longer := Begin(id, env, before, actions);
      match begun
      case Success(p) =>
        HandledIfPrepared(engine, was, r, env, p);
        ok, longer := Finish(id, p, before, longer);
      case Failure(error) =>
        ok := error == HookRejected;
        if ok {
          HandledIfRejected(engine, was, r, env);
          ok, longer := Unlink(id, before, longer);
        }
    }

    /** State, journals and jobs are those the receipt is prepared with; or, after a fault, it is still prepared so. */
    twostate predicate HasPrepared(id: Id, env: nat, p: Prepared, ok: bool)
      requires old(id in active)
      reads this
    {
      && log == old(LogAfter(id, env)) && rejected == old(rejected)
      && (ok ==> saved == Some(AsSaved(p.state)) && forall k :: k in p.state.sessions ==>
            k in steps && steps[k] == p.state.sessions[k].steps)
      && (!ok ==> StillPrepared(id, p) && old(enqueued) <= enqueued <= old(enqueued) + (set j | j in p.jobs))
    }

    /** Nothing is committed; the receipt is rejected, or is tried again later. */
    twostate predicate HasRefused(id: Id, waits: bool, ok: bool)
      requires old(id in active)
      reads this
    {
      && SameStore() && SameHistory() && completed == old(completed)
      && (if waits then !ok && Noted(id) && rejected == old(rejected) else id in rejected)
    }

    /** The receipts still listed are `rest`, in the order of their event times. */
    ghost predicate Remaining(rest: seq<Id>)
      reads this
    {
      Ascending(rest) && forall id :: Listed(Files(), id) <==> id in rest
    }

    /** No earlier receipt is in the way of the first one: one that blocks is prepared, and so the first itself. */
    lemma FirstIsPickable(rest: seq<Id>)
      requires Resting() && booted && rest != [] && Remaining(rest)
      ensures CanPick(Sys(), rest[0])
    {
      var id := rest[0];
      assert Listed(Files(), id);
      forall other | Listed(Files(), other) ensures active[id].eventTime <= active[other].eventTime {
        var i :| 0 <= i < |rest| && rest[i] == other;
      }
      if blocked.Some? {
        assert InOrder(Files(), blocked.value, id);
      }
    }

    predicate Gone(id: Id)
      reads this
    {
      id !in active && (id in completed || id in rejected)
    }

    /** From the given one on, the receipts are listed and as they were. */
    ghost predicate Untouched(ids: seq<Id>, rs: seq<Receipt>, from: nat)
      requires |ids| == |rs|
      reads this
    {
      forall i :: from <= i < |ids| ==> Listed(Files(), ids[i]) && active[ids[i]] == rs[i]
    }

    method ProcessFirst(rest: seq<Id>, env: nat, ghost rs: seq<Receipt>, ghost before: System,
        ghost actions: seq<Action>)
        returns (ok: bool, ghost longer: seq<Action>)
      requires Resting() && booted && Sys() == Run(engine, before, actions)
      requires rest != [] && Remaining(rest) && |rest| == |rs| && Untouched(rest, rs, 0)
      modifies this
      ensures Resting() && booted && Sys() == Run(engine, before, longer)
      ensures ok ==> Remaining(rest[1..]) && Gone(rest[0])
      ensures forall id :: old(Gone(id)) ==> Gone(id)
      ensures ok ==> Books() == Handled(engine, old(Books()), rs[0], env)
      ensures Untouched(rest, rs, 1)
      ensures MustWait(engine, old(Books()), rs[0], env) ==>
                && !ok && Books() == old(Books()) && Listed(Files(), rest[0])
                && active[rest[0]] == rs[0].(failures := rs[0].failures + 1)
    {
      FirstIsPickable(rest);
      assert Listed(Files(), rest[0]) && active[rest[0]] == rs[0];
      ok, longer := Process(rest[0], env, before, actions);
      forall i | 0 < i < |rest| ensures Listed(Files(), rest[i]) && active[rest[i]] == rs[i] {
        assert rest[i] in rest && rest[i] != rest[0];
        assert old(Listed(Files(), rest[i]) && active[rest[i]] == rs[i]);
      }
      if ok {
        forall id ensures Listed(Files(), id) <==> id in rest[1..] {
          assert id in rest <==> id == rest[0] || id in rest[1..];
        }
      }
    }

    ghost function ReceiptsOf(ids: seq<Id>): seq<Receipt>
      requires forall i :: 0 <= i < |ids| ==> ids[i] in active
      reads this
    {
      var receipts := active;
      seq(|ids|, i requires 0 <= i < |ids| && ids[i] in receipts => receipts[ids[i]])
    }

    /**
     * What a pass has done under the environments it has met: the first receipts are handled one after another, and one
     * that has to wait, or fails, ends it; nothing after that one is touched.
     */
    ghost predicate Passed(was: Ledger, ids: seq<Id>, rs: seq<Receipt>, envs: seq<nat>, finished: bool)
      requires |ids| == |rs|
      reads this
    {
      var n := if finished then |envs| else |envs| - 1;
      && 0 <= n <= |envs| <= |rs| && (finished ==> n == |rs|)
      && (forall i :: 0 <= i < n ==> Gone(ids[i]))
      && Untouched(ids, rs, |envs|)
      && var l := HandledAll(engine, was, rs[..n], envs[..n]);
         && (finished ==> Books() == l)
         && (!finished && MustWait(engine, l, rs[n], envs[n]) ==>
               && Books() == l && Listed(Files(), ids[n])
               && active[ids[n]] == rs[n].(failures := rs[n].failures + 1))
    }

    /** The same while the pass goes on. */
    ghost predicate Passing(was: Ledger, ids: seq<Id>, rs: seq<Receipt>, envs: seq<nat>)
      requires |ids| == |rs|
      reads this
    {
      && |envs| <= |rs| && Remaining(ids[|envs|..]) && AllGone(ids, |envs|) && Untouched(ids, rs, |envs|)
      && Books() == HandledAll(engine, was, rs[..|envs|], envs)
    }

    ghost predicate AllGone(ids: seq<Id>, n: nat)
      requires n <= |ids|
      reads this
    {
      forall i :: 0 <= i < n ==> Gone(ids[i])
    }

    lemma PassGoesOn(was: Ledger, ids: seq<Id>, rs: seq<Receipt>, envs: seq<nat>, env: nat)
      requires |envs| < |ids| == |rs| && Remaining(ids[|envs|..][1..])
      requires AllGone(ids, |envs|) && Gone(ids[|envs|]) && Untouched(ids, rs, |envs| + 1)
      requires Books() == Handled(engine, HandledAll(engine, was, rs[..|envs|], envs), rs[|envs|], env)
      ensures Passing(was, ids, rs, envs + [env])
    {
      HandledSnoc(engine, was, rs[..|envs|], envs, rs[|envs|], env);
      assert rs[..|envs| + 1] == rs[..|envs|] + [rs[|envs|]];
      assert ids[|envs|..][1..] == ids[|envs| + 1..];
    }

    lemma PassStops(was: Ledger, ids: seq<Id>, rs: seq<Receipt>, envs: seq<nat>, env: nat, l: Ledger)
      requires |envs| < |ids| == |rs| && AllGone(ids, |envs|) && Untouched(ids, rs, |envs| + 1)
      requires l == HandledAll(engine, was, rs[..|envs|], envs)
      requires MustWait(engine, l, rs[|envs|], env) ==>
                 && Books() == l && Listed(Files(), ids[|envs|])
                 && active[ids[|envs|]] == rs[|envs|].(failures := rs[|envs|].failures + 1)
      ensures Passed(was, ids, rs, envs + [env], false)
    {
      assert (envs + [env])[..|envs|] == envs;
    }

    lemma RestUntouched(ids: seq<Id>, rs: seq<Receipt>, next: nat, from: nat)
      requires next + from <= |ids| == |rs|
      ensures Untouched(ids[next..], rs[next..], from) <==> Untouched(ids, rs, next + from)
    {
      if Untouched(ids[next..], rs[next..], from) {
        forall i | next + from <= i < |ids| ensures Listed(Files(), ids[i]) && active[ids[i]] == rs[i] {
          assert ids[i] == ids[next..][i - next] && rs[i] == rs[next..][i - next];
        }
      }
    }

    /** Handles the next receipt of a pass. */
    method PassOn(ids: seq<Id>, env: nat, ghost was: Ledger, ghost rs: seq<Receipt>, ghost envs: seq<nat>, next: nat,
        ghost before: System, ghost actions: seq<Action>)
        returns (ok: bool, ghost longer: seq<Action>)
      requires Resting() && booted && Sys() == Run(engine, before, actions)
      requires next == |envs| < |ids| == |rs| && Passing(was, ids, rs, envs)
      modifies this
      ensures Resting() && booted && Sys() == Run(engine, before, longer)
      ensures ok ==> Passing(was, ids, rs, envs + [env])
      ensures !ok ==> Passed(was, ids, rs, envs + [env], false)
    {
      ghost var l := Books();
      RestUntouched(ids, rs, next, 0);
      ok, longer := ProcessFirst(ids[next..], env, rs[next..], before, actions);
      RestUntouched(ids, rs, next, 1);
      assert forall i :: 0 <= i < next ==> old(Gone(ids[i]));
      if ok {
        PassGoesOn(was, ids, rs, envs, env);
      } else {
        PassStops(was, ids, rs, envs, env, l);
      }
    }

    lemma PassEnds(was: Ledger, ids: seq<Id>, rs: seq<Receipt>, envs: seq<nat>)
      requires |ids| == |rs| == |envs| && Passing(was, ids, rs, envs)
      ensures Passed(was, ids, rs, envs, true)
    {
      assert rs[..|envs|] == rs && envs[..|envs|] == envs;
    }

    lemma PassBegins(ids: seq<Id>)
      requires Remaining(ids)
      ensures Passing(Books(), ids, ReceiptsOf(ids), [])
    {
      assert ids[0..] == ids;
      forall i | 0 <= i < |ids| ensures Listed(Files(), ids[i]) {
        assert ids[i] in ids;
      }
    }

    /**
     * One pass over the receipts present when it starts, earliest first. It is a run of the state machine; unless some
     * receipt has to be tried again, every one of them ends up completed or rejected, by what the engine answered.
     */
    method Drain() returns (finished: bool, ghost actions: seq<Action>, ghost ids: seq<Id>, ghost envs: seq<nat>)
      requires Resting() && booted
      modifies this
      ensures Resting() && booted && Sys() == Run(engine, old(Sys()), actions)
      ensures old(Remaining(ids)) && Passed(old(Books()), ids, old(ReceiptsOf(ids)), envs, finished)
      ensures finished ==> forall id :: old(Listed(Files(), id)) ==> Gone(id)
    {
      actions, envs := [], [];
      var todo := List();
      ids := todo;
      PassBegins(todo);
      ghost var before, was, rs := Sys(), Books(), ReceiptsOf(todo);
      var next := 0;
      while next < |todo|
        invariant 0 <= next == |envs| <= |todo|
        invariant Resting() && booted && Sys() == Run(engine, before, actions)
        invariant Passing(was, todo, rs, envs)
      {
        var env: nat := *;
        var ok;
        ok, actions := PassOn(todo, env, was, rs, envs, next, before, actions);
        envs := envs + [env];
        if !ok {
          return false, actions, ids, envs;
        }
        next := next + 1;
      }
      PassEnds(was, todo, rs, envs);
      return true, actions, ids, envs;
    }

    /** Finishes the next receipt of an earlier process, if it had been prepared. */
    method RestoreFirst(rest: seq<Id>, ghost before: System, ghost actions: seq<Action>)
        returns (ok: bool, ghost longer: seq<Action>)
      requires Resting() && !booted && Sys() == Run(engine, before, actions)
      requires rest != [] && forall id :: ListedPrepared(Files(), id) ==> id in rest
      modifies this
      ensures Resting() && !booted && Sys() == Run(engine, before, longer)
      ensures ok ==> forall id :: ListedPrepared(Files(), id) ==> id in rest[1..]
    {
      var id := rest[0];
      longer := actions;
      ok := true;
      if id in active && id !in completed && active[id].prepared.Some? {
        PreparedIsPickable(id);
        ok, longer := Process(id, 0, before, longer);
      }
      if ok {
        forall other | ListedPrepared(Files(), other) ensures other in rest[1..] {
          assert other != id && Listed(Files(), other);
          assert old(ListedPrepared(Files(), other));
        }
      }
    }

    /** Finishes what an earlier process had prepared; an error ends the start of the daemon. */
    method RestorePrepared() returns (ok: bool, ghost actions: seq<Action>)
      requires Resting() && !booted
      modifies this
      ensures Resting() && !booted && Sys() == Run(engine, old(Sys()), actions)
      ensures ok ==> NothingPrepared(Files())
    {
      actions := [];
      var ids := List();
      var next := 0;
      while next < |ids|
        invariant 0 <= next <= |ids|
        invariant Resting() && !booted && Sys() == Run(engine, old(Sys()), actions)
        invariant forall id :: ListedPrepared(Files(), id) ==> id in ids[next..]
      {
        var done;
        done, actions := RestoreFirst(ids[next..], old(Sys()), actions);
        if !done {
          return false, actions;
        }
        assert ids[next..][1..] == ids[next + 1..];
        next := next + 1;
      }
      return true, actions;
    }

    /** Starting up: restore, then load. */
    method Initialize(env: nat) returns (ok: bool, ghost actions: seq<Action>)
      requires Resting() && !booted
      modifies this
      ensures Resting() && Sys() == Run(engine, old(Sys()), actions)
      ensures ok <==> booted
      ensures ok ==> NothingPrepared(Files()) && state == Loaded(Files()) && lastEventTime >= state.lastEventTime
      ensures ok ==> forall id :: Listed(Files(), id) ==> active[id].eventTime <= lastEventTime
    {
      ok, actions := RestorePrepared();
      if ok {
        actions := LoadState(env, old(Sys()), actions);
      }
    }

    method LoadState(env: nat, ghost before: System, ghost actions: seq<Action>) returns (ghost longer: seq<Action>)
      requires Resting() && !booted && NothingPrepared(Files()) && Sys() == Run(engine, before, actions)
      modifies `state, `saved, `lastEventTime, `booted, `blocked, `log
      ensures Resting() && booted && Sys() == Run(engine, before, longer)
      ensures state == Loaded(Files()) && lastEventTime >= state.lastEventTime
    {
      ghost var was := Sys();
      SaveBackfilled(env);
      LoadMeans(engine, was, env);
      StartedReadsBack(engine, was.disk, env);
      longer := Record(before, actions, Load(env));
    }

    /** Closes the attempts left open in what is loaded, and saves that if it changes anything. */
    method SaveBackfilled(env: nat)
      modifies `state, `saved, `lastEventTime, `booted, `blocked, `log
      ensures state == Backfilled(engine, env, Loaded(old(Files()))) && Files() == Started(old(Files()), state)
      ensures lastEventTime == LatestListed(old(Files()), active.Keys, Loaded(old(Files())).lastEventTime)
      ensures booted && blocked == None && log == old(log) + [Restart(env)]
    {
      var loaded := Loaded(Files());
      lastEventTime := Latest(loaded.lastEventTime);
      state := Backfilled(engine, env, loaded);
      if state != loaded {
        saved := Some(Strip(state));
      }
      booted, blocked := true, None;
      log := log + [Restart(env)];
    }

    lemma PreparedIsPickable(id: Id)
      requires Resting() && !booted && ListedPrepared(Files(), id)
      ensures CanPick(Sys(), id)
    {
      forall other | ListedPrepared(Files(), other) ensures active[id].eventTime <= active[other].eventTime {
        assert InOrder(Files(), id, other);
      }
      if blocked.Some? {
        PreparedUnique(Files(), blocked.value, id);
      }
    }

    method Latest(least: int) returns (time: int)
      ensures time == LatestListed(Files(), active.Keys, least)
    {
      time := least;
      var todo := active.Keys;
      while todo != {}
        invariant todo <= active.Keys
        invariant time >= least
        invariant forall id :: Listed(Files(), id) && id !in todo ==> active[id].eventTime <= time
        invariant time == least || exists id :: Listed(Files(), id) && active[id].eventTime == time
        decreases todo
      {
        var id :| id in todo;
        todo := todo - {id};
        if id !in completed {
          time := Max(time, active[id].eventTime);
        }
      }
    }
  }
}
