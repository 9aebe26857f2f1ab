/** The receiver's crash-safe capture queue as a state machine. */
module Receipts {
  // Every durable write is one step and the process may die between any two of them. The interpretation of a
  // hook is a parameter: it may depend on anything the daemon observes at the time, which the `env` of a step
  // stands for.

  import opened Wrappers

  type Id(==, !new)
  type Key(==, !new)   // a session
  type Step(==, !new)  // one captured step, serialised
  type Job(==, !new)   // the identity of a spool job

  datatype Session = Session(active: bool, steps: seq<Step>, data: string)

  datatype State = State(lastEventTime: int, sessions: map<Key, Session>, counters: string)

  const EMPTY_STATE := State(-1, map[], "")

  datatype Prepared = Prepared(state: State, jobs: seq<Job>)

  /** An accepted receipt has nothing prepared yet. */
  datatype Receipt = Receipt(id: Id, fingerprint: string, eventTime: int, prepared: Option<Prepared>, failures: nat)

  // ---- Hook interpretation ----

  datatype Outcome = Ok(sessions: map<Key, Session>, counters: string, jobs: seq<Job>) | Reject | Retry

  /**
   * What is not modelled: how a hook, or a heartbeat, changes sessions, and what a start makes of each of them; that
   * leaves steps and event times alone.
   */
  datatype Engine = Engine(
    ingest: (nat, State, Id, string, int) -> Outcome,
    heartbeat: (nat, State) -> State,
    backfill: (nat, Key, Session) -> string)

  datatype Interpretation = Committed(prepared: Prepared) | Rejected | Retried

  function Max(a: int, b: int): int {
    if a < b then b else a
  }

  function Interpret(e: Engine, env: nat, state: State, r: Receipt): Interpretation {
    var started := state.(lastEventTime := Max(state.lastEventTime, r.eventTime));
    match e.ingest(env, started, r.id, r.fingerprint, r.eventTime)
    case Ok(sessions, counters, jobs) => Committed(Prepared(State(started.lastEventTime, sessions, counters), jobs))
    case Reject => Rejected
    case Retry => Retried
  }

  /** What a heartbeat makes of the state. */
  function Beaten(e: Engine, env: nat, state: State): State {
    var next := e.heartbeat(env, state);
    next.(lastEventTime := Max(state.lastEventTime, next.lastEventTime))
  }

  /** A start closes the attempts that the sessions left open. */
  function Backfilled(e: Engine, env: nat, state: State): State {
    state.(sessions := map k | k in state.sessions :: state.sessions[k].(data := e.backfill(env, k, state.sessions[k])))
  }

  // ---- Durable state ----

  datatype SavedSession = SavedSession(active: bool, data: string)

  /** The state file: sessions without their steps, which live in one journal per session. */
  datatype Saved = Saved(lastEventTime: int, sessions: map<Key, SavedSession>, counters: string)

  datatype Disk = Disk(
    active: map<Id, Receipt>,
    completed: map<Id, Receipt>,
    rejected: map<Id, Receipt>,
    steps: map<Key, seq<Step>>,
    saved: Option<Saved>,
    spool: set<Job>)

  function Strip(state: State): Saved {
    Saved(state.lastEventTime,
          map k | k in state.sessions :: SavedSession(state.sessions[k].active, state.sessions[k].data),
          state.counters)
  }

  /** Loading forgets which sessions were active and reads each session's steps from its journal. */
  function Loaded(d: Disk): State {
    match d.saved
    case None => EMPTY_STATE
    case Some(saved) =>
      State(saved.lastEventTime,
            map k | k in saved.sessions ::
              Session(false, if k in d.steps then d.steps[k] else [], saved.sessions[k].data),
            saved.counters)
  }

  function Reload(state: State): State {
    state.(sessions := map k | k in state.sessions :: state.sessions[k].(active := false))
  }

  /** An active receipt that has a completed copy is a leftover, and is ignored. */
  predicate Listed(d: Disk, id: Id) {
    id in d.active && id !in d.completed
  }

  predicate ListedPrepared(d: Disk, id: Id) {
    Listed(d, id) && d.active[id].prepared.Some?
  }

  predicate NothingPrepared(d: Disk) {
    forall id :: id in d.active ==> !ListedPrepared(d, id)
  }

  // ---- The process ----

  datatype Phase =
    | Idle
    | Replacing(id: Id, todo: set<Key>)
    | Saving(id: Id)
    | Enqueuing(id: Id, done: nat)
    | Completing(id: Id)
    | Unlinking(id: Id)

  datatype Memory =
    | Down
    | Up(booted: bool, state: State, lastEventTime: int, blocked: Option<Id>, phase: Phase)

  datatype Entry = Commit(env: nat, receipt: Receipt) | Restart(env: nat) | Beat(env: nat)

  /** `log` and `enqueued` are history: what was committed, and every job ever put into the spool. */
  datatype System = System(disk: Disk, mem: Memory, log: seq<Entry>, enqueued: set<Job>)

  const INITIAL := System(Disk(map[], map[], map[], map[], None, {}), Down, [], {})

  datatype Action =
    | Accept(id: Id, fingerprint: string, now: int, stored: bool)
    | Pick(id: Id, env: nat, throws: bool)
    | Replace(key: Key)
    | Advance
    | Fail
    | Heartbeat(env: nat)
    | Deliver(job: Job)
    | Crash
    | Boot
    | Load(env: nat)

  predicate Known(d: Disk, id: Id) {
    id in d.active || id in d.completed || id in d.rejected
  }

  function AcceptTime(mem: Memory, now: int): int
    requires mem.Up?
  {
    Max(now, Max(mem.lastEventTime + 1, mem.state.lastEventTime + 1))
  }

  /** The receipt is the first one in event-time order among those the current pass looks at. */
  predicate IsFirst(d: Disk, booted: bool, id: Id) {
    && Listed(d, id)
    && (booted || d.active[id].prepared.Some?)
    && forall other :: other in d.active && Listed(d, other) && (booted || d.active[other].prepared.Some?) ==>
         d.active[id].eventTime <= d.active[other].eventTime
  }

  predicate CanPick(s: System, id: Id) {
    && s.mem.Up?
    && s.mem.phase == Idle
    && (s.mem.blocked == None || s.mem.blocked == Some(id))
    && IsFirst(s.disk, s.mem.booted, id)
  }

  function Failed(d: Disk, id: Id): Disk
    requires id in d.active
  {
    d.(active := d.active[id := d.active[id].(failures := d.active[id].failures + 1)])
  }

  function Picked(e: Engine, s: System, id: Id, env: nat, throws: bool): System
    requires CanPick(s, id)
  {
    var r := s.disk.active[id];
    var mem := s.mem.(lastEventTime := Max(s.mem.lastEventTime, r.eventTime));
    match r.prepared
    case Some(p) => s.(mem := mem.(blocked := Some(id), phase := Replacing(id, p.state.sessions.Keys)))
    case None =>
      match Interpret(e, env, s.mem.state, r)
      case Committed(p) =>
        var committed := s.(disk := s.disk.(active := s.disk.active[id := r.(prepared := Some(p))]),
                            log := s.log + [Commit(env, r)]);
        if throws then committed.(disk := Failed(committed.disk, id), mem := mem)
        else committed.(mem := mem.(state := p.state, blocked := Some(id),
            phase := Replacing(id, p.state.sessions.Keys)))
      case Rejected =>
        var d := Failed(s.disk, id);
        s.(disk := d.(rejected := d.rejected[id := d.active[id]]), mem := mem.(phase := Unlinking(id)))
      case Retried =>
        s.(disk := Failed(s.disk, id), mem := mem)
  }

  function Advanced(s: System): System
    requires s.mem.Up?
  {
    match s.mem.phase
    case Idle => s
    case Replacing(id, todo) =>
      if todo == {} then s.(mem := s.mem.(phase := Saving(id))) else s
    case Saving(id) =>
      if ListedPrepared(s.disk, id) then
        var state := s.disk.active[id].prepared.value.state;
        s.(disk := s.disk.(saved := Some(Strip(state))), mem := s.mem.(state := state, phase := Enqueuing(id, 0)))
      else s
    case Enqueuing(id, done) =>
      if !ListedPrepared(s.disk, id) then s
      else
        var jobs := s.disk.active[id].prepared.value.jobs;
        if done < |jobs| then
          s.(disk := s.disk.(spool := s.disk.spool + {jobs[done]}),
             mem := s.mem.(phase := Enqueuing(id, done + 1)),
             enqueued := s.enqueued + {jobs[done]})
        else s.(mem := s.mem.(blocked := None, phase := Completing(id)))
    case Completing(id) =>
      if id in s.disk.active then
        s.(disk := s.disk.(completed := s.disk.completed[id := s.disk.active[id]]),
            mem := s.mem.(phase := Unlinking(id)))
      else s
    case Unlinking(id) =>
      s.(disk := s.disk.(active := s.disk.active - {id}), mem := s.mem.(phase := Idle))
  }

  /** A start saves the state only if it has changed it. */
  function Started(d: Disk, state: State): Disk {
    if state == Loaded(d) then d else d.(saved := Some(Strip(state)))
  }

  ghost function LatestListed(d: Disk, ids: set<Id>, least: int): int
    ensures LatestListed(d, ids, least) >= least
    ensures forall id :: id in ids && Listed(d, id) ==> LatestListed(d, ids, least) >= d.active[id].eventTime
    ensures LatestListed(d, ids, least) == least ||
            exists id :: id in ids && Listed(d, id) && d.active[id].eventTime == LatestListed(d, ids, least)
  {
    if ids == {} then least
    else
      var id :| id in ids;
      assert forall other :: other in ids ==> other == id || other in ids - {id};
      var rest := LatestListed(d, ids - {id}, least);
      if Listed(d, id) then Max(d.active[id].eventTime, rest) else rest
  }

  /** One step; an action that is not possible leaves the system alone. */
  ghost function Apply(e: Engine, s: System, a: Action): System {
    match a
    case Accept(id, fingerprint, now, stored) =>
      if s.mem.Up? && s.mem.booted && !Known(s.disk, id) then
        var time := AcceptTime(s.mem, now);
        var t := s.(mem := s.mem.(lastEventTime := time));
        if stored then
          t.(disk := s.disk.(active := s.disk.active[id := Receipt(id, fingerprint, time, None, 0)]))
        else t
      else s
    case Pick(id, env, throws) => if CanPick(s, id) then Picked(e, s, id, env, throws) else s
    case Replace(key) =>
      if s.mem.Up? && s.mem.phase.Replacing? && key in s.mem.phase.todo && ListedPrepared(s.disk, s.mem.phase.id) &&
         key in s.disk.active[s.mem.phase.id].prepared.value.state.sessions then
        var session := s.disk.active[s.mem.phase.id].prepared.value.state.sessions[key];
        s.(disk := s.disk.(steps := s.disk.steps[key := session.steps]),
           mem := s.mem.(phase := s.mem.phase.(todo := s.mem.phase.todo - {key})))
      else s
    case Advance => if s.mem.Up? then Advanced(s) else s
    case Fail =>
      if s.mem.Up? && !s.mem.phase.Idle? then
        var id := s.mem.phase.id;
        var recorded := id in s.disk.active &&
            !(s.mem.phase.Unlinking? && id in s.disk.rejected && id !in s.disk.completed);
        s.(disk := if recorded then Failed(s.disk, id) else s.disk,
           mem := s.mem.(phase := Idle))
      else s
    case Heartbeat(env) =>
      if s.mem.Up? && s.mem.booted && s.mem.blocked == None then
        var state := Beaten(e, env, s.mem.state);
        s.(disk := s.disk.(saved := Some(Strip(state))), mem := s.mem.(state := state), log := s.log + [Beat(env)])
      else s
    case Deliver(job) => s.(disk := s.disk.(spool := s.disk.spool - {job}))
    case Crash => s.(mem := Down)
    case Boot => if s.mem.Down? then s.(mem := Up(false, EMPTY_STATE, -1, None, Idle)) else s
    case Load(env) =>
      if s.mem.Up? && !s.mem.booted && s.mem.phase == Idle && NothingPrepared(s.disk) then
        var state := Backfilled(e, env, Loaded(s.disk));
        s.(disk := Started(s.disk, state),
           mem := Up(true, state, LatestListed(s.disk, s.disk.active.Keys, state.lastEventTime), None, Idle),
           log := s.log + [Restart(env)])
      else s
  }

  ghost function Run(e: Engine, s: System, actions: seq<Action>): System
    decreases |actions|
  {
    if actions == [] then s else Run(e, Apply(e, s, actions[0]), actions[1..])
  }

  // ---- The reference: apply each committed receipt once, in order ----

  /** The state that follows from what was committed, and the steps that receipts have put into the journals. */
  datatype Reference = Reference(state: State, steps: map<Key, seq<Step>>)

  function StepsAt(steps: map<Key, seq<Step>>, k: Key): seq<Step> {
    if k in steps then steps[k] else []
  }

  function StepsOf(state: State): map<Key, seq<Step>> {
    map k | k in state.sessions :: state.sessions[k].steps
  }

  /** What a restart makes of it: no session is active, and its steps are those of its journal. */
  function Reread(ref: Reference): State {
    ref.state.(sessions :=
      map k | k in ref.state.sessions :: Session(false, StepsAt(ref.steps, k), ref.state.sessions[k].data))
  }

  function Effect(e: Engine, ref: Reference, entry: Entry): Reference {
    match entry
    case Commit(env, r) =>
      var i := Interpret(e, env, ref.state, r);
      if i.Committed? then Reference(i.prepared.state, ref.steps + StepsOf(i.prepared.state)) else ref
    case Restart(env) => ref.(state := Backfilled(e, env, Reread(ref)))
    case Beat(env) => ref.(state := Beaten(e, env, ref.state))
  }

  function Refer(e: Engine, log: seq<Entry>): Reference {
    if log == [] then Reference(EMPTY_STATE, map[]) else Effect(e, Refer(e, log[..|log| - 1]), log[|log| - 1])
  }

  function Fold(e: Engine, log: seq<Entry>): State {
    Refer(e, log).state
  }

  /** Every job of every committed receipt. */
  function FoldJobs(e: Engine, log: seq<Entry>): set<Job> {
    if log == [] then {}
    else
      var before, entry := log[..|log| - 1], log[|log| - 1];
      FoldJobs(e, before) +
      if entry.Commit? then
        var i := Interpret(e, entry.env, Fold(e, before), entry.receipt);
        if i.Committed? then set j | j in i.prepared.jobs else {}
      else {}
  }

  function Commits(log: seq<Entry>): seq<Receipt> {
    if log == [] then []
    else Commits(log[..|log| - 1]) + if log[|log| - 1].Commit? then [log[|log| - 1].receipt] else []
  }

  // ---- Event times: these hold in every run ----

  function SavedTime(d: Disk): int {
    if d.saved.Some? then d.saved.value.lastEventTime else -1
  }

  /** What any two receipts owe each other. */
  predicate InOrder(d: Disk, i: Id, j: Id) {
    && (Listed(d, i) && Listed(d, j) && i != j ==> d.active[i].eventTime != d.active[j].eventTime)
    && (ListedPrepared(d, i) && Listed(d, j) ==> d.active[i].eventTime <= d.active[j].eventTime)
    && (Listed(d, i) && j in d.completed ==> d.completed[j].eventTime < d.active[i].eventTime)
    && (i in d.completed && j in d.completed && i != j ==> d.completed[i].eventTime != d.completed[j].eventTime)
    && (ListedPrepared(d, i) && j in d.completed ==>
          d.completed[j].eventTime <= d.active[i].prepared.value.state.lastEventTime)
  }

  /** The saved state, and the one a prepared receipt will save, are at least as late as what was committed. */
  predicate Marked(d: Disk, i: Id) {
    && (i in d.active ==> d.active[i].id == i)
    && (i in d.completed ==> d.completed[i].id == i && d.completed[i].eventTime <= SavedTime(d))
    && (ListedPrepared(d, i) ==> d.active[i].eventTime <= d.active[i].prepared.value.state.lastEventTime)
  }

  ghost predicate Ordered(d: Disk) {
    (forall i, j :: InOrder(d, i, j)) && (forall i :: Marked(d, i))
  }

  predicate Working(phase: Phase, id: Id) {
    (phase.Replacing? || phase.Saving? || phase.Enqueuing?) && phase.id == id
  }

  /** The state file and the memory have caught up with a prepared receipt. */
  predicate Reached(s: System, id: Id) {
    && s.mem.Up?
    && ListedPrepared(s.disk, id)
    && s.disk.active[id].prepared.value.state.lastEventTime <= SavedTime(s.disk)
    && s.disk.active[id].prepared.value.state.lastEventTime <= s.mem.state.lastEventTime
  }

  ghost predicate MemoryTimes(s: System) {
    s.mem.Up? ==>
      && (forall id :: Working(s.mem.phase, id) ==> ListedPrepared(s.disk, id) && s.mem.blocked == Some(id))
      && (s.mem.blocked.Some? ==> ListedPrepared(s.disk, s.mem.blocked.value))
      && (s.mem.phase.Enqueuing? || s.mem.phase.Completing? ==> Reached(s, s.mem.phase.id))
      && (s.mem.phase.Completing? || s.mem.phase.Unlinking? ==> s.mem.blocked == None)
      && (s.mem.phase.Unlinking? ==> Leaving(s.disk, s.mem.phase.id))
      && (s.mem.booted ==>
            && (forall i :: Listed(s.disk, i) ==> s.disk.active[i].eventTime <= s.mem.lastEventTime)
            && (forall c :: c in s.disk.completed ==> s.disk.completed[c].eventTime <= s.mem.state.lastEventTime))
  }

  /** What is being unlinked has its copy elsewhere. */
  predicate Leaving(d: Disk, id: Id) {
    id in d.completed || (id in d.rejected && !ListedPrepared(d, id))
  }

  ghost predicate TimeInv(s: System) {
    Ordered(s.disk) && MemoryTimes(s)
  }

  lemma PreparedUnique(d: Disk, i: Id, j: Id)
    requires Ordered(d) && ListedPrepared(d, i) && ListedPrepared(d, j)
    ensures i == j
  {
    assert InOrder(d, i, j) && InOrder(d, j, i);
  }

  /** Same receipts, up to what a failure records. */
  ghost predicate SameReceipts(d: Disk, f: Disk) {
    && f.active.Keys == d.active.Keys
    && f.completed == d.completed
    && f.saved == d.saved
    && forall i :: i in d.active ==>
         && f.active[i].id == d.active[i].id
         && f.active[i].eventTime == d.active[i].eventTime
         && f.active[i].prepared == d.active[i].prepared
  }

  lemma SameReceiptsKeepOrder(d: Disk, f: Disk)
    requires SameReceipts(d, f) && Ordered(d)
    ensures Ordered(f)
    ensures forall i :: (Listed(f, i) <==> Listed(d, i)) && (ListedPrepared(f, i) <==> ListedPrepared(d, i))
  {
    assert forall i :: Listed(f, i) <==> Listed(d, i);
    assert forall i :: ListedPrepared(f, i) <==> ListedPrepared(d, i);
    forall i, j ensures InOrder(f, i, j) {
      assert InOrder(d, i, j);
    }
    forall i ensures Marked(f, i) {
      assert Marked(d, i);
    }
  }

  lemma FailedKeepsOrder(d: Disk, id: Id)
    requires id in d.active && Ordered(d)
    ensures Ordered(Failed(d, id)) && SameReceipts(d, Failed(d, id))
    ensures forall i :: (Listed(Failed(d, id), i) <==> Listed(d, i)) && (ListedPrepared(Failed(d, id), i) <==>
        ListedPrepared(d, i))
  {
    assert SameReceipts(d, Failed(d, id));
    SameReceiptsKeepOrder(d, Failed(d, id));
  }

  lemma AcceptKeepsOrder(d: Disk, r: Receipt)
    requires Ordered(d) && !Known(d, r.id) && r.prepared == None
    requires forall i :: Listed(d, i) ==> d.active[i].eventTime < r.eventTime
    requires forall c :: c in d.completed ==> d.completed[c].eventTime < r.eventTime
    ensures Ordered(d.(active := d.active[r.id := r]))
  {
    var f := d.(active := d.active[r.id := r]);
    forall i, j ensures InOrder(f, i, j) {
      assert InOrder(d, i, j);
      assert i != r.id ==> (Listed(f, i) <==> Listed(d, i)) && (ListedPrepared(f, i) <==> ListedPrepared(d, i));
      assert j != r.id ==> (Listed(f, j) <==> Listed(d, j)) && (ListedPrepared(f, j) <==> ListedPrepared(d, j));
    }
    forall i ensures Marked(f, i) {
      assert Marked(d, i);
    }
  }

  lemma FirstMeansNothingPrepared(d: Disk, id: Id)
    requires Ordered(d) && IsFirst(d, true, id) && d.active[id].prepared == None
    ensures NothingPrepared(d)
  {
    forall i | i in d.active ensures !ListedPrepared(d, i) {
      assert InOrder(d, i, id);
    }
  }

  /** Committing the first receipt keeps the order. */
  lemma CommitKeepsOrder(d: Disk, id: Id, p: Prepared)
    requires Ordered(d) && IsFirst(d, true, id) && d.active[id].prepared == None
    requires d.active[id].eventTime <= p.state.lastEventTime
    requires forall c :: c in d.completed ==> d.completed[c].eventTime <= p.state.lastEventTime
    ensures var f := d.(active := d.active[id := d.active[id].(prepared := Some(p))]);
            && Ordered(f)
            && NothingPrepared(d)
            && (forall i :: Listed(f, i) <==> Listed(d, i))
            && (forall i :: ListedPrepared(f, i) <==> i == id)
  {
    var f := d.(active := d.active[id := d.active[id].(prepared := Some(p))]);
    FirstMeansNothingPrepared(d, id);
    assert forall i :: Listed(f, i) <==> Listed(d, i);
    assert forall i :: ListedPrepared(f, i) <==> i == id;
    forall i, j ensures InOrder(f, i, j) {
      assert InOrder(d, i, j);
    }
    forall i ensures Marked(f, i) {
      assert Marked(d, i);
    }
  }

  lemma CompleteKeepsOrder(d: Disk, id: Id)
    requires Ordered(d) && ListedPrepared(d, id)
    requires d.active[id].eventTime <= SavedTime(d)
    ensures var f := d.(completed := d.completed[id := d.active[id]]);
            Ordered(f) && NothingPrepared(f) && forall i :: Listed(f, i) <==> Listed(d, i) && i != id
  {
    var f := d.(completed := d.completed[id := d.active[id]]);
    assert forall i :: Listed(f, i) <==> Listed(d, i) && i != id;
    forall i | i in f.active ensures !ListedPrepared(f, i) {
      if ListedPrepared(d, i) {
        PreparedUnique(d, i, id);
      }
    }
    forall i, j ensures InOrder(f, i, j) {
      assert InOrder(d, i, j) && InOrder(d, i, id) && InOrder(d, id, i) && InOrder(d, id, j);
    }
    forall i ensures Marked(f, i) {
      assert Marked(d, i);
    }
  }

  lemma UnlinkKeepsOrder(d: Disk, id: Id)
    requires Ordered(d)
    ensures var f := d.(active := d.active - {id});
            Ordered(f) && forall i ::
                (Listed(f, i) <==> Listed(d, i) && i != id) &&
                    (ListedPrepared(f, i) <==> ListedPrepared(d, i) && i != id)
  {
    var f := d.(active := d.active - {id});
    assert forall i :: Listed(f, i) <==> Listed(d, i) && i != id;
    assert forall i :: ListedPrepared(f, i) <==> ListedPrepared(d, i) && i != id;
    forall i, j ensures InOrder(f, i, j) {
      assert InOrder(d, i, j);
    }
    forall i ensures Marked(f, i) {
      assert Marked(d, i);
    }
  }

  /** A later saved state keeps the order. */
  lemma SaveKeepsOrder(d: Disk, saved: Saved)
    requires Ordered(d)
    requires forall c :: c in d.completed ==> d.completed[c].eventTime <= saved.lastEventTime
    ensures Ordered(d.(saved := Some(saved)))
  {
    var f := d.(saved := Some(saved));
    forall i, j ensures InOrder(f, i, j) {
      assert InOrder(d, i, j);
    }
    forall i ensures Marked(f, i) {
      assert Marked(d, i);
    }
  }

  lemma TimeInvAccept(e: Engine, s: System, a: Action)
    requires TimeInv(s) && a.Accept?
    ensures TimeInv(Apply(e, s, a))
  {
    if s.mem.Up? && s.mem.booted && !Known(s.disk, a.id) && a.stored {
      var r := Receipt(a.id, a.fingerprint, AcceptTime(s.mem, a.now), None, 0);
      AcceptKeepsOrder(s.disk, r);
      var f := s.disk.(active := s.disk.active[r.id := r]);
      assert forall i :: Listed(f, i) <==> i == r.id || Listed(s.disk, i);
      assert forall i :: ListedPrepared(f, i) <==> ListedPrepared(s.disk, i);
    }
  }

  lemma TimeInvPick(e: Engine, s: System, a: Action)
    requires TimeInv(s) && a.Pick?
    ensures TimeInv(Apply(e, s, a))
  {
    if CanPick(s, a.id) {
      var r := s.disk.active[a.id];
      if r.prepared.None? {
        var i := Interpret(e, a.env, s.mem.state, r);
        assert s.mem.booted;
        FirstMeansNothingPrepared(s.disk, a.id);
        match i
        case Committed(p) =>
          CommitKeepsOrder(s.disk, a.id, p);
          var f := s.disk.(active := s.disk.active[a.id := r.(prepared := Some(p))]);
          if a.throws {
            FailedKeepsOrder(f, a.id);
          }
        case Rejected =>
          var d := Failed(s.disk, a.id);
          FailedKeepsOrder(s.disk, a.id);
          SameReceiptsKeepOrder(d, d.(rejected := d.rejected[a.id := d.active[a.id]]));
        case Retried => FailedKeepsOrder(s.disk, a.id);
      }
    }
  }

  lemma TimeInvAdvance(e: Engine, s: System)
    requires TimeInv(s) && s.mem.Up?
    ensures TimeInv(Advanced(s))
  {
    var t := Advanced(s);
    match s.mem.phase
    case Idle =>
    case Replacing(id, todo) => assert Working(s.mem.phase, id);
    case Saving(id) =>
      assert Working(s.mem.phase, id);
      var state := s.disk.active[id].prepared.value.state;
      forall c | c in s.disk.completed ensures s.disk.completed[c].eventTime <= state.lastEventTime {
        assert InOrder(s.disk, id, c);
      }
      SaveKeepsOrder(s.disk, Strip(state));
      assert forall i :: (Listed(t.disk, i) <==> Listed(s.disk, i)) && (ListedPrepared(t.disk, i) <==>
          ListedPrepared(s.disk, i));
    case Enqueuing(id, done) =>
      assert Working(s.mem.phase, id);
      assert SameReceipts(s.disk, t.disk);
      SameReceiptsKeepOrder(s.disk, t.disk);
    case Completing(id) =>
      assert Marked(s.disk, id);
      CompleteKeepsOrder(s.disk, id);
    case Unlinking(id) =>
      UnlinkKeepsOrder(s.disk, id);
  }

  lemma TimeInvStep(e: Engine, s: System, a: Action)
    requires TimeInv(s)
    ensures TimeInv(Apply(e, s, a))
  {
    var t := Apply(e, s, a);
    match a
    case Accept(_, _, _, _) => TimeInvAccept(e, s, a);
    case Pick(_, _, _) => TimeInvPick(e, s, a);
    case Advance =>
      if s.mem.Up? {
        TimeInvAdvance(e, s);
      }
    case Fail =>
      if s.mem.Up? && !s.mem.phase.Idle? {
        if t.disk != s.disk {
          FailedKeepsOrder(s.disk, s.mem.phase.id);
        }
      }
    case Replace(_) =>
      assert SameReceipts(s.disk, t.disk);
      SameReceiptsKeepOrder(s.disk, t.disk);
      if t != s {
        assert Working(s.mem.phase, s.mem.phase.id);
      }
    case Heartbeat(env) =>
      if t != s {
        SaveKeepsOrder(s.disk, Strip(t.mem.state));
        assert forall i :: (Listed(t.disk, i) <==> Listed(s.disk, i)) && (ListedPrepared(t.disk, i) <==>
            ListedPrepared(s.disk, i));
      }
    case Deliver(_) =>
      assert SameReceipts(s.disk, t.disk);
      SameReceiptsKeepOrder(s.disk, t.disk);
    case Crash =>
    case Boot =>
    case Load(_) => TimeInvLoad(e, s, a);
  }

  lemma TimeInvLoad(e: Engine, s: System, a: Action)
    requires TimeInv(s) && a.Load?
    ensures TimeInv(Apply(e, s, a))
  {
    var t := Apply(e, s, a);
    if t != s {
      forall c | c in s.disk.completed ensures s.disk.completed[c].eventTime <= t.mem.state.lastEventTime {
        assert Marked(s.disk, c);
      }
      if t.disk != s.disk {
        SaveKeepsOrder(s.disk, Strip(t.mem.state));
      }
      assert forall i :: (Listed(t.disk, i) <==> Listed(s.disk, i)) && (ListedPrepared(t.disk, i) <==>
          ListedPrepared(s.disk, i));
    }
  }

  lemma {:induction false} TimeInvRun(e: Engine, s: System, actions: seq<Action>)
    requires TimeInv(s)
    ensures TimeInv(Run(e, s, actions))
    decreases |actions|
  {
    if actions != [] {
      TimeInvStep(e, s, actions[0]);
      TimeInvRun(e, Apply(e, s, actions[0]), actions[1..]);
    }
  }

  /**
   * In every run, restarts and all: a new receipt is later than every receipt that is active or completed, and
   * a prepared receipt is the only one and the earliest of the active ones.
   */
  lemma EventTimesIncrease(e: Engine, actions: seq<Action>, id: Id, fingerprint: string, now: int)
    ensures var s := Run(e, INITIAL, actions);
            var t := Apply(e, s, Accept(id, fingerprint, now, true));
            && (t.disk != s.disk ==>
                  && Listed(t.disk, id)
                  && (forall i :: Listed(s.disk, i) ==> s.disk.active[i].eventTime < t.disk.active[id].eventTime)
                  && (forall c :: c in s.disk.completed ==>
                        s.disk.completed[c].eventTime < t.disk.active[id].eventTime))
            && (forall i, j :: ListedPrepared(s.disk, i) && Listed(s.disk, j) ==>
                  i == j || s.disk.active[i].eventTime < s.disk.active[j].eventTime)
            && (forall i, j :: ListedPrepared(s.disk, i) && ListedPrepared(s.disk, j) ==> i == j)
  {
    TimeInvRun(e, INITIAL, actions);
    var s := Run(e, INITIAL, actions);
    forall i, j | ListedPrepared(s.disk, i) && Listed(s.disk, j)
      ensures i == j || s.disk.active[i].eventTime < s.disk.active[j].eventTime
      ensures ListedPrepared(s.disk, j) ==> i == j
    {
      assert InOrder(s.disk, i, j) && InOrder(s.disk, j, i);
    }
  }

  // ---- Each occurrence once, in order: these hold in every run too ----

  predicate Settled(d: Disk, id: Id) {
    id in d.completed || ListedPrepared(d, id)
  }

  function SettledTime(d: Disk, id: Id): int
    requires Settled(d, id)
  {
    if id in d.completed then d.completed[id].eventTime else d.active[id].eventTime
  }

  predicate CommitSettled(d: Disk, r: Receipt) {
    Settled(d, r.id) && SettledTime(d, r.id) == r.eventTime
  }

  ghost predicate CommitInv(s: System) {
    var commits := Commits(s.log);
    && (forall i :: 0 <= i < |commits| ==> CommitSettled(s.disk, commits[i]))
    && (forall i, j :: 0 <= i < j < |commits| ==> commits[i].eventTime < commits[j].eventTime)
    && (forall id :: Settled(s.disk, id) ==> CommittedAs(commits, id))
  }

  ghost predicate CommittedAs(commits: seq<Receipt>, id: Id) {
    exists i :: 0 <= i < |commits| && commits[i].id == id
  }

  lemma CommitsSnoc(log: seq<Entry>, entry: Entry)
    ensures Commits(log + [entry]) == Commits(log) + if entry.Commit? then [entry.receipt] else []
  {
    assert (log + [entry])[..|log + [entry]| - 1] == log;
  }

  lemma CommitInvSame(s: System, t: System)
    requires CommitInv(s) && Commits(t.log) == Commits(s.log)
    requires forall id :: Settled(t.disk, id) <==> Settled(s.disk, id)
    requires forall id :: Settled(s.disk, id) ==> SettledTime(t.disk, id) == SettledTime(s.disk, id)
    ensures CommitInv(t)
  {
    var commits := Commits(s.log);
    forall i | 0 <= i < |commits| ensures CommitSettled(t.disk, commits[i]) {
      assert CommitSettled(s.disk, commits[i]);
    }
  }

  lemma CommitInvCommit(s: System, t: System, id: Id, env: nat, p: Prepared)
    requires TimeInv(s) && CommitInv(s) && IsFirst(s.disk, true, id) && s.disk.active[id].prepared == None
    requires t.log == s.log + [Commit(env, s.disk.active[id])]
    requires t.disk.completed == s.disk.completed
    requires forall i :: ListedPrepared(t.disk, i) <==> i == id
    requires id in t.disk.active && t.disk.active[id].eventTime == s.disk.active[id].eventTime
    ensures CommitInv(t)
  {
    var r := s.disk.active[id];
    assert Marked(s.disk, id);
    FirstMeansNothingPrepared(s.disk, id);
    CommitsSnoc(s.log, Commit(env, r));
    var before, commits := Commits(s.log), Commits(t.log);
    forall i | 0 <= i < |before| ensures CommitSettled(t.disk, before[i]) && before[i].eventTime < r.eventTime {
      assert CommitSettled(s.disk, before[i]);
      assert InOrder(s.disk, id, before[i].id);
    }
    assert commits[|before|] == r && CommitSettled(t.disk, r);
    forall i | 0 <= i < |commits| ensures CommitSettled(t.disk, commits[i]) {
      if i < |before| {
        assert commits[i] == before[i];
      }
    }
    forall j | Settled(t.disk, j) ensures CommittedAs(commits, j) {
      if j != id {
        assert Settled(s.disk, j);
        var i :| 0 <= i < |before| && before[i].id == j;
        assert commits[i].id == j;
      }
    }
  }

  lemma CommitInvPick(e: Engine, s: System, id: Id, env: nat, throws: bool)
    requires TimeInv(s) && CommitInv(s) && CanPick(s, id)
    ensures CommitInv(Picked(e, s, id, env, throws))
  {
    var t := Picked(e, s, id, env, throws);
    var r := s.disk.active[id];
    if r.prepared.None? && Interpret(e, env, s.mem.state, r).Committed? {
      FirstMeansNothingPrepared(s.disk, id);
      forall i ensures ListedPrepared(t.disk, i) <==> i == id {
      }
      CommitInvCommit(s, t, id, env, Interpret(e, env, s.mem.state, r).prepared);
    } else {
      assert SameReceipts(s.disk, t.disk);
      SameReceiptsKeepOrder(s.disk, t.disk);
      CommitInvSame(s, t);
    }
  }

  lemma CommitInvAdvance(s: System)
    requires TimeInv(s) && CommitInv(s) && s.mem.Up?
    ensures CommitInv(Advanced(s))
  {
    var t := Advanced(s);
    if s.mem.phase.Completing? && s.mem.phase.id in s.disk.active {
      CompleteKeepsOrderSettled(s, s.mem.phase.id);
    } else if s.mem.phase.Unlinking? {
      UnlinkKeepsOrder(s.disk, s.mem.phase.id);
    } else {
      assert t.disk.active == s.disk.active && t.disk.completed == s.disk.completed;
    }
    CommitInvSame(s, t);
  }

  /** Steps that change neither what is prepared nor what is completed, with what they add to the log. */
  lemma CommitInvKept(s: System, t: System, added: seq<Entry>)
    requires CommitInv(s) && t.log == s.log + added && t.disk.completed == s.disk.completed
    requires |added| <= 1 && forall x :: x in added ==> !x.Commit?
    requires forall i :: ListedPrepared(t.disk, i) <==> ListedPrepared(s.disk, i)
    requires forall i :: ListedPrepared(s.disk, i) && ListedPrepared(t.disk, i) ==>
               t.disk.active[i].eventTime == s.disk.active[i].eventTime
    ensures CommitInv(t)
  {
    if added == [] {
      assert t.log == s.log;
    } else {
      assert added == [added[0]] && added[0] in added;
      CommitsSnoc(s.log, added[0]);
    }
    CommitInvSame(s, t);
  }

  lemma CommitInvAccept(e: Engine, s: System, a: Action)
    requires CommitInv(s) && a.Accept?
    ensures CommitInv(Apply(e, s, a))
  {
    CommitInvKept(s, Apply(e, s, a), []);
  }

  lemma CommitInvFail(e: Engine, s: System)
    requires TimeInv(s) && CommitInv(s)
    ensures CommitInv(Apply(e, s, Fail))
  {
    var t := Apply(e, s, Fail);
    if t.disk != s.disk {
      FailedKeepsOrder(s.disk, s.mem.phase.id);
    }
    CommitInvKept(s, t, []);
  }

  /** The steps that leave the receipts alone. */
  lemma CommitInvOther(e: Engine, s: System, a: Action)
    requires CommitInv(s) && !a.Accept? && !a.Pick? && !a.Advance? && !a.Fail?
    ensures CommitInv(Apply(e, s, a))
  {
    var t := Apply(e, s, a);
    assert t.disk.active == s.disk.active && t.disk.completed == s.disk.completed;
    if t.log == s.log {
      CommitInvKept(s, t, []);
    } else {
      CommitInvKept(s, t, [if a.Load? then Restart(a.env) else Beat(a.env)]);
    }
  }

  lemma CommitInvStep(e: Engine, s: System, a: Action)
    requires TimeInv(s) && CommitInv(s)
    ensures CommitInv(Apply(e, s, a))
  {
    if a.Pick? {
      if CanPick(s, a.id) {
        CommitInvPick(e, s, a.id, a.env, a.throws);
      }
    } else if a.Advance? {
      if s.mem.Up? {
        CommitInvAdvance(s);
      }
    } else if a.Accept? {
      CommitInvAccept(e, s, a);
    } else if a.Fail? {
      CommitInvFail(e, s);
    } else {
      CommitInvOther(e, s, a);
    }
  }

  lemma CompleteKeepsOrderSettled(s: System, id: Id)
    requires TimeInv(s) && ListedPrepared(s.disk, id)
    ensures var f := s.disk.(completed := s.disk.completed[id := s.disk.active[id]]);
            && (forall i :: Settled(f, i) <==> Settled(s.disk, i))
            && (forall i :: Settled(s.disk, i) ==> SettledTime(f, i) == SettledTime(s.disk, i))
  {
    var f := s.disk.(completed := s.disk.completed[id := s.disk.active[id]]);
    forall i ensures Settled(f, i) <==> Settled(s.disk, i) {
      if ListedPrepared(s.disk, i) {
        PreparedUnique(s.disk, i, id);
      }
    }
  }

  lemma {:induction false} CommitInvRun(e: Engine, s: System, actions: seq<Action>)
    requires TimeInv(s) && CommitInv(s)
    ensures TimeInv(Run(e, s, actions)) && CommitInv(Run(e, s, actions))
    decreases |actions|
  {
    if actions != [] {
      TimeInvStep(e, s, actions[0]);
      CommitInvStep(e, s, actions[0]);
      CommitInvRun(e, Apply(e, s, actions[0]), actions[1..]);
    }
  }

  /**
   * In every run, the receipts committed are exactly those that are completed or prepared, each committed once
   * and in the order of their event times.
   */
  lemma CommittedOnceInOrder(e: Engine, actions: seq<Action>)
    ensures var s := Run(e, INITIAL, actions);
            var commits := Commits(s.log);
            && (forall i, j :: 0 <= i < j < |commits| ==>
                  commits[i].eventTime < commits[j].eventTime && commits[i].id != commits[j].id)
            && (forall id :: Settled(s.disk, id) <==> exists i :: 0 <= i < |commits| && commits[i].id == id)
  {
    CommitInvRun(e, INITIAL, actions);
    var s := Run(e, INITIAL, actions);
    var commits := Commits(s.log);
    forall i | 0 <= i < |commits| ensures Settled(s.disk, commits[i].id) &&
        SettledTime(s.disk, commits[i].id) == commits[i].eventTime {
      assert CommitSettled(s.disk, commits[i]);
    }
    forall id | Settled(s.disk, id) ensures exists i :: 0 <= i < |commits| && commits[i].id == id {
      assert CommittedAs(commits, id);
    }
  }

  // ---- Refinement: what is durable is the fold of the log ----

  function JournalOf(d: Disk, k: Key): seq<Step> {
    if k in d.steps then d.steps[k] else []
  }

  /** Every session's steps are in its journal; a heartbeat writes the state file but no step journal. */
  ghost predicate StepsJournalled(d: Disk, state: State) {
    forall k :: k in state.sessions ==> state.sessions[k].steps == JournalOf(d, k)
  }

  /** A heartbeat is safe while no prepared receipt is waiting to be completed. Every other step is. */
  ghost predicate SafeStep(s: System, a: Action) {
    a.Heartbeat? && s.mem.Up? && s.mem.booted && s.mem.blocked == None ==> NothingPrepared(s.disk)
  }

  ghost predicate SafeRun(e: Engine, s: System, actions: seq<Action>)
    decreases |actions|
  {
    actions == [] || (SafeStep(s, actions[0]) && SafeRun(e, Apply(e, s, actions[0]), actions[1..]))
  }

  ghost predicate StepsStored(d: Disk, state: State, todo: set<Key>) {
    forall k :: k in state.sessions && k !in todo ==> k in d.steps && d.steps[k] == state.sessions[k].steps
  }

  /** How far materialising a prepared receipt has come. */
  ghost predicate Progress(s: System) {
    s.mem.Up? ==>
      match s.mem.phase
      case Replacing(id, todo) => ListedPrepared(s.disk, id) &&
          StepsStored(s.disk, s.disk.active[id].prepared.value.state, todo)
      case Saving(id) => ListedPrepared(s.disk, id) && StepsStored(s.disk, s.disk.active[id].prepared.value.state, {})
      case Enqueuing(id, done) =>
        && ListedPrepared(s.disk, id)
        && done <= |s.disk.active[id].prepared.value.jobs|
        && Materialised(s, s.disk.active[id].prepared.value, done)
      case Completing(id) =>
        && ListedPrepared(s.disk, id)
        && Materialised(s, s.disk.active[id].prepared.value, |s.disk.active[id].prepared.value.jobs|)
      case _ => true
  }

  ghost predicate Materialised(s: System, p: Prepared, jobs: nat)
    requires s.mem.Up? && jobs <= |p.jobs|
  {
    && StepsStored(s.disk, p.state, {})
    && s.disk.saved == Some(Strip(p.state))
    && s.mem.state == p.state
    && forall k :: 0 <= k < jobs ==> p.jobs[k] in s.enqueued
  }

  /** A prepared receipt: its state is the reference, whose journals differ from the disk at most in its sessions. */
  ghost predicate Pending(ref: Reference, steps: map<Key, seq<Step>>, p: Prepared) {
    && p.state == ref.state
    && (forall k :: k in p.state.sessions ==> k in ref.steps && ref.steps[k] == p.state.sessions[k].steps)
    && (forall k :: k !in p.state.sessions ==>
          (k in steps <==> k in ref.steps) && (k in steps ==> steps[k] == ref.steps[k]))
  }

  ghost predicate Refines(e: Engine, s: System) {
    var ref := Refer(e, s.log);
    && (forall id :: ListedPrepared(s.disk, id) ==>
          && Pending(ref, s.disk.steps, s.disk.active[id].prepared.value)
          && FoldJobs(e, s.log) == s.enqueued + (set j | j in s.disk.active[id].prepared.value.jobs))
    && (NothingPrepared(s.disk) ==>
          && s.disk.steps == ref.steps
          && Loaded(s.disk) == Reread(ref)
          && FoldJobs(e, s.log) == s.enqueued
          && (s.mem.Up? && s.mem.booted ==> s.mem.state == ref.state))
  }

  ghost predicate FoldInv(e: Engine, s: System) {
    Refines(e, s) && Progress(s)
  }

  lemma FoldSnoc(e: Engine, log: seq<Entry>, entry: Entry)
    ensures Refer(e, log + [entry]) == Effect(e, Refer(e, log), entry)
    ensures FoldJobs(e, log + [entry]) ==
            FoldJobs(e, log) +
            if entry.Commit? && Interpret(e, entry.env, Fold(e, log), entry.receipt).Committed? then
              set j | j in Interpret(e, entry.env, Fold(e, log), entry.receipt).prepared.jobs
            else {}
  {
    assert (log + [entry])[..|log + [entry]| - 1] == log;
  }

  /** What a restart reads back after materialising a state. */
  lemma LoadedAfterStore(d: Disk, state: State)
    requires StepsStored(d, state, {}) && d.saved == Some(Strip(state))
    ensures Loaded(d) == Reload(state)
  {
    assert Loaded(d).sessions == Reload(state).sessions;
  }

  /** Nothing that matters to the refinement has changed. */
  lemma RefinesSame(e: Engine, s: System, t: System)
    requires Refines(e, s)
    requires t.log == s.log && t.enqueued == s.enqueued && t.disk.steps == s.disk.steps
    requires forall i :: ListedPrepared(t.disk, i) <==> ListedPrepared(s.disk, i)
    requires forall i :: ListedPrepared(s.disk, i) ==>
               i in t.disk.active && t.disk.active[i].prepared == s.disk.active[i].prepared
    requires NothingPrepared(s.disk) ==>
               Loaded(t.disk) == Loaded(s.disk) &&
               (t.mem.Up? && t.mem.booted ==> s.mem.Up? && s.mem.booted && t.mem.state == s.mem.state)
    ensures Refines(e, t)
  {
    assert NothingPrepared(t.disk) <==> NothingPrepared(s.disk);
  }

  lemma RefinesCommit(e: Engine, s: System, t: System, id: Id, env: nat, r: Receipt)
    requires Refines(e, s) && NothingPrepared(s.disk) && s.mem.Up? && s.mem.booted
    requires Interpret(e, env, s.mem.state, r).Committed?
    requires t.log == s.log + [Commit(env, r)] && t.enqueued == s.enqueued && t.disk.steps == s.disk.steps
    requires forall i :: ListedPrepared(t.disk, i) <==> i == id
    requires id in t.disk.active && t.disk.active[id].prepared == Some(Interpret(e, env, s.mem.state, r).prepared)
    ensures Refines(e, t)
  {
    FoldSnoc(e, s.log, Commit(env, r));
    assert ListedPrepared(t.disk, id);
    CommittedIsPending(e, Refer(e, s.log), s.disk.steps, env, r);
  }

  lemma CommittedIsPending(e: Engine, ref: Reference, steps: map<Key, seq<Step>>, env: nat, r: Receipt)
    requires steps == ref.steps && Interpret(e, env, ref.state, r).Committed?
    ensures Pending(Effect(e, ref, Commit(env, r)), steps, Interpret(e, env, ref.state, r).prepared)
  {
  }

  lemma FoldInvCommit(e: Engine, s: System, id: Id, env: nat, throws: bool)
    requires TimeInv(s) && FoldInv(e, s) && CanPick(s, id) && s.disk.active[id].prepared.None?
    requires Interpret(e, env, s.mem.state, s.disk.active[id]).Committed?
    ensures FoldInv(e, Picked(e, s, id, env, throws))
  {
    var t := Picked(e, s, id, env, throws);
    FirstMeansNothingPrepared(s.disk, id);
    assert t.disk.completed == s.disk.completed && t.disk.active.Keys == s.disk.active.Keys;
    forall i ensures ListedPrepared(t.disk, i) <==> i == id {
      assert i in s.disk.active ==> !ListedPrepared(s.disk, i);
    }
    RefinesCommit(e, s, t, id, env, s.disk.active[id]);
    assert Progress(t);
  }

  lemma FoldInvResume(e: Engine, s: System, id: Id, env: nat, throws: bool)
    requires TimeInv(s) && FoldInv(e, s) && CanPick(s, id) && s.disk.active[id].prepared.Some?
    ensures FoldInv(e, Picked(e, s, id, env, throws))
  {
    RefinesSame(e, s, Picked(e, s, id, env, throws));
  }

  lemma FoldInvRefused(e: Engine, s: System, id: Id, env: nat, throws: bool)
    requires FoldInv(e, s) && CanPick(s, id) && s.disk.active[id].prepared.None?
    requires !Interpret(e, env, s.mem.state, s.disk.active[id]).Committed?
    ensures FoldInv(e, Picked(e, s, id, env, throws))
  {
    FoldInvSame(e, s, Picked(e, s, id, env, throws));
  }

  lemma FoldInvPick(e: Engine, s: System, id: Id, env: nat, throws: bool)
    requires TimeInv(s) && FoldInv(e, s) && CanPick(s, id)
    ensures FoldInv(e, Picked(e, s, id, env, throws))
  {
    var r := s.disk.active[id];
    if r.prepared.Some? {
      FoldInvResume(e, s, id, env, throws);
    } else if Interpret(e, env, s.mem.state, r).Committed? {
      FoldInvCommit(e, s, id, env, throws);
    } else {
      FoldInvRefused(e, s, id, env, throws);
    }
  }

  /** Once all its sessions' journals are replaced, the journals are those of the reference. */
  lemma CompletedSteps(ref: Reference, d: Disk, p: Prepared)
    requires Pending(ref, d.steps, p) && StepsStored(d, p.state, {}) && d.saved == Some(Strip(p.state))
    ensures d.steps == ref.steps && Loaded(d) == Reread(ref)
  {
    LoadedIsReread(ref, d);
  }

  lemma LoadedIsReread(ref: Reference, d: Disk)
    requires d.saved == Some(Strip(ref.state))
    requires forall k :: k in ref.state.sessions ==> JournalOf(d, k) == StepsAt(ref.steps, k)
    ensures Loaded(d) == Reread(ref)
  {
    assert Loaded(d).sessions == Reread(ref).sessions;
  }

  lemma FoldInvComplete(e: Engine, s: System)
    requires TimeInv(s) && FoldInv(e, s) && s.mem.Up? && s.mem.phase.Completing?
    ensures FoldInv(e, Advanced(s))
  {
    var id := s.mem.phase.id;
    var t := Advanced(s);
    assert Marked(s.disk, id);
    CompleteKeepsOrder(s.disk, id);
    CompletedSteps(Refer(e, s.log), s.disk, s.disk.active[id].prepared.value);
    assert Loaded(t.disk) == Loaded(s.disk);
    assert NothingPrepared(t.disk);
  }

  lemma FoldInvUnlink(e: Engine, s: System)
    requires TimeInv(s) && FoldInv(e, s) && s.mem.Up? && s.mem.phase.Unlinking?
    ensures FoldInv(e, Advanced(s))
  {
    var t := Advanced(s);
    UnlinkKeepsOrder(s.disk, s.mem.phase.id);
    assert forall i :: ListedPrepared(t.disk, i) <==> ListedPrepared(s.disk, i);
    assert Loaded(t.disk) == Loaded(s.disk);
    RefinesSame(e, s, t);
  }

  /** While a receipt is prepared, only its own jobs are enqueued and only its sessions' journals are written. */
  lemma RefinesWorking(e: Engine, s: System, t: System, id: Id, p: Prepared)
    requires Ordered(s.disk) && Refines(e, s) && ListedPrepared(s.disk, id) && s.disk.active[id].prepared == Some(p)
    requires t.disk.active == s.disk.active && t.disk.completed == s.disk.completed && t.log == s.log
    requires s.enqueued <= t.enqueued <= s.enqueued + (set j | j in p.jobs)
    requires forall k :: k !in p.state.sessions ==>
               (k in t.disk.steps <==> k in s.disk.steps) && (k in s.disk.steps ==> t.disk.steps[k] == s.disk.steps[k])
    ensures Refines(e, t)
  {
    forall i | ListedPrepared(t.disk, i) ensures i == id {
      assert ListedPrepared(s.disk, i);
      PreparedUnique(s.disk, i, id);
    }
    assert ListedPrepared(t.disk, id);
  }

  lemma MaterialiseProgress(s: System)
    requires MemoryTimes(s) && Progress(s) && s.mem.Up?
    requires s.mem.phase.Replacing? || s.mem.phase.Saving? || s.mem.phase.Enqueuing?
    ensures Progress(Advanced(s))
  {
    assert Working(s.mem.phase, s.mem.phase.id);
    assert Advanced(s).disk.active == s.disk.active;
  }

  lemma FoldInvMaterialise(e: Engine, s: System)
    requires TimeInv(s) && FoldInv(e, s) && s.mem.Up?
    requires s.mem.phase.Replacing? || s.mem.phase.Saving? || s.mem.phase.Enqueuing?
    ensures FoldInv(e, Advanced(s))
  {
    var id := s.mem.phase.id;
    assert Working(s.mem.phase, id);
    RefinesWorking(e, s, Advanced(s), id, s.disk.active[id].prepared.value);
    MaterialiseProgress(s);
  }

  lemma FoldInvAdvance(e: Engine, s: System)
    requires TimeInv(s) && FoldInv(e, s) && s.mem.Up?
    ensures FoldInv(e, Advanced(s))
  {
    if s.mem.phase.Completing? {
      FoldInvComplete(e, s);
    } else if s.mem.phase.Unlinking? {
      FoldInvUnlink(e, s);
    } else if !s.mem.phase.Idle? {
      FoldInvMaterialise(e, s);
    }
  }

  lemma FoldInvHeartbeat(e: Engine, s: System, env: nat)
    requires TimeInv(s) && FoldInv(e, s) && SafeStep(s, Heartbeat(env))
    ensures FoldInv(e, Apply(e, s, Heartbeat(env)))
  {
    var t := Apply(e, s, Heartbeat(env));
    if t != s {
      FoldSnoc(e, s.log, Beat(env));
      assert NothingPrepared(t.disk);
      LoadedIsReread(Refer(e, t.log), t.disk);
    }
  }

  lemma FoldInvReplace(e: Engine, s: System, key: Key)
    requires TimeInv(s) && FoldInv(e, s)
    ensures FoldInv(e, Apply(e, s, Replace(key)))
  {
    var t := Apply(e, s, Replace(key));
    if t != s {
      assert Working(s.mem.phase, s.mem.phase.id);
      RefinesWorking(e, s, t, s.mem.phase.id, s.disk.active[s.mem.phase.id].prepared.value);
      assert ListedPrepared(t.disk, s.mem.phase.id);
    }
  }

  lemma FoldInvStep(e: Engine, s: System, a: Action)
    requires TimeInv(s) && FoldInv(e, s)
    requires SafeStep(s, a)
    ensures FoldInv(e, Apply(e, s, a))
  {
    var t := Apply(e, s, a);
    match a
    case Pick(id, env, throws) =>
      if CanPick(s, id) {
        FoldInvPick(e, s, id, env, throws);
      }
    case Replace(key) => FoldInvReplace(e, s, key);
    case Advance =>
      if s.mem.Up? {
        FoldInvAdvance(e, s);
      }
    case Heartbeat(env) => FoldInvHeartbeat(e, s, env);
    case Load(env) => FoldInvLoad(e, s, env);
    case _ => FoldInvOther(e, s, a);
  }

  /** What a start saves is read back by the next one. */
  lemma StartedReadsBack(e: Engine, d: Disk, env: nat)
    ensures var next := Backfilled(e, env, Loaded(d));
            Loaded(Started(d, next)) == Reload(next) == next
  {
    var next := Backfilled(e, env, Loaded(d));
    assert Reload(next).sessions == next.sessions;
    if next != Loaded(d) {
      assert Loaded(Started(d, next)).sessions == next.sessions;
    }
  }

  /** Rereading what a start has left finds it again. */
  lemma RereadTwice(e: Engine, ref: Reference, env: nat)
    ensures Reread(Effect(e, ref, Restart(env))) == Effect(e, ref, Restart(env)).state
  {
    var after := Effect(e, ref, Restart(env));
    assert Reread(after).sessions == after.state.sessions;
  }

  lemma RefinesLoad(e: Engine, s: System, t: System, env: nat, next: State)
    requires Refines(e, s) && NothingPrepared(s.disk) && next == Backfilled(e, env, Loaded(s.disk))
    requires t.log == s.log + [Restart(env)] && t.enqueued == s.enqueued && t.disk == Started(s.disk, next)
    requires t.mem.Up? && t.mem.state == next
    ensures Refines(e, t)
  {
    FoldSnoc(e, s.log, Restart(env));
    RereadTwice(e, Refer(e, s.log), env);
    StartedReadsBack(e, s.disk, env);
    assert t.disk.active == s.disk.active && t.disk.completed == s.disk.completed && t.disk.steps == s.disk.steps;
    assert forall i :: ListedPrepared(t.disk, i) <==> ListedPrepared(s.disk, i);
  }

  lemma FoldInvLoad(e: Engine, s: System, env: nat)
    requires FoldInv(e, s)
    ensures FoldInv(e, Apply(e, s, Load(env)))
  {
    var t := Apply(e, s, Load(env));
    if t != s {
      RefinesLoad(e, s, t, env, Backfilled(e, env, Loaded(s.disk)));
    }
  }

  /** Same receipts up to what a failure records, and nothing else on disk that matters. */
  lemma FoldInvSame(e: Engine, s: System, t: System)
    requires FoldInv(e, s) && SameReceipts(s.disk, t.disk) && t.disk.steps == s.disk.steps
    requires t.log == s.log && t.enqueued == s.enqueued && (t.mem.Up? ==> t.mem.phase == Idle || t.mem.phase.Unlinking?)
    requires t.mem.Up? && t.mem.booted ==> s.mem.Up? && s.mem.booted && t.mem.state == s.mem.state
    ensures FoldInv(e, t)
  {
    assert Loaded(t.disk) == Loaded(s.disk);
    assert forall i :: ListedPrepared(t.disk, i) <==> ListedPrepared(s.disk, i);
    RefinesSame(e, s, t);
  }

  lemma FoldInvAccept(e: Engine, s: System, a: Action)
    requires TimeInv(s) && FoldInv(e, s) && a.Accept?
    ensures FoldInv(e, Apply(e, s, a))
  {
    var t := Apply(e, s, a);
    assert Loaded(t.disk) == Loaded(s.disk);
    assert forall i :: ListedPrepared(t.disk, i) <==> ListedPrepared(s.disk, i);
    assert forall i :: ListedPrepared(s.disk, i) ==> t.disk.active[i].prepared == s.disk.active[i].prepared;
    RefinesSame(e, s, t);
  }

  lemma FoldInvDeliver(e: Engine, s: System, job: Job)
    requires FoldInv(e, s)
    ensures FoldInv(e, Apply(e, s, Deliver(job)))
  {
    var t := Apply(e, s, Deliver(job));
    assert Loaded(t.disk) == Loaded(s.disk);
    RefinesSame(e, s, t);
  }

  lemma FoldInvOther(e: Engine, s: System, a: Action)
    requires TimeInv(s) && FoldInv(e, s)
    requires a.Accept? || a.Fail? || a.Deliver? || a.Crash? || a.Boot?
    ensures FoldInv(e, Apply(e, s, a))
  {
    match a
    case Accept(_, _, _, _) => FoldInvAccept(e, s, a);
    case Deliver(job) => FoldInvDeliver(e, s, job);
    case _ =>
      var t := Apply(e, s, a);
      if t != s {
        FoldInvSame(e, s, t);
      }
  }

  lemma {:induction false} FoldInvRun(e: Engine, s: System, actions: seq<Action>)
    requires TimeInv(s) && FoldInv(e, s) && SafeRun(e, s, actions)
    ensures TimeInv(Run(e, s, actions)) && FoldInv(e, Run(e, s, actions))
    decreases |actions|
  {
    if actions != [] {
      TimeInvStep(e, s, actions[0]);
      FoldInvStep(e, s, actions[0]);
      FoldInvRun(e, Apply(e, s, actions[0]), actions[1..]);
    }
  }

  lemma InitialRefines(e: Engine)
    ensures TimeInv(INITIAL) && FoldInv(e, INITIAL)
  {
    assert Loaded(INITIAL.disk).sessions == Reload(EMPTY_STATE).sessions;
  }

  /**
   * The main result. In every safe run, wherever it stops: if nothing is prepared, the journals hold just the steps
   * that the committed receipts recorded, a restart loads the reference as the state file and the journals have it,
   * memory already is the reference, and the jobs of the committed receipts, and no others, have been enqueued; if a
   * receipt is prepared, what it will write is the reference, no journal but those of its sessions differs from it,
   * and the jobs still to be enqueued are its own.
   */
  lemma DurableStateIsFold(e: Engine, actions: seq<Action>)
    requires SafeRun(e, INITIAL, actions)
    ensures Refines(e, Run(e, INITIAL, actions))
  {
    InitialRefines(e);
    FoldInvRun(e, INITIAL, actions);
  }

  /** Every session's steps are those that receipts have put into its journal: heartbeats have changed none since. */
  ghost predicate StepsKept(ref: Reference) {
    forall k :: k in ref.state.sessions ==> ref.state.sessions[k].steps == StepsAt(ref.steps, k)
  }

  /** A receipt and a start leave no other steps than those in the journals; a heartbeat exactly if it changes none. */
  lemma StepsKeptIff(e: Engine, ref: Reference, entry: Entry)
    requires StepsKept(ref)
    ensures !entry.Beat? ==> StepsKept(Effect(e, ref, entry))
    ensures entry.Beat? ==>
              var next := Beaten(e, entry.env, ref.state);
              (StepsKept(Effect(e, ref, entry)) <==>
               forall k :: k in next.sessions ==>
                 next.sessions[k].steps ==
                 (if k in ref.state.sessions then ref.state.sessions[k].steps else StepsAt(ref.steps, k)))
  {
  }

  /** Without heartbeats a restart has nothing to forget but activity. */
  lemma {:induction false} KeptWithoutHeartbeats(e: Engine, log: seq<Entry>)
    requires forall i :: 0 <= i < |log| ==> !log[i].Beat?
    ensures StepsKept(Refer(e, log)) && Reread(Refer(e, log)) == Reload(Fold(e, log))
    decreases |log|
  {
    var ref := Refer(e, log);
    if log != [] {
      KeptWithoutHeartbeats(e, log[..|log| - 1]);
      StepsKeptIff(e, Refer(e, log[..|log| - 1]), log[|log| - 1]);
    }
    assert Reread(ref).sessions == Reload(ref.state).sessions;
  }

  /** So in a log whose last entry is a receipt or a start, they are kept whatever heartbeats did before. */
  lemma KeptAfterReceipt(e: Engine, log: seq<Entry>, entry: Entry)
    requires entry.Restart? || (entry.Commit? && Interpret(e, entry.env, Fold(e, log), entry.receipt).Committed?)
    ensures StepsKept(Refer(e, log + [entry]))
  {
    FoldSnoc(e, log, entry);
  }

  /**
   * After every safe run, however often and wherever the process died before, a restart continues from the reference,
   * and what it saves is read back by the next. Apart from activity it has all that memory had, with open attempts
   * closed, exactly if no heartbeat has changed steps since the last receipt or start.
   */
  lemma RestartContinuesFoldIff(e: Engine, actions: seq<Action>, env: nat)
    requires SafeRun(e, INITIAL, actions)
    ensures var s := Run(e, INITIAL, actions);
            var t := Apply(e, s, Load(env));
            t != s ==>
              && t.mem.state == Loaded(t.disk) == Fold(e, t.log)
              && (t.mem.state == Backfilled(e, env, Reload(Fold(e, s.log))) <==> StepsKept(Refer(e, s.log)))
  {
    InitialRefines(e);
    FoldInvRun(e, INITIAL, actions);
    var s := Run(e, INITIAL, actions);
    if Apply(e, s, Load(env)) != s {
      LoadContinuesIff(e, s, env);
    }
  }

  lemma LoadContinuesIff(e: Engine, s: System, env: nat)
    requires Refines(e, s) && Apply(e, s, Load(env)) != s
    ensures var t := Apply(e, s, Load(env));
            && t.mem.state == Loaded(t.disk) == Fold(e, t.log)
            && (t.mem.state == Backfilled(e, env, Reload(Fold(e, s.log))) <==> StepsKept(Refer(e, s.log)))
  {
    FoldSnoc(e, s.log, Restart(env));
    StartedReadsBack(e, s.disk, env);
    BackfilledSameIff(e, env, Refer(e, s.log));
  }

  /** Closing attempts hides no difference in steps. */
  lemma BackfilledSameIff(e: Engine, env: nat, ref: Reference)
    ensures Backfilled(e, env, Reread(ref)) == Backfilled(e, env, Reload(ref.state)) <==> StepsKept(ref)
  {
    var closed, wanted := Backfilled(e, env, Reread(ref)).sessions, Backfilled(e, env, Reload(ref.state)).sessions;
    assert forall k :: k in ref.state.sessions ==>
             closed[k].steps == StepsAt(ref.steps, k) && wanted[k].steps == ref.state.sessions[k].steps;
    if StepsKept(ref) {
      assert Reread(ref).sessions == Reload(ref.state).sessions;
    }
  }

  // ---- What the assumption on heartbeats is for ----

  lemma HeartbeatReadsBack(e: Engine, s: System, env: nat)
    requires s.mem.Up?
    ensures var next := Beaten(e, env, s.mem.state);
            Loaded(s.disk.(saved := Some(Strip(next)))) == Reload(next) <==> StepsJournalled(s.disk, next)
  {
    var next := Beaten(e, env, s.mem.state);
    var d := s.disk.(saved := Some(Strip(next)));
    var loaded, wanted := Loaded(d).sessions, Reload(next).sessions;
    assert forall k :: k in next.sessions ==>
             (loaded[k] == wanted[k] <==> next.sessions[k].steps == JournalOf(s.disk, k));
    assert loaded.Keys == wanted.Keys;
    if StepsJournalled(s.disk, next) {
      assert loaded == wanted;
    }
  }

  /** What a restart ends with if the process dies now. */
  ghost predicate RecoversTo(d: Disk, state: State) {
    && (NothingPrepared(d) ==> state == Loaded(d))
    && (forall id :: ListedPrepared(d, id) ==> state == Reload(d.active[id].prepared.value.state))
  }

  /**
   * Exactly when a heartbeat survives a crash. With no prepared receipt on disk, if and only if every step it
   * leaves in memory is journalled; with one, if and only if it has left nothing but what that receipt has prepared.
   */
  lemma HeartbeatSurvivesIff(e: Engine, s: System, env: nat)
    requires TimeInv(s) && Apply(e, s, Heartbeat(env)) != s
    ensures var t := Apply(e, s, Heartbeat(env));
            && (NothingPrepared(s.disk) ==>
                  (RecoversTo(t.disk, Reload(t.mem.state)) <==> StepsJournalled(s.disk, t.mem.state)))
            && (forall id :: ListedPrepared(s.disk, id) ==>
                  (RecoversTo(t.disk, Reload(t.mem.state)) <==>
                   SameButActive(s.disk.active[id].prepared.value.state, t.mem.state)))
  {
    var t := Apply(e, s, Heartbeat(env));
    assert forall id :: ListedPrepared(t.disk, id) <==> ListedPrepared(s.disk, id);
    assert NothingPrepared(t.disk) <==> NothingPrepared(s.disk);
    HeartbeatReadsBack(e, s, env);
    forall id | ListedPrepared(s.disk, id)
      ensures RecoversTo(t.disk, Reload(t.mem.state)) <==>
                SameButActive(s.disk.active[id].prepared.value.state, t.mem.state)
    {
      assert ListedPrepared(t.disk, id);
      forall i | ListedPrepared(t.disk, i) ensures i == id {
        PreparedUnique(s.disk, i, id);
      }
      ReloadSameIff(s.disk.active[id].prepared.value.state, t.mem.state);
    }
  }

  /** The clock, the counters, and every session's steps and data are the same. */
  ghost predicate SameButActive(was: State, next: State) {
    && next.lastEventTime == was.lastEventTime && next.counters == was.counters &&
       next.sessions.Keys == was.sessions.Keys
    && forall k :: k in next.sessions ==>
         next.sessions[k].steps == was.sessions[k].steps && next.sessions[k].data == was.sessions[k].data
  }

  /**
   * In the gap between materialisation and the completed copy, a heartbeat survives a crash exactly if it changes
   * neither the clock, nor the counters, nor any session's steps or data.
   */
  lemma HeartbeatInGapSurvivesIff(e: Engine, s: System, env: nat)
    requires TimeInv(s) && FoldInv(e, s) && s.mem.Up? && s.mem.phase.Completing? && Apply(e, s, Heartbeat(env)) != s
    ensures var t := Apply(e, s, Heartbeat(env));
            RecoversTo(t.disk, Reload(t.mem.state)) <==> SameButActive(s.mem.state, t.mem.state)
  {
    assert ListedPrepared(s.disk, s.mem.phase.id);
    HeartbeatSurvivesIff(e, s, env);
  }

  lemma ReloadSameIff(a: State, b: State)
    ensures Reload(a) == Reload(b) <==> SameButActive(a, b)
  {
    assert forall k :: k in a.sessions && k in b.sessions ==>
        (Reload(a).sessions[k] == Reload(b).sessions[k] <==>
         a.sessions[k].steps == b.sessions[k].steps && a.sessions[k].data == b.sessions[k].data);
    assert Reload(a).sessions.Keys == a.sessions.Keys && Reload(b).sessions.Keys == b.sessions.Keys;
    if a.sessions.Keys == b.sessions.Keys && forall k :: k in b.sessions ==>
        Reload(a).sessions[k] == Reload(b).sessions[k] {
      assert Reload(a).sessions == Reload(b).sessions;
    }
  }

  lemma {:induction false} RunSnoc(e: Engine, s: System, actions: seq<Action>, a: Action)
    ensures Run(e, s, actions + [a]) == Apply(e, Run(e, s, actions), a)
    decreases |actions|
  {
    var all := actions + [a];
    if actions == [] {
      assert all[1..] == [];
    } else {
      assert all[0] == actions[0] && all[1..] == actions[1..] + [a];
      RunSnoc(e, Apply(e, s, actions[0]), actions[1..], a);
    }
  }

  lemma Then(e: Engine, actions: seq<Action>, a: Action, t: System) returns (longer: seq<Action>)
    requires Apply(e, Run(e, INITIAL, actions), a) == t
    ensures longer == actions + [a] && Run(e, INITIAL, longer) == t
  {
    longer := actions + [a];
    RunSnoc(e, INITIAL, actions, a);
  }

  /** An engine with no sessions, whose heartbeat only moves the clock. */
  const CLOCKWORK := Engine(
    (env: nat, state: State, id: Id, fingerprint: string, time: int) => Ok(map[], "", []),
    (env: nat, state: State) => state.(lastEventTime := state.lastEventTime + 1),
    (env: nat, key: Key, session: Session) => session.data)

  const BLANK := Disk(map[], map[], map[], map[], None, {})

  /** A daemon that has started from nothing. */
  lemma StartedEmpty(e: Engine) returns (actions: seq<Action>)
    ensures Run(e, INITIAL, actions) == System(BLANK, Up(true, EMPTY_STATE, -1, None, Idle), [Restart(0)], {})
  {
    actions := [];
    actions := Then(e, actions, Boot, System(BLANK, Up(false, EMPTY_STATE, -1, None, Idle), [], {}));
    actions := Then(e, actions, Load(0), System(BLANK, Up(true, EMPTY_STATE, -1, None, Idle), [Restart(0)], {}));
  }

  function GapReceipt(id: Id): Receipt {
    Receipt(id, "", 7, None, 0)
  }

  /** The disk while the prepared receipt of the run below waits to be completed. */
  function GapDisk(id: Id, saved: Option<Saved>): Disk {
    BLANK.(active := map[id := GapReceipt(id).(prepared := Some(Prepared(State(7, map[], ""), [])))], saved := saved)
  }

  lemma CommitOne(id: Id, before: seq<Action>) returns (actions: seq<Action>)
    requires Run(CLOCKWORK, INITIAL, before) == System(BLANK, Up(true, EMPTY_STATE, -1, None, Idle), [Restart(0)], {})
    ensures Run(CLOCKWORK, INITIAL, actions) ==
            System(GapDisk(id, None), Up(true, State(7, map[], ""), 7, Some(id), Replacing(id, {})),
                [Restart(0), Commit(0, GapReceipt(id))], {})
  {
    var e, r := CLOCKWORK, GapReceipt(id);
    assert Interpret(e, 0, EMPTY_STATE, r) == Committed(Prepared(State(7, map[], ""), []));
    actions := before;
    actions := Then(e, actions, Accept(id, "", 7, true),
                    System(BLANK.(active := map[id := r]), Up(true, EMPTY_STATE, 7, None, Idle), [Restart(0)], {}));
    assert State(7, map[], "").sessions.Keys == {};
    actions := Then(e, actions, Pick(id, 0, false),
                    System(GapDisk(id, None), Up(true, State(7, map[], ""), 7, Some(id), Replacing(id, {})),
                        [Restart(0), Commit(0, r)], {}));
  }

  lemma MaterialiseOne(id: Id, before: seq<Action>, mem: Memory, saved: Option<Saved>, log: seq<Entry>)
      returns (actions: seq<Action>)
    requires mem.Up? && mem.blocked == Some(id) && mem.phase == Replacing(id, {})
    requires Run(CLOCKWORK, INITIAL, before) == System(GapDisk(id, saved), mem, log, {})
    ensures Run(CLOCKWORK, INITIAL, actions) ==
            System(GapDisk(id, Some(Saved(7, map[], ""))),
                mem.(state := State(7, map[], ""), blocked := None, phase := Completing(id)), log, {})
  {
    var e, state := CLOCKWORK, State(7, map[], "");
    assert Strip(state) == Saved(7, map[], "");
    var d := GapDisk(id, Some(Saved(7, map[], "")));
    actions := before;
    actions := Then(e, actions, Advance, System(GapDisk(id, saved), mem.(phase := Saving(id)), log, {}));
    actions := Then(e, actions, Advance, System(d, mem.(state := state, phase := Enqueuing(id, 0)), log, {}));
    actions := Then(e, actions, Advance,
        System(d, mem.(state := state, blocked := None, phase := Completing(id)), log, {}));
  }

  lemma BeatInGap(id: Id, before: seq<Action>, log: seq<Entry>) returns (actions: seq<Action>)
    requires Run(CLOCKWORK, INITIAL, before) ==
             System(GapDisk(id, Some(Saved(7, map[], ""))), Up(true, State(7, map[], ""), 7, None, Completing(id)),
                 log, {})
    ensures Run(CLOCKWORK, INITIAL, actions) ==
            System(GapDisk(id, Some(Saved(8, map[], ""))), Up(false, EMPTY_STATE, 7, Some(id), Replacing(id, {})),
                log + [Beat(0)], {})
  {
    var e, later := CLOCKWORK, State(8, map[], "");
    assert Strip(later) == Saved(8, map[], "");
    var d := GapDisk(id, Some(Saved(8, map[], "")));
    actions := before;
    actions := Then(e, actions, Heartbeat(0), System(d, Up(true, later, 7, None, Completing(id)), log + [Beat(0)], {}));
    actions := Then(e, actions, Crash, System(d, Down, log + [Beat(0)], {}));
    actions := Then(e, actions, Boot, System(d, Up(false, EMPTY_STATE, -1, None, Idle), log + [Beat(0)], {}));
    assert State(7, map[], "").sessions.Keys == {};
    actions := Then(e, actions, Pick(id, 0, false),
        System(d, Up(false, EMPTY_STATE, 7, Some(id), Replacing(id, {})), log + [Beat(0)], {}));
  }

  lemma FinishBoot(id: Id, before: seq<Action>, log: seq<Entry>) returns (actions: seq<Action>)
    requires Run(CLOCKWORK, INITIAL, before) ==
             System(GapDisk(id, Some(Saved(7, map[], ""))), Up(false, State(7, map[], ""), 7, None, Completing(id)),
                 log, {})
    ensures Run(CLOCKWORK, INITIAL, actions).disk.active == map[]
    ensures Run(CLOCKWORK, INITIAL, actions).mem == Up(true, State(7, map[], ""), 7, None, Idle)
    ensures Run(CLOCKWORK, INITIAL, actions).log == log + [Restart(0)]
  {
    var e, state := CLOCKWORK, State(7, map[], "");
    var d := GapDisk(id, Some(Saved(7, map[], "")));
    var done := d.(completed := d.active);
    var clean := done.(active := map[]);
    actions := before;
    assert map[][id := d.active[id]] == d.active;
    actions := Then(e, actions, Advance, System(done, Up(false, state, 7, None, Unlinking(id)), log, {}));
    assert done.active - {id} == map[];
    actions := Then(e, actions, Advance, System(clean, Up(false, state, 7, None, Idle), log, {}));
    assert Loaded(clean) == state;
    actions := Then(e, actions, Load(0), System(clean, Up(true, state, 7, None, Idle), log + [Restart(0)], {}));
  }

  /** Without the assumption the result fails: a heartbeat between the last job and completion is lost for good. */
  lemma HeartbeatInGapIsLost(id: Id) returns (actions: seq<Action>)
    ensures var s := Run(CLOCKWORK, INITIAL, actions);
            && s.mem.Up? && s.mem.booted && s.mem.phase == Idle && s.disk.active == map[]
            && s.mem.state.lastEventTime == 7 && Fold(CLOCKWORK, s.log).lastEventTime == 8
  {
    var log := [Restart(0), Commit(0, GapReceipt(id))];
    actions := StartedEmpty(CLOCKWORK);
    actions := CommitOne(id, actions);
    actions := MaterialiseOne(id, actions, Up(true, State(7, map[], ""), 7, Some(id), Replacing(id, {})), None, log);
    actions := BeatInGap(id, actions, log);
    actions := MaterialiseOne(id, actions, Up(false, EMPTY_STATE, 7, Some(id), Replacing(id, {})),
        Some(Saved(8, map[], "")), log + [Beat(0)]);
    actions := FinishBoot(id, actions, log + [Beat(0)]);
    FoldOfGap(GapReceipt(id), log + [Beat(0)]);
  }

  lemma FoldOfGap(r: Receipt, log: seq<Entry>)
    requires log == [Restart(0), Commit(0, r), Beat(0)] && r.eventTime == 7
    ensures Fold(CLOCKWORK, log + [Restart(0)]).lastEventTime == 8
  {
    FoldSnoc(CLOCKWORK, log, Restart(0));
    FoldSnoc(CLOCKWORK, [Restart(0), Commit(0, r)], Beat(0));
    FoldSnoc(CLOCKWORK, [Restart(0)], Commit(0, r));
    FoldSnoc(CLOCKWORK, [], Restart(0));
    assert [Restart(0), Commit(0, r)] + [Beat(0)] == log;
    assert [Restart(0)] + [Commit(0, r)] == [Restart(0), Commit(0, r)];
    assert [] + [Restart(0)] == [Restart(0)];
  }

  // ---- Rejected receipts are outside the order ----

  /** An engine that rejects every hook. */
  const REFUSER := Engine(
    (env: nat, state: State, id: Id, fingerprint: string, time: int) => Reject,
    (env: nat, state: State) => state,
    (env: nat, key: Key, session: Session) => session.data)

  lemma RefuseOne(i: Id, before: seq<Action>) returns (actions: seq<Action>)
    requires Run(REFUSER, INITIAL, before) == System(BLANK, Up(true, EMPTY_STATE, -1, None, Idle), [Restart(0)], {})
    ensures Run(REFUSER, INITIAL, actions) ==
            System(BLANK.(rejected := map[i := Receipt(i, "", 5, None, 1)]), Down, [Restart(0)], {})
  {
    var e, r := REFUSER, Receipt(i, "", 5, None, 0);
    var failed := r.(failures := 1);
    var refused := BLANK.(rejected := map[i := failed]);
    actions := before;
    actions := Then(e, actions, Accept(i, "", 5, true),
                    System(BLANK.(active := map[i := r]), Up(true, EMPTY_STATE, 5, None, Idle), [Restart(0)], {}));
    actions := Then(e, actions, Pick(i, 0, false),
                    System(refused.(active := map[i := failed]), Up(true, EMPTY_STATE, 5, None, Unlinking(i)),
                        [Restart(0)], {}));
    assert refused.(active := map[i := failed]).active - {i} == map[];
    actions := Then(e, actions, Advance, System(refused, Up(true, EMPTY_STATE, 5, None, Idle), [Restart(0)], {}));
    actions := Then(e, actions, Crash, System(refused, Down, [Restart(0)], {}));
  }

  /** Two receipts accepted in one millisecond, the first rejected and the daemon restarted in between: one time. */
  lemma RejectedTimeCanRepeat(i: Id, j: Id) returns (actions: seq<Action>)
    requires i != j
    ensures var s := Run(REFUSER, INITIAL, actions);
            i in s.disk.rejected && Listed(s.disk, j) && s.disk.active[j].eventTime == s.disk.rejected[i].eventTime
  {
    var e := REFUSER;
    var refused := BLANK.(rejected := map[i := Receipt(i, "", 5, None, 1)]);
    actions := StartedEmpty(e);
    actions := RefuseOne(i, actions);
    actions := Then(e, actions, Boot, System(refused, Up(false, EMPTY_STATE, -1, None, Idle), [Restart(0)], {}));
    actions := Then(e, actions, Load(0),
        System(refused, Up(true, EMPTY_STATE, -1, None, Idle), [Restart(0), Restart(0)], {}));
    var q := Receipt(j, "", 5, None, 0);
    actions := Then(e, actions, Accept(j, "", 5, true),
                    System(refused.(active := map[j := q]), Up(true, EMPTY_STATE, 5, None, Idle),
                        [Restart(0), Restart(0)], {}));
  }

  /**
   * Exactly when a new receipt is later than a rejected one: the clock, this process or the watermark has passed it.
   */
  lemma LaterThanRejectedIff(e: Engine, s: System, id: Id, fingerprint: string, now: int, rejected: Id)
    requires rejected in s.disk.rejected
    requires Apply(e, s, Accept(id, fingerprint, now, true)).disk != s.disk
    ensures var time := s.disk.rejected[rejected].eventTime;
            Apply(e, s, Accept(id, fingerprint, now, true)).disk.active[id].eventTime > time <==>
            now > time || s.mem.lastEventTime >= time || s.mem.state.lastEventTime >= time
  {
  }
}
