/** The writer lease of a data directory. */
module Lease {
  // The lease is an exclusively created file; a second one guards the takeover from an owner whose process is gone.
  // A contender is one registry instance in some process. Every file-system call and every liveness probe is one
  // step; steps of any number of contenders interleave freely and a process may die between any two steps.

  type Contender = nat  // the random token of a lease
  type Pid = nat

  /** `complete` is false in the window between creating the file and having written its JSON. */
  datatype File = Absent | Present(owner: Contender, complete: bool)

  datatype Pc =
    | CreateLock
    | ReadFirst
    | ProbeFirst(seen: Contender)
    | CreateRecovery
    | WriteRecovery
    | ReadAgain
    | ProbeAgain(seen: Contender)
    | UnlinkStale
    | ReadRecovery(retry: bool)
    | UnlinkRecovery(retry: bool)
    | CreateAfterTakeover
    | WriteLock
    | Holding
    | UnlinkOwn
    | Done

  datatype State = State(
    alive: set<Pid>,
    pid: map<Contender, Pid>,
    live: set<Contender>,  // contenders whose process has not died since they started
    pc: map<Contender, Pc>,
    lock: File,
    recovery: File)

  /** `fail` selects the outcome of a step that may go wrong on its own, such as a write to a full disk. */
  datatype Action =
    | Boot(p: Pid)
    | Start(c: Contender, p: Pid)
    | Die(p: Pid)
    | Move(c: Contender, fail: bool)

  const INITIAL := State({}, map[], {}, map[], Absent, Absent)

  /** What one step of a contender leaves: where it is in its program, and the two files. */
  datatype Effect = Effect(pc: Pc, lock: File, recovery: File)

  function Next(s: State, c: Contender, fail: bool): Effect
    requires c in s.pc
  {
    var lock, recovery := s.lock, s.recovery;
    match s.pc[c]
    case CreateLock =>
      if lock == Absent then Effect(WriteLock, Present(c, false), recovery) else Effect(ReadFirst, lock, recovery)
    case ReadFirst =>
      Effect(if lock.Present? && lock.complete then ProbeFirst(lock.owner) else Done, lock, recovery)
    case ProbeFirst(seen) =>
      Effect(if Dead(s, seen) then CreateRecovery else Done, lock, recovery)
    case CreateRecovery =>
      if recovery == Absent then Effect(WriteRecovery, lock, Present(c, false)) else Effect(Done, lock, recovery)
    case WriteRecovery =>
      if fail then Effect(Done, lock, Absent)
      else if recovery.Present? && !recovery.complete then Effect(WriteRecovery, lock, recovery.(complete := true))
      else Effect(ReadAgain, lock, recovery)
    case ReadAgain =>
      Effect(if lock.Present? && lock.complete then ProbeAgain(lock.owner) else ReadRecovery(false), lock, recovery)
    case ProbeAgain(seen) =>
      Effect(if Dead(s, seen) then UnlinkStale else ReadRecovery(false), lock, recovery)
    case UnlinkStale =>
      if fail then Effect(ReadRecovery(false), lock, recovery) else Effect(ReadRecovery(true), Absent, recovery)
    case ReadRecovery(retry) =>
      Effect(if recovery == Present(c, true) then UnlinkRecovery(retry)
             else if retry && (recovery == Absent || recovery.complete) then CreateAfterTakeover
             else Done, lock, recovery)
    case UnlinkRecovery(retry) =>
      Effect(if retry then CreateAfterTakeover else Done, lock, Absent)
    case CreateAfterTakeover =>
      if lock == Absent then Effect(WriteLock, Present(c, false), recovery) else Effect(Done, lock, recovery)
    case WriteLock =>
      if fail then Effect(Done, Absent, recovery)
      else if lock.Present? && !lock.complete then Effect(WriteLock, lock.(complete := true), recovery)
      else Effect(Holding, lock, recovery)
    case Holding =>
      Effect(if lock == Present(c, true) then UnlinkOwn else Done, lock, recovery)
    case UnlinkOwn => Effect(Done, Absent, recovery)
    case Done => Effect(Done, lock, recovery)
  }

  predicate Dead(s: State, c: Contender) {
    c in s.pid && s.pid[c] !in s.alive
  }

  function Moved(s: State, c: Contender, fail: bool): State
    requires c in s.pc
  {
    var e := Next(s, c, fail);
    s.(pc := s.pc[c := e.pc], lock := e.lock, recovery := e.recovery)
  }

  /** One step; an action that is not possible leaves the state alone. */
  function Apply(s: State, a: Action): State {
    match a
    case Boot(p) => s.(alive := s.alive + {p})
    case Start(c, p) =>
      if p in s.alive && c !in s.pid && c !in s.pc then
        s.(pid := s.pid[c := p], live := s.live + {c}, pc := s.pc[c := CreateLock])
      else s
    case Die(p) =>
      s.(alive := s.alive - {p}, live := set c | c in s.live && !(c in s.pid && s.pid[c] == p))
    case Move(c, fail) =>
      if c in s.live && c in s.pc && c in s.pid then Moved(s, c, fail) else s
  }

  function Run(s: State, actions: seq<Action>): State
    decreases |actions|
  {
    if actions == [] then s else Run(Apply(s, actions[0]), actions[1..])
  }

  /** From creating the lease file until unlinking it. */
  predicate Holds(s: State, c: Contender) {
    c in s.live && c in s.pc && (s.pc[c].WriteLock? || s.pc[c].Holding? || s.pc[c].UnlinkOwn?)
  }

  /** From creating the recovery file until unlinking it. */
  predicate Recovers(s: State, c: Contender) {
    && c in s.live
    && c in s.pc
    && (s.pc[c].WriteRecovery? || s.pc[c].ReadAgain? || s.pc[c].ProbeAgain? || s.pc[c].UnlinkStale? ||
        s.pc[c].ReadRecovery? || s.pc[c].UnlinkRecovery?)
  }

  ghost predicate MutualExclusion(s: State) {
    forall c, d :: Holds(s, c) && Holds(s, d) ==> c == d
  }

  predicate OwnerGone(s: State) {
    s.lock.Present? && s.lock.owner !in s.live
  }

  /** The step is a second probe that found the owner's process dead. */
  predicate ConfirmsStale(s: State, a: Action) {
    && a.Move?
    && a.c in s.live && a.c in s.pc && a.c in s.pid
    && s.pc[a.c].ProbeAgain?
    && s.pc[a.c].seen in s.pid && s.pid[s.pc[a.c].seen] !in s.alive
  }

  /** Every second probe that confirms staleness does so while the file at the path is that of a dead owner. */
  predicate SoundProbes(s: State, actions: seq<Action>)
    decreases |actions|
  {
    actions == [] || ((ConfirmsStale(s, actions[0]) ==> OwnerGone(s)) &&
        SoundProbes(Apply(s, actions[0]), actions[1..]))
  }

  /** Holds in every run, whatever the probes find. */
  ghost predicate RecoveryInv(s: State) {
    && s.pid.Keys == s.pc.Keys
    && s.live <= s.pid.Keys
    && (forall c :: c in s.live ==> s.pid[c] in s.alive)
    && (s.lock.Present? ==> s.lock.owner in s.pid)
    && (s.recovery.Present? ==> s.recovery.owner in s.pid)
    && (forall c :: Recovers(s, c) ==>
          s.recovery.Present? && s.recovery.owner == c && (s.pc[c].WriteRecovery? || s.recovery.complete))
  }

  ghost predicate Inv(s: State) {
    && RecoveryInv(s)
    && (forall c :: Holds(s, c) ==>
          s.lock.Present? && s.lock.owner == c && (s.pc[c].WriteLock? || s.lock.complete))
    && (s.lock.Present? && s.lock.owner in s.live ==> Holds(s, s.lock.owner))
    && (forall c :: c in s.live && s.pc[c].UnlinkStale? ==> OwnerGone(s))
  }

  /** What a step of `c` leaves alone. */
  lemma MoveFrame(s: State, c: Contender, fail: bool)
    requires RecoveryInv(s) && c in s.live
    ensures var t := Moved(s, c, fail);
            && t.live == s.live && t.pid == s.pid && t.alive == s.alive && t.pc.Keys == s.pc.Keys
            && (forall d :: d in s.pc && d != c ==> t.pc[d] == s.pc[d])
            && (t.lock.Present? ==> t.lock.owner == c || (s.lock.Present? && t.lock.owner == s.lock.owner))
            && (t.recovery.Present? ==>
                  t.recovery.owner == c || (s.recovery.Present? && t.recovery.owner == s.recovery.owner))
            && (t.recovery != s.recovery ==> Recovers(s, c) || s.recovery == Absent)
  {
  }

  lemma RecoversAfterMove(s: State, c: Contender, fail: bool, d: Contender)
    requires RecoveryInv(s) && c in s.live && Recovers(Moved(s, c, fail), d)
    ensures var t := Moved(s, c, fail);
            t.recovery.Present? && t.recovery.owner == d && (t.pc[d].WriteRecovery? || t.recovery.complete)
  {
    MoveFrame(s, c, fail);
    if d != c {
      assert Recovers(s, d);
    } else {
      RecovererAfterMove(s, c, fail);
    }
  }

  lemma RecovererAfterMove(s: State, c: Contender, fail: bool)
    requires RecoveryInv(s) && c in s.live && Recovers(Moved(s, c, fail), c)
    ensures var t := Moved(s, c, fail);
            t.recovery.Present? && t.recovery.owner == c && (t.pc[c].WriteRecovery? || t.recovery.complete)
  {
    if !s.pc[c].CreateRecovery? {
      assert Recovers(s, c);
    }
  }

  lemma RecoveryInvMove(s: State, c: Contender, fail: bool)
    requires RecoveryInv(s) && c in s.live
    ensures RecoveryInv(Moved(s, c, fail))
  {
    var t := Moved(s, c, fail);
    MoveFrame(s, c, fail);
    forall d | Recovers(t, d)
      ensures t.recovery.Present? && t.recovery.owner == d && (t.pc[d].WriteRecovery? || t.recovery.complete)
    {
      RecoversAfterMove(s, c, fail, d);
    }
  }

  lemma RecoveryInvStep(s: State, a: Action)
    requires RecoveryInv(s)
    ensures RecoveryInv(Apply(s, a))
  {
    var t := Apply(s, a);
    if a.Move? {
      if a.c in s.live {
        RecoveryInvMove(s, a.c, a.fail);
      }
    } else {
      forall c | Recovers(t, c) ensures Recovers(s, c) {
      }
    }
  }

  /** Only the holder, a taker-over about to unlink, or the creator of a missing file changes the lease file. */
  lemma LockChange(s: State, c: Contender, fail: bool)
    requires Inv(s) && c in s.live && Moved(s, c, fail).lock != s.lock
    ensures Holds(s, c) || s.pc[c].UnlinkStale? || s.lock == Absent
  {
  }

  lemma InvMoveHolders(s: State, c: Contender, fail: bool, d: Contender)
    requires Inv(s) && c in s.live && Holds(Moved(s, c, fail), d)
    ensures var t := Moved(s, c, fail);
            t.lock.Present? && t.lock.owner == d && (t.pc[d].WriteLock? || t.lock.complete)
  {
    var t := Moved(s, c, fail);
    if d != c {
      assert t.pc[d] == s.pc[d] && Holds(s, d);
      if t.lock != s.lock {
        LockChange(s, c, fail);
      }
    } else {
      assert Holds(s, c) || s.lock == Absent;
    }
  }

  lemma InvMoveTakers(s: State, c: Contender, fail: bool, d: Contender)
    requires Inv(s) && c in s.live && d in s.live && Moved(s, c, fail).pc[d].UnlinkStale?
    requires s.pc[c].ProbeAgain? && s.pc[c].seen in s.pid && s.pid[s.pc[c].seen] !in s.alive ==> OwnerGone(s)
    ensures OwnerGone(Moved(s, c, fail))
  {
    var t := Moved(s, c, fail);
    if d != c {
      assert t.pc[d] == s.pc[d];
      assert Recovers(s, d);
      assert s.pc[c].UnlinkStale? ==> Recovers(s, c);
      if t.lock != s.lock {
        LockChange(s, c, fail);
      }
    }
  }

  lemma InvStep(s: State, a: Action)
    requires Inv(s)
    requires ConfirmsStale(s, a) ==> OwnerGone(s)
    ensures Inv(Apply(s, a))
  {
    RecoveryInvStep(s, a);
    var t := Apply(s, a);
    if a.Move? && a.c in s.live {
      forall d | Holds(t, d)
        ensures t.lock.Present? && t.lock.owner == d && (t.pc[d].WriteLock? || t.lock.complete)
      {
        InvMoveHolders(s, a.c, a.fail, d);
      }
      forall d | d in t.live && t.pc[d].UnlinkStale? ensures OwnerGone(t) {
        InvMoveTakers(s, a.c, a.fail, d);
      }
      LockOwnerHolds(s, a.c, a.fail);
    } else {
      forall c | Holds(t, c) ensures Holds(s, c) {
      }
    }
  }

  lemma LockOwnerHolds(s: State, c: Contender, fail: bool)
    requires Inv(s) && c in s.live
    ensures var t := Moved(s, c, fail);
            t.lock.Present? && t.lock.owner in t.live ==> Holds(t, t.lock.owner)
  {
    var t := Moved(s, c, fail);
    if t.lock.Present? && t.lock.owner in t.live && t.lock.owner != c {
      assert t.lock == s.lock;
      assert t.pc[t.lock.owner] == s.pc[t.lock.owner];
    }
  }

  lemma {:induction false} RunInv(s: State, actions: seq<Action>)
    requires Inv(s) && SoundProbes(s, actions)
    ensures Inv(Run(s, actions))
    decreases |actions|
  {
    if actions != [] {
      InvStep(s, actions[0]);
      RunInv(Apply(s, actions[0]), actions[1..]);
    }
  }

  lemma {:induction false} RunRecoveryInv(s: State, actions: seq<Action>)
    requires RecoveryInv(s)
    ensures RecoveryInv(Run(s, actions))
    decreases |actions|
  {
    if actions != [] {
      RecoveryInvStep(s, actions[0]);
      RunRecoveryInv(Apply(s, actions[0]), actions[1..]);
    }
  }

  /**
   * Safety: as long as every confirming probe is sound, at most one live contender holds the lease, counting
   * from the creation of the file, and its file stays in place until it unlinks it itself.
   */
  lemma LeaseIsExclusive(actions: seq<Action>)
    requires SoundProbes(INITIAL, actions)
    ensures MutualExclusion(Run(INITIAL, actions))
    ensures forall c :: Holds(Run(INITIAL, actions), c) ==>
              Run(INITIAL, actions).lock.Present? && Run(INITIAL, actions).lock.owner == c
  {
    RunInv(INITIAL, actions);
  }

  /** Nobody but its owner ever removes the lease file of a live contender. */
  lemma OnlyOwnersUnlinkLiveLeases(actions: seq<Action>, a: Action)
    requires SoundProbes(INITIAL, actions + [a])
    ensures var s := Run(INITIAL, actions);
            s.lock.Present? && s.lock.owner in s.live && Apply(s, a).lock == Absent ==> a == Move(s.lock.owner, a.fail)
  {
    SoundPrefix(INITIAL, actions, a);
    RunInv(INITIAL, actions);
  }

  lemma {:induction false} SoundPrefix(s: State, actions: seq<Action>, a: Action)
    requires SoundProbes(s, actions + [a])
    ensures SoundProbes(s, actions)
    ensures ConfirmsStale(Run(s, actions), a) ==> OwnerGone(Run(s, actions))
    decreases |actions|
  {
    var all := actions + [a];
    if actions == [] {
      assert all[0] == a;
    } else {
      assert all[0] == actions[0] && all[1..] == actions[1..] + [a];
      SoundPrefix(Apply(s, actions[0]), actions[1..], a);
    }
  }

  /** A probe made in the same step as the read it judges is sound. */
  predicate ReadAndProbeTogether(s: State, actions: seq<Action>)
    decreases |actions|
  {
    |actions| == 0 ||
    ((var a := actions[0];
      a.Move? && a.c in s.live && a.c in s.pc && s.pc[a.c].ReadAgain? && s.lock.Present? && s.lock.complete ==>
        |actions| > 1 && actions[1].Move? && actions[1].c == a.c) &&
     ReadAndProbeTogether(Apply(s, actions[0]), actions[1..]))
  }

  /** The contender, if any, that has read the file again but not yet probed its owner. */
  ghost predicate ProbePending(s: State, c: Contender) {
    c in s.live && c in s.pc && s.pc[c].ProbeAgain?
  }

  lemma PendingAfter(s: State, a: Action, c: Contender)
    requires RecoveryInv(s) && ProbePending(Apply(s, a), c)
    requires ProbePending(s, c) ==> a.Move? && a.c == c
    ensures a == Move(c, a.fail) && c in s.live && s.pc[c].ReadAgain?
    ensures s.lock.Present? && s.lock.complete && Apply(s, a).lock == s.lock == Present(Apply(s, a).pc[c].seen, true)
  {
    if a.Move? && a.c in s.live {
      MoveFrame(s, a.c, a.fail);
    }
  }

  /**
   * What makes every probe sound: no step of another contender, and no death, between reading the lease file
   * for the second time and probing the process it names.
   */
  lemma {:induction false} TogetherIsSound(s: State, actions: seq<Action>)
    requires RecoveryInv(s) && ReadAndProbeTogether(s, actions)
    requires forall c :: ProbePending(s, c) ==>
               |actions| > 0 && actions[0].Move? && actions[0].c == c && s.lock == Present(s.pc[c].seen, true)
    ensures SoundProbes(s, actions)
    decreases |actions|
  {
    if actions != [] {
      var a := actions[0];
      var t := Apply(s, a);
      RecoveryInvStep(s, a);
      if ConfirmsStale(s, a) {
        assert ProbePending(s, a.c);
      }
      forall c | ProbePending(t, c)
        ensures |actions[1..]| > 0 && actions[1..][0].Move? && actions[1..][0].c == c &&
                t.lock == Present(t.pc[c].seen, true)
      {
        PendingAfter(s, a, c);
      }
      TogetherIsSound(t, actions[1..]);
    }
  }

  lemma LeaseIsExclusiveWhenProbedTogether(actions: seq<Action>)
    requires ReadAndProbeTogether(INITIAL, actions)
    ensures MutualExclusion(Run(INITIAL, actions))
  {
    TogetherIsSound(INITIAL, actions);
    LeaseIsExclusive(actions);
  }

  // ---- What an unsound probe costs ----

  /** Four steps of a contender that is about to unlink give it the lease, whoever owned the file. */
  function Takeover(c: Contender): seq<Action> {
    [Move(c, false), Move(c, false), Move(c, false), Move(c, false)]
  }

  lemma TakeoverHolds(s: State, c: Contender)
    requires RecoveryInv(s) && c in s.live && s.pc[c].UnlinkStale?
    ensures var t := Run(s, Takeover(c));
            Holds(t, c) && t.live == s.live && forall d :: d != c && d in s.pc ==> d in t.pc && t.pc[d] == s.pc[d]
  {
    assert Recovers(s, c);
    var s1 := Apply(s, Move(c, false));
    var s2 := Apply(s1, Move(c, false));
    var s3 := Apply(s2, Move(c, false));
    var s4 := Apply(s3, Move(c, false));
    assert s1.pc[c] == ReadRecovery(true) && s1.lock == Absent;
    assert s2.pc[c] == UnlinkRecovery(true);
    assert s3.pc[c] == CreateAfterTakeover;
    assert s4.pc[c] == WriteLock;
    var acts := Takeover(c);
    assert acts[1..] == [Move(c, false), Move(c, false), Move(c, false)];
    assert acts[1..][1..] == [Move(c, false), Move(c, false)];
    assert acts[1..][1..][1..] == [Move(c, false)];
    assert acts[1..][1..][1..][1..] == [];
    assert Run(s, acts) == Run(s1, acts[1..]) == Run(s2, acts[1..][1..]) == Run(s3, acts[1..][1..][1..]) == Run(s4, []);
  }

  lemma {:induction false} RunConcat(s: State, xs: seq<Action>, ys: seq<Action>)
    ensures Run(s, xs + ys) == Run(Run(s, xs), ys)
    decreases |xs|
  {
    if xs == [] {
      assert xs + ys == ys;
    } else {
      assert (xs + ys)[0] == xs[0] && (xs + ys)[1..] == xs[1..] + ys;
      RunConcat(Apply(s, xs[0]), xs[1..], ys);
    }
  }

  lemma FreshContender(s: State) returns (c: Contender)
    ensures c !in s.pid && c !in s.pc
  {
    c := AboveAll(s.pid.Keys + s.pc.Keys);
  }

  lemma {:induction false} AboveAll(cs: set<Contender>) returns (m: Contender)
    ensures forall c :: c in cs ==> c < m
  {
    if cs == {} {
      m := 0;
    } else {
      var c :| c in cs;
      var n := AboveAll(cs - {c});
      m := if c < n then n else c + 1;
      assert forall d :: d in cs ==> d == c || d in cs - {c};
    }
  }

  /**
   * Exactly when a confirming probe is safe. If the file at the path is not that of a dead owner, then some
   * continuation ends with two live holders; if it is, no continuation with sound probes does.
   */
  lemma ProbeIsSafeIffOwnerGone(s: State, a: Action)
    requires Inv(s) && ConfirmsStale(s, a)
    ensures OwnerGone(s) <==>
            forall more :: SoundProbes(Apply(s, a), more) ==> MutualExclusion(Run(Apply(s, a), more))
  {
    var t := Apply(s, a);
    RecoveryInvStep(s, a);
    if OwnerGone(s) {
      InvStep(s, a);
      forall more | SoundProbes(t, more) ensures MutualExclusion(Run(t, more)) {
        RunInv(t, more);
      }
    } else {
      var prelude, d := LivePrelude(s, t, a.c);
      TakeoverBreaks(t, a.c, d, prelude);
    }
  }

  predicate StillUnlinks(s: State, c: Contender) {
    c in s.live && c in s.pc && s.pc[c].UnlinkStale?
  }

  /** If nobody holds the lease, somebody can take it before the file is unlinked. */
  lemma LivePrelude(s: State, t: State, c: Contender) returns (prelude: seq<Action>, d: Contender)
    requires Inv(s) && !OwnerGone(s) && RecoveryInv(t) && ConfirmsStale(s, Move(c, false)) &&
             t == Apply(s, Move(c, false))
    ensures d != c && Holds(Run(t, prelude), d) && StillUnlinks(Run(t, prelude), c)
    ensures prelude == [] || (d !in t.pid && t.lock == Absent && prelude == [Start(d, t.pid[c]), Move(d, false)])
    ensures c in t.live && t.pc[c].UnlinkStale?
  {
    assert t.pc[c].UnlinkStale? && c in t.live;
    if s.lock == Absent {
      d := FreshContender(t);
      prelude := [Start(d, s.pid[c]), Move(d, false)];
      var t1 := Apply(t, prelude[0]);
      var t2 := Apply(t1, prelude[1]);
      assert prelude[1..] == [Move(d, false)] && prelude[1..][1..] == [];
      assert t1.pc[d] == CreateLock && t2.pc[d] == WriteLock;
      assert Run(t, prelude) == Run(t1, prelude[1..]) == Run(t2, []) == t2;
    } else {
      d := s.lock.owner;
      prelude := [];
      assert Holds(s, d) && Holds(t, d);
    }
  }

  lemma TakeoverBreaks(t: State, c: Contender, d: Contender, prelude: seq<Action>)
    requires RecoveryInv(t) && c in t.live && t.pc[c].UnlinkStale?
    requires d != c && Holds(Run(t, prelude), d) && StillUnlinks(Run(t, prelude), c)
    requires prelude == [] || (d !in t.pid && t.lock == Absent && prelude == [Start(d, t.pid[c]), Move(d, false)])
    ensures SoundProbes(t, prelude + Takeover(c)) && !MutualExclusion(Run(t, prelude + Takeover(c)))
  {
    var u := Run(t, prelude);
    RunRecoveryInv(t, prelude);
    TakeoverHolds(u, c);
    RunConcat(t, prelude, Takeover(c));
    var v := Run(t, prelude + Takeover(c));
    assert Holds(v, c) && Holds(v, d);
    TakeoverIsSound(t, c, d, prelude);
  }

  lemma TakeoverIsSound(t: State, c: Contender, d: Contender, prelude: seq<Action>)
    requires RecoveryInv(t) && c in t.live && t.pc[c].UnlinkStale?
    requires prelude == [] || (d !in t.pid && t.lock == Absent && prelude == [Start(d, t.pid[c]), Move(d, false)])
    ensures SoundProbes(t, prelude + Takeover(c))
  {
    var acts := prelude + Takeover(c);
    if prelude == [] {
      assert acts == Takeover(c);
      TakeoverAloneIsSound(t, c);
    } else {
      var t1 := Apply(t, acts[0]);
      var t2 := Apply(t1, acts[1]);
      assert t1.pc[d] == CreateLock;
      RecoveryInvStep(t, acts[0]);
      RecoveryInvStep(t1, acts[1]);
      TakeoverAloneIsSound(t2, c);
      assert acts[1..][0] == acts[1];
      assert acts[1..][1..] == Takeover(c);
      assert SoundProbes(t1, acts[1..]);
    }
  }

  lemma TakeoverAloneIsSound(t: State, c: Contender)
    requires RecoveryInv(t) && c in t.live && t.pc[c].UnlinkStale?
    ensures SoundProbes(t, Takeover(c))
  {
    assert Recovers(t, c);
    var step := Move(c, false);
    var s1 := Apply(t, step);
    var s2 := Apply(s1, step);
    var s3 := Apply(s2, step);
    assert s1.pc[c] == ReadRecovery(true) && s2.pc[c] == UnlinkRecovery(true) && s3.pc[c] == CreateAfterTakeover;
    assert [step][1..] == [] && [step, step][1..] == [step] && [step, step, step][1..] == [step, step];
    assert SoundProbes(s3, [step]);
    assert SoundProbes(s2, [step, step]);
    assert SoundProbes(s1, [step, step, step]);
    assert Takeover(c)[0] == step && Takeover(c)[1..] == [step, step, step];
  }

  // ---- A run that ends in an unsound probe ----

  /** The states of the race below: contenders 0, 1 and 2 in processes 10, 11 and 12. */
  function Race(alive: set<Pid>, live: set<Contender>, pc0: Pc, pc1: Pc, pc2: Pc, lock: File, recovery: File): State {
    State(alive, map[0 := 10, 1 := 11, 2 := 12], live, map[0 := pc0, 1 := pc1, 2 := pc2], lock, recovery)
  }

  /** Extends a run from the start by one step. */
  lemma Then(actions: seq<Action>, a: Action, t: State) returns (longer: seq<Action>)
    requires SoundProbes(INITIAL, actions) && Apply(Run(INITIAL, actions), a) == t
    requires ConfirmsStale(Run(INITIAL, actions), a) ==> OwnerGone(Run(INITIAL, actions))
    ensures longer == actions + [a] && SoundProbes(INITIAL, longer) && Run(INITIAL, longer) == t
  {
    longer := actions + [a];
    SoundSnoc(INITIAL, actions, a);
    RunConcat(INITIAL, actions, [a]);
    assert [a][1..] == [];
  }

  lemma {:induction false} SoundSnoc(s: State, actions: seq<Action>, a: Action)
    requires SoundProbes(s, actions)
    requires ConfirmsStale(Run(s, actions), a) ==> OwnerGone(Run(s, actions))
    ensures SoundProbes(s, actions + [a])
    decreases |actions|
  {
    var all := actions + [a];
    if actions == [] {
      assert all[1..] == [];
    } else {
      assert all[0] == actions[0] && all[1..] == actions[1..] + [a];
      SoundSnoc(Apply(s, actions[0]), actions[1..], a);
    }
  }

  lemma RaceStart() returns (actions: seq<Action>)
    ensures SoundProbes(INITIAL, actions)
    ensures Run(INITIAL, actions) == Race({10, 11, 12}, {0, 1, 2}, CreateLock, CreateLock, CreateLock, Absent, Absent)
  {
    actions := [];
    var s0 := INITIAL;
    var s1 := Apply(s0, Boot(10));
    actions := Then(actions, Boot(10), s1);
    var s2 := Apply(s1, Boot(11));
    actions := Then(actions, Boot(11), s2);
    var s3 := Apply(s2, Boot(12));
    actions := Then(actions, Boot(12), s3);
    var s4 := Apply(s3, Start(0, 10));
    actions := Then(actions, Start(0, 10), s4);
    var s5 := Apply(s4, Start(1, 11));
    actions := Then(actions, Start(1, 11), s5);
    var s6 := Apply(s5, Start(2, 12));
    actions := Then(actions, Start(2, 12), s6);
    assert s6 == Race({10, 11, 12}, {0, 1, 2}, CreateLock, CreateLock, CreateLock, Absent, Absent);
  }

  /** Contender 0 dies once its lease is written. */
  lemma OwnerDiesHolding(before: seq<Action>) returns (actions: seq<Action>)
    requires SoundProbes(INITIAL, before)
    requires Run(INITIAL, before) == Race({10, 11, 12}, {0, 1, 2}, CreateLock, CreateLock, CreateLock, Absent, Absent)
    ensures SoundProbes(INITIAL, actions)
    ensures Run(INITIAL, actions) == Race({11, 12}, {1, 2}, WriteLock, CreateLock, CreateLock, Present(0, true), Absent)
  {
    actions := before;
    actions := Then(actions, Move(0, false),
        Race({10, 11, 12}, {0, 1, 2}, WriteLock, CreateLock, CreateLock, Present(0, false), Absent));
    actions := Then(actions, Move(0, false),
        Race({10, 11, 12}, {0, 1, 2}, WriteLock, CreateLock, CreateLock, Present(0, true), Absent));
    actions := Then(actions, Die(10),
        Race({11, 12}, {1, 2}, WriteLock, CreateLock, CreateLock, Present(0, true), Absent));
  }

  /** Contenders 1 and 2 both find it stale. */
  lemma TwoFindItStale(before: seq<Action>) returns (actions: seq<Action>)
    requires SoundProbes(INITIAL, before)
    requires Run(INITIAL, before) == Race({11, 12}, {1, 2}, WriteLock, CreateLock, CreateLock, Present(0, true), Absent)
    ensures SoundProbes(INITIAL, actions)
    ensures Run(INITIAL, actions) ==
              Race({11, 12}, {1, 2}, WriteLock, CreateRecovery, CreateRecovery, Present(0, true), Absent)
  {
    actions := before;
    actions := Then(actions, Move(1, false),
        Race({11, 12}, {1, 2}, WriteLock, ReadFirst, CreateLock, Present(0, true), Absent));
    actions := Then(actions, Move(1, false),
        Race({11, 12}, {1, 2}, WriteLock, ProbeFirst(0), CreateLock, Present(0, true), Absent));
    actions := Then(actions, Move(1, false),
        Race({11, 12}, {1, 2}, WriteLock, CreateRecovery, CreateLock, Present(0, true), Absent));
    actions := SecondFindsItStale(actions);
  }

  lemma SecondFindsItStale(before: seq<Action>) returns (actions: seq<Action>)
    requires SoundProbes(INITIAL, before)
    requires Run(INITIAL, before) ==
               Race({11, 12}, {1, 2}, WriteLock, CreateRecovery, CreateLock, Present(0, true), Absent)
    ensures SoundProbes(INITIAL, actions)
    ensures Run(INITIAL, actions) ==
              Race({11, 12}, {1, 2}, WriteLock, CreateRecovery, CreateRecovery, Present(0, true), Absent)
  {
    actions := before;
    actions := Then(actions, Move(2, false),
        Race({11, 12}, {1, 2}, WriteLock, CreateRecovery, ReadFirst, Present(0, true), Absent));
    actions := Then(actions, Move(2, false),
        Race({11, 12}, {1, 2}, WriteLock, CreateRecovery, ProbeFirst(0), Present(0, true), Absent));
    actions := Then(actions, Move(2, false),
        Race({11, 12}, {1, 2}, WriteLock, CreateRecovery, CreateRecovery, Present(0, true), Absent));
  }

  /** Contender 2 unlinks the stale lease ... */
  lemma OneTakesOver(before: seq<Action>) returns (actions: seq<Action>)
    requires SoundProbes(INITIAL, before)
    requires Run(INITIAL, before) ==
               Race({11, 12}, {1, 2}, WriteLock, CreateRecovery, CreateRecovery, Present(0, true), Absent)
    ensures SoundProbes(INITIAL, actions)
    ensures Run(INITIAL, actions) ==
              Race({11, 12}, {1, 2}, WriteLock, CreateRecovery, ReadRecovery(true), Absent, Present(2, true))
  {
    actions := before;
    actions := Then(actions, Move(2, false),
        Race({11, 12}, {1, 2}, WriteLock, CreateRecovery, WriteRecovery, Present(0, true), Present(2, false)));
    actions := Then(actions, Move(2, false),
        Race({11, 12}, {1, 2}, WriteLock, CreateRecovery, WriteRecovery, Present(0, true), Present(2, true)));
    actions := Then(actions, Move(2, false),
        Race({11, 12}, {1, 2}, WriteLock, CreateRecovery, ReadAgain, Present(0, true), Present(2, true)));
    actions := Then(actions, Move(2, false),
        Race({11, 12}, {1, 2}, WriteLock, CreateRecovery, ProbeAgain(0), Present(0, true), Present(2, true)));
    actions := Then(actions, Move(2, false),
        Race({11, 12}, {1, 2}, WriteLock, CreateRecovery, UnlinkStale, Present(0, true), Present(2, true)));
    actions := Then(actions, Move(2, false),
        Race({11, 12}, {1, 2}, WriteLock, CreateRecovery, ReadRecovery(true), Absent, Present(2, true)));
  }

  /** ... removes the recovery file and acquires the lease. */
  lemma OneAcquires(before: seq<Action>) returns (actions: seq<Action>)
    requires SoundProbes(INITIAL, before)
    requires Run(INITIAL, before) ==
               Race({11, 12}, {1, 2}, WriteLock, CreateRecovery, ReadRecovery(true), Absent, Present(2, true))
    ensures SoundProbes(INITIAL, actions)
    ensures Run(INITIAL, actions) ==
              Race({11, 12}, {1, 2}, WriteLock, CreateRecovery, Holding, Present(2, true), Absent)
  {
    actions := before;
    actions := Then(actions, Move(2, false),
        Race({11, 12}, {1, 2}, WriteLock, CreateRecovery, UnlinkRecovery(true), Absent, Present(2, true)));
    actions := Then(actions, Move(2, false),
        Race({11, 12}, {1, 2}, WriteLock, CreateRecovery, CreateAfterTakeover, Absent, Absent));
    actions := Then(actions, Move(2, false),
        Race({11, 12}, {1, 2}, WriteLock, CreateRecovery, WriteLock, Present(2, false), Absent));
    actions := Then(actions, Move(2, false),
        Race({11, 12}, {1, 2}, WriteLock, CreateRecovery, WriteLock, Present(2, true), Absent));
    actions := Then(actions, Move(2, false),
        Race({11, 12}, {1, 2}, WriteLock, CreateRecovery, Holding, Present(2, true), Absent));
  }

  /** Contender 1 reads the new lease. */
  lemma OtherReadsNewLease(before: seq<Action>) returns (actions: seq<Action>)
    requires SoundProbes(INITIAL, before)
    requires Run(INITIAL, before) ==
               Race({11, 12}, {1, 2}, WriteLock, CreateRecovery, Holding, Present(2, true), Absent)
    ensures SoundProbes(INITIAL, actions)
    ensures Run(INITIAL, actions) ==
              Race({11, 12}, {1, 2}, WriteLock, ProbeAgain(2), Holding, Present(2, true), Present(1, true))
  {
    actions := before;
    actions := Then(actions, Move(1, false),
        Race({11, 12}, {1, 2}, WriteLock, WriteRecovery, Holding, Present(2, true), Present(1, false)));
    actions := Then(actions, Move(1, false),
        Race({11, 12}, {1, 2}, WriteLock, WriteRecovery, Holding, Present(2, true), Present(1, true)));
    actions := ReadsAgain(actions);
  }

  lemma ReadsAgain(before: seq<Action>) returns (actions: seq<Action>)
    requires SoundProbes(INITIAL, before)
    requires Run(INITIAL, before) ==
               Race({11, 12}, {1, 2}, WriteLock, WriteRecovery, Holding, Present(2, true), Present(1, true))
    ensures SoundProbes(INITIAL, actions)
    ensures Run(INITIAL, actions) ==
              Race({11, 12}, {1, 2}, WriteLock, ProbeAgain(2), Holding, Present(2, true), Present(1, true))
  {
    actions := before;
    actions := Then(actions, Move(1, false),
        Race({11, 12}, {1, 2}, WriteLock, ReadAgain, Holding, Present(2, true), Present(1, true)));
    actions := Then(actions, Move(1, false),
        Race({11, 12}, {1, 2}, WriteLock, ProbeAgain(2), Holding, Present(2, true), Present(1, true)));
  }

  /** Contender 2 closes and its process exits. */
  lemma NewLeaseGoes(before: seq<Action>) returns (actions: seq<Action>)
    requires SoundProbes(INITIAL, before)
    requires Run(INITIAL, before) ==
               Race({11, 12}, {1, 2}, WriteLock, ProbeAgain(2), Holding, Present(2, true), Present(1, true))
    ensures SoundProbes(INITIAL, actions)
    ensures Run(INITIAL, actions) == Race({11}, {1}, WriteLock, ProbeAgain(2), Done, Absent, Present(1, true))
  {
    actions := before;
    actions := Then(actions, Move(2, false),
        Race({11, 12}, {1, 2}, WriteLock, ProbeAgain(2), UnlinkOwn, Present(2, true), Present(1, true)));
    actions := Then(actions, Move(2, false),
        Race({11, 12}, {1, 2}, WriteLock, ProbeAgain(2), Done, Absent, Present(1, true)));
    actions := Then(actions, Die(12), Race({11}, {1}, WriteLock, ProbeAgain(2), Done, Absent, Present(1, true)));
  }

  /**
   * Mutual exclusion is not kept by every interleaving: a read and a probe of the second staleness check that
   * are apart can make contender 1 unlink a lease that is live.
   */
  lemma ExclusionCanFail() returns (actions: seq<Action>)
    ensures SoundProbes(INITIAL, actions)
    ensures var s := Run(INITIAL, actions);
            && ConfirmsStale(s, Move(1, false)) && !OwnerGone(s)
            && exists more :: !MutualExclusion(Run(Apply(s, Move(1, false)), more))
  {
    actions := RaceStart();
    actions := OwnerDiesHolding(actions);
    actions := TwoFindItStale(actions);
    actions := OneTakesOver(actions);
    actions := OneAcquires(actions);
    actions := OtherReadsNewLease(actions);
    actions := NewLeaseGoes(actions);
    RunInv(INITIAL, actions);
    ProbeIsSafeIffOwnerGone(Run(INITIAL, actions), Move(1, false));
  }

  // ---- A contender that is left alone ----

  function Moves(c: Contender, n: nat): (moves: seq<Action>)
    ensures |moves| == n
  {
    seq(n, _ => Move(c, false))
  }

  lemma NextMove(s: State, c: Contender, n: nat)
    ensures Run(s, Moves(c, n + 1)) == Run(Apply(s, Move(c, false)), Moves(c, n))
  {
    assert Moves(c, n + 1)[1..] == Moves(c, n);
  }

  /** The file at the path is the finished lease of a process that is gone. */
  predicate Stale(s: State) {
    s.lock.Present? && s.lock.complete && s.lock.owner in s.pid && s.pid[s.lock.owner] !in s.alive
  }

  /** Where a contender is, with the rest of the world as it was. */
  predicate At(s: State, t: State, c: Contender, pc: Pc, lock: File, recovery: File) {
    t == s.(pc := s.pc[c := pc], lock := lock, recovery := recovery)
  }

  ghost predicate Ready(s: State, c: Contender) {
    RecoveryInv(s) && c in s.live && s.pc[c].CreateLock?
  }

  /** A free path is taken in three moves. */
  lemma TakesFreePath(s: State, c: Contender)
    requires Ready(s, c) && s.lock == Absent
    ensures At(s, Run(s, Moves(c, 3)), c, Holding, Present(c, true), s.recovery)
  {
    var s1 := Apply(s, Move(c, false));
    var s2 := Apply(s1, Move(c, false));
    NextMove(s, c, 2);
    NextMove(s1, c, 1);
    NextMove(s2, c, 0);
    assert s1.pc[c] == WriteLock && s1.lock == Present(c, false);
    assert s2.pc[c] == WriteLock && s2.lock == Present(c, true);
  }

  /** A path in use is left alone: the contender gives up in two or three moves and never touches either file. */
  lemma LeavesUsedPath(s: State, c: Contender, n: nat)
    requires Ready(s, c) && s.lock.Present? && !Stale(s)
    ensures At(s, Run(s, Moves(c, 3)), c, Done, s.lock, s.recovery)
    ensures n <= 3 ==> Run(s, Moves(c, n)).lock == s.lock && Run(s, Moves(c, n)).recovery == s.recovery
  {
    var s1 := Apply(s, Move(c, false));
    var s2 := Apply(s1, Move(c, false));
    NextMove(s, c, 2);
    NextMove(s1, c, 1);
    NextMove(s2, c, 0);
    NextMove(s, c, 1);
    NextMove(s1, c, 0);
    NextMove(s, c, 0);
    assert s1.pc[c] == ReadFirst && s2.pc[c] in {Done, ProbeFirst(s.lock.owner)};
    assert Run(s, Moves(c, 0)) == s;
  }

  lemma FindsStale(s: State, c: Contender)
    requires Ready(s, c) && Stale(s)
    ensures At(s, Run(s, Moves(c, 3)), c, CreateRecovery, s.lock, s.recovery)
  {
    var s1 := Apply(s, Move(c, false));
    var s2 := Apply(s1, Move(c, false));
    NextMove(s, c, 2);
    NextMove(s1, c, 1);
    NextMove(s2, c, 0);
    assert s1.pc[c] == ReadFirst && s2.pc[c] == ProbeFirst(s.lock.owner);
  }

  /** While another takes over, the contender gives up. */
  lemma LeavesTakeover(s: State, c: Contender)
    requires Ready(s, c) && Stale(s) && s.recovery.Present?
    ensures At(s, Run(s, Moves(c, 4)), c, Done, s.lock, s.recovery)
  {
    FindsStale(s, c);
    var t := Run(s, Moves(c, 3));
    MovesConcat(s, c, 3, 1);
    NextMove(t, c, 0);
  }

  lemma MovesConcat(s: State, c: Contender, m: nat, n: nat)
    ensures Run(s, Moves(c, m + n)) == Run(Run(s, Moves(c, m)), Moves(c, n))
  {
    assert Moves(c, m + n) == Moves(c, m) + Moves(c, n);
    RunConcat(s, Moves(c, m), Moves(c, n));
  }

  lemma WritesRecovery(s: State, t: State, c: Contender)
    requires c in s.live && c in s.pid && At(s, t, c, CreateRecovery, s.lock, Absent)
    ensures At(s, Run(t, Moves(c, 3)), c, ReadAgain, s.lock, Present(c, true))
  {
    var t1 := Apply(t, Move(c, false));
    var t2 := Apply(t1, Move(c, false));
    NextMove(t, c, 2);
    NextMove(t1, c, 1);
    NextMove(t2, c, 0);
    assert At(s, t1, c, WriteRecovery, s.lock, Present(c, false));
    assert At(s, t2, c, WriteRecovery, s.lock, Present(c, true));
  }

  /** From the second look to the unlinking of the stale lease. */
  lemma Confirms(s: State, t: State, c: Contender)
    requires c in s.live && c in s.pid && Stale(s) && At(s, t, c, ReadAgain, s.lock, Present(c, true))
    ensures At(s, Run(t, Moves(c, 3)), c, ReadRecovery(true), Absent, Present(c, true))
  {
    var t1 := Apply(t, Move(c, false));
    var t2 := Apply(t1, Move(c, false));
    NextMove(t, c, 2);
    NextMove(t1, c, 1);
    NextMove(t2, c, 0);
    assert At(s, t1, c, ProbeAgain(s.lock.owner), s.lock, Present(c, true));
    assert At(s, t2, c, UnlinkStale, s.lock, Present(c, true));
  }

  lemma RemovesRecovery(s: State, t: State, c: Contender)
    requires c in s.live && c in s.pid && At(s, t, c, ReadRecovery(true), Absent, Present(c, true))
    ensures At(s, Run(t, Moves(c, 2)), c, CreateAfterTakeover, Absent, Absent)
  {
    var t1 := Apply(t, Move(c, false));
    NextMove(t, c, 1);
    NextMove(t1, c, 0);
    assert At(s, t1, c, UnlinkRecovery(true), Absent, Present(c, true));
  }

  lemma TakesOver(s: State, t: State, c: Contender)
    requires c in s.live && c in s.pid && At(s, t, c, CreateAfterTakeover, Absent, Absent)
    ensures At(s, Run(t, Moves(c, 3)), c, Holding, Present(c, true), Absent)
  {
    var t1 := Apply(t, Move(c, false));
    var t2 := Apply(t1, Move(c, false));
    NextMove(t, c, 2);
    NextMove(t1, c, 1);
    NextMove(t2, c, 0);
    assert At(s, t1, c, WriteLock, Present(c, false), Absent);
    assert At(s, t2, c, WriteLock, Present(c, true), Absent);
  }

  lemma TakesStalePath(s: State, c: Contender)
    requires Ready(s, c) && Stale(s) && s.recovery == Absent
    ensures At(s, Run(s, Moves(c, 14)), c, Holding, Present(c, true), Absent)
  {
    FindsStale(s, c);
    var t := Run(s, Moves(c, 3));
    WritesRecovery(s, t, c);
    var u := Run(t, Moves(c, 3));
    Confirms(s, u, c);
    var v := Run(u, Moves(c, 3));
    RemovesRecovery(s, v, c);
    TakesOver(s, Run(v, Moves(c, 2)), c);
    MovesConcat(v, c, 2, 3);
    MovesConcat(u, c, 3, 5);
    MovesConcat(t, c, 3, 8);
    MovesConcat(s, c, 3, 11);
  }

  /**
   * In every state of every run: a contender that starts and is left alone gets the lease exactly if the path is free,
   * or has the finished lease of a process that is gone and nobody else is taking over; then the lease is its own and
   * no recovery file of its own is left. Otherwise it gives up and both files are as they were.
   */
  lemma AcquiresAloneIff(actions: seq<Action>, c: Contender, p: Pid) returns (n: nat)
    requires var s := Run(INITIAL, actions); p in s.alive && c !in s.pid
    ensures var s := Run(INITIAL, actions);
            var started := Apply(s, Start(c, p));
            var t := Run(started, Moves(c, n));
            if s.lock == Absent then At(started, t, c, Holding, Present(c, true), s.recovery)
            else if Stale(s) && s.recovery == Absent then At(started, t, c, Holding, Present(c, true), Absent)
            else At(started, t, c, Done, s.lock, s.recovery)
  {
    RunRecoveryInv(INITIAL, actions);
    var s := Run(INITIAL, actions);
    n := AcquiresFrom(s, Apply(s, Start(c, p)), c, p);
  }

  lemma AcquiresFrom(s: State, started: State, c: Contender, p: Pid) returns (n: nat)
    requires RecoveryInv(s) && p in s.alive && c !in s.pid && started == Apply(s, Start(c, p))
    ensures var t := Run(started, Moves(c, n));
            if s.lock == Absent then At(started, t, c, Holding, Present(c, true), s.recovery)
            else if Stale(s) && s.recovery == Absent then At(started, t, c, Holding, Present(c, true), Absent)
            else At(started, t, c, Done, s.lock, s.recovery)
  {
    RecoveryInvStep(s, Start(c, p));
    assert Stale(started) <==> Stale(s);
    if s.lock == Absent {
      n := 3;
      TakesFreePath(started, c);
    } else if !Stale(s) {
      n := 3;
      LeavesUsedPath(started, c, 0);
    } else if s.recovery == Absent {
      n := 14;
      TakesStalePath(started, c);
    } else {
      n := 4;
      LeavesTakeover(started, c);
    }
  }

  /** If the second look finds no finished lease, or its owner alive, the contender goes without touching the path. */
  lemma SecondLookGivesUp(s: State, c: Contender)
    requires RecoveryInv(s) && c in s.live
    requires (s.pc[c].ReadAgain? && !(s.lock.Present? && s.lock.complete)) ||
             (s.pc[c].ProbeAgain? && !(s.pc[c].seen in s.pid && s.pid[s.pc[c].seen] !in s.alive))
    ensures At(s, Run(s, Moves(c, 3)), c, Done, s.lock, Absent)
  {
    assert Recovers(s, c);
    GivesUp(s, c);
  }

  lemma GivesUp(s: State, c: Contender)
    requires c in s.live && c in s.pc && c in s.pid && s.recovery == Present(c, true)
    requires (s.pc[c].ReadAgain? && !(s.lock.Present? && s.lock.complete)) ||
             (s.pc[c].ProbeAgain? && !(s.pc[c].seen in s.pid && s.pid[s.pc[c].seen] !in s.alive))
    ensures At(s, Run(s, Moves(c, 3)), c, Done, s.lock, Absent)
  {
    var t := Apply(s, Move(c, false));
    NextMove(s, c, 2);
    assert At(s, t, c, ReadRecovery(false), s.lock, s.recovery);
    GoesAway(s, t, c);
  }

  lemma GoesAway(s: State, t: State, c: Contender)
    requires c in s.live && c in s.pid && At(s, t, c, ReadRecovery(false), s.lock, Present(c, true))
    ensures At(s, Run(t, Moves(c, 2)), c, Done, s.lock, Absent)
  {
    var u := Apply(t, Move(c, false));
    NextMove(t, c, 1);
    NextMove(u, c, 0);
    assert At(s, u, c, UnlinkRecovery(false), s.lock, Present(c, true));
  }

  /** A write that fails takes its file with it, an unlinking that fails leaves the lease; either way it is over. */
  lemma FailureGivesUp(s: State, c: Contender)
    requires RecoveryInv(s) && c in s.live
    ensures var t := Apply(s, Move(c, true));
            && (s.pc[c].WriteLock? ==> At(s, t, c, Done, Absent, s.recovery))
            && (s.pc[c].WriteRecovery? ==> At(s, t, c, Done, s.lock, Absent))
            && (s.pc[c].UnlinkStale? ==> At(s, Run(t, Moves(c, 2)), c, Done, s.lock, Absent))
  {
    if s.pc[c].UnlinkStale? {
      assert Recovers(s, c);
      GoesAway(s, Apply(s, Move(c, true)), c);
    }
  }

  /** Releasing removes the file at the path exactly if it is still the contender's own. */
  lemma ReleasesOwn(s: State, c: Contender)
    requires c in s.live && c in s.pc && c in s.pid && s.pc[c].Holding?
    ensures var lock := if s.lock == Present(c, true) then Absent else s.lock;
            At(s, Run(s, Moves(c, 2)), c, Done, lock, s.recovery)
  {
    var t := Apply(s, Move(c, false));
    NextMove(s, c, 1);
    NextMove(t, c, 0);
  }

  // ---- What is left of those that are done ----

  /** A file of a live contender is in use by it. */
  predicate RecoveryInUse(s: State) {
    s.recovery.Present? && s.recovery.owner in s.live ==> Recovers(s, s.recovery.owner)
  }

  lemma RecoveryInUseStep(s: State, a: Action)
    requires RecoveryInv(s) && RecoveryInUse(s)
    ensures RecoveryInUse(Apply(s, a))
  {
    if a.Move? && a.c in s.live {
      assert Recovers(s, a.c) ==> s.recovery.Present? && s.recovery.owner == a.c;
    }
  }

  lemma {:induction false} RecoveryInUseRun(s: State, actions: seq<Action>)
    requires RecoveryInv(s) && RecoveryInUse(s)
    ensures RecoveryInUse(Run(s, actions))
    decreases |actions|
  {
    if actions != [] {
      RecoveryInvStep(s, actions[0]);
      RecoveryInUseStep(s, actions[0]);
      RecoveryInUseRun(Apply(s, actions[0]), actions[1..]);
    }
  }

  /** In every run a live contender that is done has left no recovery file, and with sound probes no lease. */
  lemma NothingIsLeftBehind(actions: seq<Action>, c: Contender)
    ensures var s := Run(INITIAL, actions);
            c in s.live && c in s.pc && s.pc[c] == Done ==>
              && !(s.recovery.Present? && s.recovery.owner == c)
              && (SoundProbes(INITIAL, actions) ==> !(s.lock.Present? && s.lock.owner == c))
  {
    RecoveryInUseRun(INITIAL, actions);
    if SoundProbes(INITIAL, actions) {
      RunInv(INITIAL, actions);
    }
  }
}
