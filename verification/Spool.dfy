/** The spool of jobs for the server: folding, delivering, setting aside. */
module Spool {
  import opened Wrappers
  import opened TreeMerge

  type JobId(==, !new)

  datatype Job = EventJob | SnapshotJob(tree: Tree) | RunJob(tree: Tree) | TranscriptJob(notBefore: nat)

  /**
   * What the processor is in the middle of: the two durable steps of folding one job into another, or of delivering
   * one.
   */
  datatype Doing = Idle | Folding(older: JobId, newer: JobId) | Sent(id: JobId)

  datatype World = World(pending: map<JobId, Job>, failed: map<JobId, Job>, server: map<TaskId, Tree>, doing: Doing,
                         known: set<JobId>, delivered: set<JobId>, folded: map<JobId, JobId>, accepted: set<Tree>)

  datatype Action =
    | Enqueue(id: JobId, job: Job)
    | Fold(older: JobId, newer: JobId)
    | FoldDone
    | Send(id: JobId)
    | SendDone
    | Reject(id: JobId)
    | Crash
    | Elsewhere(tree: Tree)  // another program records a tree

  type MergeFn = (Tree, Tree) -> Option<Tree>

  /** Merging as the tree package does it. */
  ghost predicate Faithful(merge: MergeFn) {
    forall a, b :: merge(a, b) == Merge(a, b)
  }

  /** What the spool relies on: two captured trees that merge become a captured tree that says what either says. */
  ghost predicate Joins(merge: MergeFn) {
    forall a, b :: Good(a) && Good(b) && merge(a, b).Some? ==>
      && Good(merge(a, b).value) && Items(merge(a, b).value) == Items(a) + Items(b)
      && merge(a, b).value.task == a.task == b.task && merge(a, b).value.root == a.root == b.root
  }

  lemma FaithfulJoins(merge: MergeFn)
    requires Faithful(merge)
    ensures Joins(merge)
  {
    forall a, b | Good(a) && Good(b) && merge(a, b).Some?
      ensures Good(merge(a, b).value) && Items(merge(a, b).value) == Items(a) + Items(b)
      ensures merge(a, b).value.task == a.task == b.task && merge(a, b).value.root == a.root == b.root
    {
      assert merge(a, b) == Merge(a, b);
      CapturedTreesMerge(a, b);
    }
  }

  const START := World(map[], map[], map[], Idle, {}, {}, map[], {})

  function TreeOf(job: Job): Option<Tree> {
    match job
    case SnapshotJob(tree) => Some(tree)
    case RunJob(tree) => Some(tree)
    case _ => None
  }

  /** The server's tree with another merged in; `None` if they conflict. */
  function Recorded(merge: MergeFn, server: map<TaskId, Tree>, tree: Tree): Option<Tree> {
    if tree.task in server then merge(server[tree.task], tree) else Some(tree)
  }

  predicate CanFold(merge: MergeFn, w: World, older: JobId, newer: JobId) {
    && older != newer && older in w.pending && newer in w.pending
    && w.pending[older].SnapshotJob? && w.pending[newer].SnapshotJob?
    && merge(w.pending[older].tree, w.pending[newer].tree).Some?
  }

  predicate CanSend(merge: MergeFn, w: World, id: JobId) {
    id in w.pending && (TreeOf(w.pending[id]).Some? ==> Recorded(merge, w.server, TreeOf(w.pending[id]).value).Some?)
  }

  function AfterSend(merge: MergeFn, w: World, id: JobId): World
    requires CanSend(merge, w, id)
  {
    var tree := TreeOf(w.pending[id]);
    if tree.None? then w.(doing := Sent(id))
    else w.(doing := Sent(id), server := w.server[tree.value.task := Recorded(merge, w.server, tree.value).value])
  }

  function Apply(merge: MergeFn, w: World, a: Action): World {
    match a
    case Enqueue(id, job) =>
      if id in w.pending then w
      else
        w.(pending := w.pending[id := job], known := w.known + {id},
           accepted := if TreeOf(job).Some? then w.accepted + {TreeOf(job).value} else w.accepted)
    case Fold(older, newer) =>
      if w.doing.Idle? && CanFold(merge, w, older, newer) then
        w.(doing := Folding(older, newer),
           pending := w.pending[newer := SnapshotJob(merge(w.pending[older].tree, w.pending[newer].tree).value)])
      else w
    case FoldDone =>
      if w.doing.Folding? then
        w.(doing := Idle, pending := w.pending - {w.doing.older}, folded := w.folded[w.doing.older := w.doing.newer])
      else w
    case Send(id) => if w.doing.Idle? && CanSend(merge, w, id) then AfterSend(merge, w, id) else w
    case SendDone =>
      if w.doing.Sent? then
        w.(doing := Idle, pending := w.pending - {w.doing.id}, delivered := w.delivered + {w.doing.id})
      else w
    case Reject(id) =>
      if w.doing.Idle? && id in w.pending then
        w.(pending := w.pending - {id}, failed := w.failed[id := w.pending[id]])
      else w
    case Crash => w.(doing := Idle)
    case Elsewhere(tree) =>
      var t := Recorded(merge, w.server, tree);
      if t.Some? then w.(server := w.server[tree.task := t.value]) else w
  }

  function Run(merge: MergeFn, w: World, actions: seq<Action>): World
    decreases |actions|
  {
    if actions == [] then w else Run(merge, Apply(merge, w, actions[0]), actions[1..])
  }

  // ---- What is said about a task ----

  ghost predicate SaysIn(jobs: map<JobId, Job>, id: JobId, task: TaskId, x: Item) {
    id in jobs && TreeOf(jobs[id]).Some? && TreeOf(jobs[id]).value.task == task && x in Items(TreeOf(jobs[id]).value)
  }

  /** The server says it, or a job does that is waiting or has been set aside. */
  ghost predicate Said(w: World, task: TaskId, x: Item) {
    || (task in w.server && x in Items(w.server[task]))
    || (exists id :: SaysIn(w.pending, id, task, x))
    || (exists id :: SaysIn(w.failed, id, task, x))
  }

  ghost predicate Good(t: Tree) {
    Captured(t) && Indexed(t)
  }

  predicate BringsTree(a: Action) {
    (a.Enqueue? && TreeOf(a.job).Some?) || a.Elsewhere?
  }

  ghost predicate GoodAction(a: Action) {
    (a.Enqueue? && TreeOf(a.job).Some? ==> Good(TreeOf(a.job).value)) && (a.Elsewhere? ==> Good(a.tree))
  }

  ghost predicate GoodJobs(jobs: map<JobId, Job>) {
    forall id :: id in jobs && TreeOf(jobs[id]).Some? ==> Good(TreeOf(jobs[id]).value)
  }

  ghost predicate GoodServer(server: map<TaskId, Tree>) {
    forall task :: task in server ==> Good(server[task]) && server[task].task == task
  }

  /** What the step under way may rely on: its first half is durable. */
  ghost predicate HalfDone(w: World) {
    match w.doing
    case Idle => true
    case Folding(older, newer) =>
      && older != newer && older in w.pending && newer in w.pending
      && w.pending[older].SnapshotJob? && w.pending[newer].SnapshotJob?
      && w.pending[older].tree.task == w.pending[newer].tree.task
      && Items(w.pending[older].tree) <= Items(w.pending[newer].tree)
    case Sent(id) =>
      && id in w.pending
      && (TreeOf(w.pending[id]).Some? ==>
            var tree := TreeOf(w.pending[id]).value;
            tree.task in w.server && Items(tree) <= Items(w.server[tree.task]))
  }

  predicate Accounted(w: World, id: JobId) {
    id in w.pending || id in w.failed || id in w.delivered ||
        (id in w.folded && w.folded[id] in w.known && w.folded[id] != id)
  }

  /** What every run keeps, whatever it sets aside. */
  ghost predicate Base(w: World) {
    && GoodJobs(w.pending) && GoodJobs(w.failed) && GoodServer(w.server) && HalfDone(w)
    && w.pending.Keys <= w.known
    && (forall id :: id in w.known ==> Accounted(w, id))
  }

  ghost predicate Inv(w: World) {
    && Base(w)
    && (forall t, x :: t in w.accepted && x in Items(t) ==> Said(w, t.task, x))
  }

  lemma RecordedGrows(merge: MergeFn, server: map<TaskId, Tree>, tree: Tree)
    requires Joins(merge) && GoodServer(server) && Good(tree) && Recorded(merge, server, tree).Some?
    ensures var t := Recorded(merge, server, tree).value;
            && Good(t) && t.task == tree.task && Items(tree) <= Items(t)
            && (tree.task in server ==> Items(t) == Items(server[tree.task]) + Items(tree))
            && (tree.task !in server ==> t == tree)
  {
    if tree.task in server {
      assert merge(server[tree.task], tree).Some?;
    }
  }

  /** What is said of a task is just the same after a step that brings no tree, and never less after any. */
  ghost predicate SaysTheSame(w: World, t: World, a: Action) {
    && (forall task, x :: Said(w, task, x) ==> Said(t, task, x))
    && (!BringsTree(a) ==> forall task, x :: Said(t, task, x) ==> Said(w, task, x))
  }

  lemma EnqueueSays(merge: MergeFn, w: World, a: Action)
    requires Base(w) && a.Enqueue?
    ensures SaysTheSame(w, Apply(merge, w, a), a)
    ensures TreeOf(a.job).Some? && a.id !in w.pending ==> forall x :: x in Items(TreeOf(a.job).value) ==>
              Said(Apply(merge, w, a), TreeOf(a.job).value.task, x)
  {
    var t := Apply(merge, w, a);
    if a.id !in w.pending {
      forall id, task, x | SaysIn(w.pending, id, task, x) ensures SaysIn(t.pending, id, task, x) {}
      forall task, x | Said(t, task, x) && TreeOf(a.job).None? ensures Said(w, task, x) {
        if id :| SaysIn(t.pending, id, task, x) {
          assert SaysIn(w.pending, id, task, x);
        }
      }
      if TreeOf(a.job).Some? {
        forall x | x in Items(TreeOf(a.job).value) ensures Said(t, TreeOf(a.job).value.task, x) {
          assert SaysIn(t.pending, a.id, TreeOf(a.job).value.task, x);
        }
      }
    }
  }

  lemma FoldSays(merge: MergeFn, w: World, a: Action)
    requires Joins(merge) && Base(w) && a.Fold?
    ensures SaysTheSame(w, Apply(merge, w, a), a) && HalfDone(Apply(merge, w, a)) &&
            GoodJobs(Apply(merge, w, a).pending)
  {
    var t := Apply(merge, w, a);
    if t != w {
      var older, newer := w.pending[a.older].tree, w.pending[a.newer].tree;
      assert merge(older, newer).Some?;
      forall task, x | Said(w, task, x) ensures Said(t, task, x) {
        if id :| SaysIn(w.pending, id, task, x) {
          assert SaysIn(t.pending, id, task, x);
        }
      }
      forall task, x | Said(t, task, x) ensures Said(w, task, x) {
        if id :| SaysIn(t.pending, id, task, x) {
          assert SaysIn(w.pending, id, task, x) || SaysIn(w.pending, a.older, task, x);
        }
      }
    }
  }

  lemma FoldDoneSays(merge: MergeFn, w: World)
    requires Base(w)
    ensures SaysTheSame(w, Apply(merge, w, FoldDone), FoldDone)
  {
    var t := Apply(merge, w, FoldDone);
    if w.doing.Folding? {
      forall task, x | Said(w, task, x) ensures Said(t, task, x) {
        if id :| SaysIn(w.pending, id, task, x) {
          assert SaysIn(t.pending, if id == w.doing.older then w.doing.newer else id, task, x);
        }
      }
      forall task, x | Said(t, task, x) ensures Said(w, task, x) {
        if id :| SaysIn(t.pending, id, task, x) {
          assert SaysIn(w.pending, id, task, x);
        }
      }
    }
  }

  lemma RecordedServer(merge: MergeFn, server: map<TaskId, Tree>, tree: Tree, after: map<TaskId, Tree>)
    requires Joins(merge) && GoodServer(server) && Good(tree) && Recorded(merge, server, tree).Some?
    requires after == server[tree.task := Recorded(merge, server, tree).value]
    ensures GoodServer(after) && Items(tree) <= Items(after[tree.task])
    ensures forall task :: task in server ==> Items(server[task]) <= Items(after[task])
    ensures forall task, x :: task in after && x in Items(after[task]) ==>
              (task in server && x in Items(server[task])) || (task == tree.task && x in Items(tree))
  {
    RecordedGrows(merge, server, tree);
  }

  lemma SendServer(merge: MergeFn, w: World, id: JobId)
    requires Joins(merge) && Base(w) && CanSend(merge, w, id) && TreeOf(w.pending[id]).Some?
    ensures var tree := TreeOf(w.pending[id]).value;
            var server := AfterSend(merge, w, id).server;
            && GoodServer(server) && tree.task in server && Items(tree) <= Items(server[tree.task])
            && (forall task :: task in w.server ==> task in server && Items(w.server[task]) <= Items(server[task]))
            && (forall task, x :: task in server && x in Items(server[task]) ==>
                  (task in w.server && x in Items(w.server[task])) || SaysIn(w.pending, id, task, x))
  {
    RecordedServer(merge, w.server, TreeOf(w.pending[id]).value, AfterSend(merge, w, id).server);
  }

  lemma SendSays(merge: MergeFn, w: World, a: Action)
    requires Joins(merge) && Base(w) && a.Send?
    ensures SaysTheSame(w, Apply(merge, w, a), a) && HalfDone(Apply(merge, w, a)) &&
            GoodServer(Apply(merge, w, a).server)
  {
    if w.doing.Idle? && CanSend(merge, w, a.id) && TreeOf(w.pending[a.id]).Some? {
      var t := AfterSend(merge, w, a.id);
      SendServer(merge, w, a.id);
      assert t.pending == w.pending && t.failed == w.failed && t.doing == Sent(a.id);
      ServerSaysMore(w, t);
      ServerSaysNothingNew(w, t);
    }
  }

  lemma ServerSaysMore(w: World, t: World)
    requires t.pending == w.pending && t.failed == w.failed
    requires forall task :: task in w.server ==> task in t.server && Items(w.server[task]) <= Items(t.server[task])
    ensures forall task, x :: Said(w, task, x) ==> Said(t, task, x)
  {
  }

  lemma ServerSaysNothingNew(w: World, t: World)
    requires t.pending == w.pending && t.failed == w.failed
    requires forall task, x :: task in t.server && x in Items(t.server[task]) ==> Said(w, task, x)
    ensures forall task, x :: Said(t, task, x) ==> Said(w, task, x)
  {
  }

  /** Besides what was set aside under the same name, somebody says it. */
  ghost predicate SaidBesides(w: World, name: JobId, task: TaskId, x: Item) {
    || (task in w.server && x in Items(w.server[task]))
    || (exists id :: SaysIn(w.pending, id, task, x))
    || (exists id :: id != name && SaysIn(w.failed, id, task, x))
  }

  /**
   * Setting a job aside replaces one of the same name that was set aside before. That one may have absorbed others
   * and be the last to say what they said.
   */
  ghost predicate Loses(w: World, a: Action) {
    && a.Reject? && w.doing.Idle? && a.id in w.pending
    && exists task, x :: SaysIn(w.failed, a.id, task, x) && !SaidBesides(w, a.id, task, x)
  }

  /** What can be seen without looking further: the replaced job says more than the one set aside now. */
  ghost predicate Overwrites(w: World, a: Action) {
    && a.Reject? && a.id in w.failed && a.id in w.pending && TreeOf(w.failed[a.id]).Some?
    && !(TreeOf(w.pending[a.id]).Some? && TreeOf(w.pending[a.id]).value.task == TreeOf(w.failed[a.id]).value.task &&
         Items(TreeOf(w.failed[a.id]).value) <= Items(TreeOf(w.pending[a.id]).value))
  }

  /** In any state, just those items are lost that the replaced job says and nobody else does. */
  lemma RejectLosesIff(merge: MergeFn, w: World, id: JobId, task: TaskId, x: Item)
    requires w.doing.Idle? && id in w.pending
    ensures Said(w, task, x) && !Said(Apply(merge, w, Reject(id)), task, x) <==>
            SaysIn(w.failed, id, task, x) && !SaidBesides(w, id, task, x)
  {
    var t := Apply(merge, w, Reject(id));
    if i :| SaysIn(w.pending, i, task, x) {
      assert if i == id then SaysIn(t.failed, i, task, x) else SaysIn(t.pending, i, task, x);
    }
    if i :| i != id && SaysIn(w.failed, i, task, x) {
      assert SaysIn(t.failed, i, task, x);
    }
    if i :| SaysIn(t.pending, i, task, x) {
      assert SaysIn(w.pending, i, task, x);
    }
    if i :| SaysIn(t.failed, i, task, x) {
      assert if i == id then SaysIn(w.pending, i, task, x) else SaysIn(w.failed, i, task, x);
    }
  }

  lemma RejectAddsNothing(merge: MergeFn, w: World, id: JobId, task: TaskId, x: Item)
    requires w.doing.Idle? && id in w.pending && Said(Apply(merge, w, Reject(id)), task, x)
    ensures Said(w, task, x)
  {
    var t := Apply(merge, w, Reject(id));
    if i :| SaysIn(t.pending, i, task, x) {
      assert SaysIn(w.pending, i, task, x);
    } else if i :| SaysIn(t.failed, i, task, x) {
      assert if i == id then SaysIn(w.pending, i, task, x) else SaysIn(w.failed, i, task, x);
    }
  }

  /** A loss is an overwriting; one is a loss exactly if nobody else says all of what is overwritten. */
  lemma OverwritingLosesIff(w: World, a: Action)
    requires w.doing.Idle?
    ensures Loses(w, a) <==>
            Overwrites(w, a) && exists x ::
                x in Items(TreeOf(w.failed[a.id]).value) && !SaidBesides(w, a.id, TreeOf(w.failed[a.id]).value.task, x)
  {
    if Loses(w, a) {
      var task, x :| SaysIn(w.failed, a.id, task, x) && !SaidBesides(w, a.id, task, x);
      assert !SaysIn(w.pending, a.id, task, x);
    }
    if Overwrites(w, a) {
      var tree := TreeOf(w.failed[a.id]).value;
      if x :| x in Items(tree) && !SaidBesides(w, a.id, tree.task, x) {
        assert SaysIn(w.failed, a.id, tree.task, x);
      }
    }
  }

  lemma RejectSays(merge: MergeFn, w: World, a: Action)
    requires a.Reject? && !Loses(w, a)
    ensures SaysTheSame(w, Apply(merge, w, a), a)
  {
    if w.doing.Idle? && a.id in w.pending {
      forall task, x | Said(w, task, x) ensures Said(Apply(merge, w, a), task, x) {
        RejectLosesIff(merge, w, a.id, task, x);
      }
      forall task, x | Said(Apply(merge, w, a), task, x) ensures Said(w, task, x) {
        RejectAddsNothing(merge, w, a.id, task, x);
      }
    }
  }

  /** A server that has grown still has what the step under way relies on. */
  lemma GrownHalfDone(w: World, t: World)
    requires HalfDone(w) && t.pending == w.pending && t.doing == w.doing
    requires forall task :: task in w.server ==> task in t.server && Items(w.server[task]) <= Items(t.server[task])
    ensures HalfDone(t)
  {
  }

  lemma ElsewhereSays(merge: MergeFn, w: World, a: Action)
    requires Joins(merge) && Base(w) && a.Elsewhere? && Good(a.tree)
    ensures SaysTheSame(w, Apply(merge, w, a), a) && GoodServer(Apply(merge, w, a).server) &&
            HalfDone(Apply(merge, w, a))
  {
    if Recorded(merge, w.server, a.tree).Some? {
      var t := Apply(merge, w, a);
      RecordedServer(merge, w.server, a.tree, t.server);
      assert t.pending == w.pending && t.failed == w.failed && t.doing == w.doing;
      GrownHalfDone(w, t);
      ServerSaysMore(w, t);
    }
  }

  lemma StepSays(merge: MergeFn, w: World, a: Action)
    requires Joins(merge) && Base(w) && GoodAction(a) && !Loses(w, a)
    ensures SaysTheSame(w, Apply(merge, w, a), a)
  {
    match a
    case Enqueue(_, _) => EnqueueSays(merge, w, a);
    case Fold(_, _) => FoldSays(merge, w, a);
    case FoldDone => FoldDoneSays(merge, w);
    case Send(_) => SendSays(merge, w, a);
    case SendDone => SendDoneSays(merge, w);
    case Reject(_) => RejectSays(merge, w, a);
    case Crash =>
    case Elsewhere(_) => ElsewhereSays(merge, w, a);
  }

  lemma StepGood(merge: MergeFn, w: World, a: Action)
    requires Joins(merge) && Base(w) && GoodAction(a)
    ensures var t := Apply(merge, w, a);
              GoodJobs(t.pending) && GoodJobs(t.failed) && GoodServer(t.server) && HalfDone(t)
  {
    match a
    case Fold(_, _) => FoldSays(merge, w, a);
    case Send(_) => SendSays(merge, w, a);
    case Elsewhere(_) => ElsewhereSays(merge, w, a);
    case _ =>
  }

  lemma StepAccounted(merge: MergeFn, w: World, a: Action, id: JobId)
    requires Base(w) && (id in w.known || (a.Enqueue? && a.id == id))
    ensures Apply(merge, w, a).pending.Keys <= Apply(merge, w, a).known && w.known <= Apply(merge, w, a).known
    ensures Accounted(Apply(merge, w, a), id)
  {
    assert id in w.known ==> Accounted(w, id);
  }

  lemma StepBase(merge: MergeFn, w: World, a: Action)
    requires Joins(merge) && Base(w) && GoodAction(a)
    ensures Base(Apply(merge, w, a))
  {
    var t := Apply(merge, w, a);
    StepGood(merge, w, a);
    forall id | id in t.known ensures Accounted(t, id) {
      StepAccounted(merge, w, a, id);
    }
  }

  lemma StepInv(merge: MergeFn, w: World, a: Action)
    requires Joins(merge) && Inv(w) && GoodAction(a) && !Loses(w, a)
    ensures Inv(Apply(merge, w, a))
  {
    var t := Apply(merge, w, a);
    StepBase(merge, w, a);
    StepSays(merge, w, a);
    if a.Enqueue? {
      EnqueueSays(merge, w, a);
    }
    forall u, x | u in t.accepted && x in Items(u) ensures Said(t, u.task, x) {
      if u in w.accepted {
        assert Said(w, u.task, x);
      }
    }
  }

  // ---- Main results, over every run ----

  /** Only captured trees come in. */
  ghost predicate GoodActions(actions: seq<Action>) {
    forall i :: 0 <= i < |actions| ==> GoodAction(actions[i])
  }

  /** Moreover, nothing is lost by setting a job aside. */
  ghost predicate Regular(merge: MergeFn, w: World, actions: seq<Action>)
    decreases |actions|
  {
    actions == [] || (GoodAction(actions[0]) && !Loses(w, actions[0]) &&
        Regular(merge, Apply(merge, w, actions[0]), actions[1..]))
  }

  lemma {:induction false} RunBase(merge: MergeFn, w: World, actions: seq<Action>)
    requires Joins(merge) && Base(w) && GoodActions(actions)
    ensures Base(Run(merge, w, actions))
    decreases |actions|
  {
    if actions != [] {
      StepBase(merge, w, actions[0]);
      RunBase(merge, Apply(merge, w, actions[0]), actions[1..]);
    }
  }

  lemma {:induction false} RunInv(merge: MergeFn, w: World, actions: seq<Action>)
    requires Joins(merge) && Inv(w) && Regular(merge, w, actions)
    ensures Inv(Run(merge, w, actions))
    decreases |actions|
  {
    if actions != [] {
      StepInv(merge, w, actions[0]);
      RunInv(merge, Apply(merge, w, actions[0]), actions[1..]);
    }
  }

  /** Every tree that was ever accepted is said in full by the server, by a waiting job or by one set aside. */
  lemma NothingFallsOut(merge: MergeFn, actions: seq<Action>, tree: Tree, x: Item)
    requires Faithful(merge) && Regular(merge, START, actions) && tree in Run(merge, START, actions).accepted &&
             x in Items(tree)
    ensures Said(Run(merge, START, actions), tree.task, x)
  {
    FaithfulJoins(merge);
    RunInv(merge, START, actions);
  }

  /**
   * After any run, folding, delivering and setting aside, and a crash between any two steps, change nothing about what
   * is said of any task by the server and the jobs together; except, and exactly, a setting aside that loses.
   */
  lemma MeaningIsConservedIff(merge: MergeFn, actions: seq<Action>, a: Action)
    requires Faithful(merge) && GoodActions(actions) && GoodAction(a) && !BringsTree(a)
    ensures var w := Run(merge, START, actions);
            (forall task, x :: Said(Apply(merge, w, a), task, x) <==> Said(w, task, x)) <==> !Loses(w, a)
  {
    FaithfulJoins(merge);
    RunBase(merge, START, actions);
    var w := Run(merge, START, actions);
    if Loses(w, a) {
      var task, x :| SaysIn(w.failed, a.id, task, x) && !SaidBesides(w, a.id, task, x);
      RejectLosesIff(merge, w, a.id, task, x);
    } else {
      StepSays(merge, w, a);
    }
  }

  /**
   * In every run, every job that was ever taken is waiting, delivered, set aside, or folded into another that was
   * taken.
   */
  lemma EveryJobIsAccountedFor(merge: MergeFn, actions: seq<Action>, id: JobId)
    requires Faithful(merge) && GoodActions(actions) && id in Run(merge, START, actions).known
    ensures var w := Run(merge, START, actions);
            id in w.pending || id in w.failed || id in w.delivered ||
                (id in w.folded && w.folded[id] in w.known && w.folded[id] != id)
  {
    FaithfulJoins(merge);
    RunBase(merge, START, actions);
    assert Accounted(Run(merge, START, actions), id);
  }

  lemma FoldMeans(merge: MergeFn, w: World, older: JobId, newer: JobId)
    requires w.doing.Idle? && CanFold(merge, w, older, newer)
    ensures var m := merge(w.pending[older].tree, w.pending[newer].tree).value;
            Apply(merge, w, Fold(older, newer)) ==
                w.(doing := Folding(older, newer), pending := w.pending[newer := SnapshotJob(m)])
  {
  }

  lemma MergedAbsorbs(merge: MergeFn, a: Tree, b: Tree)
    requires Faithful(merge) && Good(a) && Good(b) && merge(a, b).Some?
    ensures merge(a, merge(a, b).value) == merge(a, b)
  {
    CapturedTreesMerge(a, b);
    var m := merge(a, b).value;
    CapturedTreesMerge(a, m);
    SameItems(merge(a, m).value, m);
  }

  /** Folding again after a crash between the two steps writes the very same job. */
  lemma FoldingAgainIsTheSame(merge: MergeFn, w: World, older: JobId, newer: JobId)
    requires Faithful(merge) && GoodJobs(w.pending) && w.doing.Idle? && CanFold(merge, w, older, newer)
    ensures var half := Apply(merge, w, Fold(older, newer));
              Apply(merge, Apply(merge, half, Crash), Fold(older, newer)) == half
    ensures Halfway(merge, w, older, newer)
  {
    FoldHalfway(merge, w, older, newer);
    var a, b := w.pending[older].tree, w.pending[newer].tree;
    assert TreeOf(w.pending[older]) == Some(a) && TreeOf(w.pending[newer]) == Some(b);
    MergedAbsorbs(merge, a, b);
    FoldTwice(merge, w, older, newer, a, b, merge(a, b).value);
  }

  /** A crash between the two steps of folding leaves the one that is done. */
  predicate Halfway(merge: MergeFn, w: World, older: JobId, newer: JobId) {
    var half := Apply(merge, w, Fold(older, newer));
    half.doing == Folding(older, newer) && Apply(merge, half, Crash) == half.(doing := Idle)
  }

  lemma FoldHalfway(merge: MergeFn, w: World, older: JobId, newer: JobId)
    requires w.doing.Idle? && CanFold(merge, w, older, newer)
    ensures Halfway(merge, w, older, newer)
  {
  }

  /** Sending again after a crash in between changes nothing: the server already says all that the job does. */
  lemma SendingAgainIsTheSame(merge: MergeFn, w: World, id: JobId)
    requires Faithful(merge) && GoodJobs(w.pending) && GoodServer(w.server) && w.doing.Idle? && CanSend(merge, w, id)
    ensures var half := Apply(merge, w, Send(id));
              && half.doing == Sent(id) && Apply(merge, half, Crash) == half.(doing := Idle)
              && CanSend(merge, Apply(merge, half, Crash), id)
              && Apply(merge, Apply(merge, half, Crash), Send(id)) == half
  {
    var tree := TreeOf(w.pending[id]);
    if tree.Some? {
      var t, half := tree.value, Apply(merge, w, Send(id));
      FaithfulJoins(merge);
      RecordedGrows(merge, w.server, t);
      var m := half.server[t.task];
      assert t.task in w.server ==> merge(w.server[t.task], t).Some?;
      AbsorbedBy(merge, m, t);
      assert half.server[t.task := m] == half.server;
    }
  }

  /** A tree that says all of another merges with it to itself. */
  lemma AbsorbedBy(merge: MergeFn, m: Tree, t: Tree)
    requires Faithful(merge) && Good(m) && Good(t) && m.task == t.task && m.root == t.root && Items(t) <= Items(m)
    ensures merge(m, t) == Some(m)
  {
    CapturedTreesMerge(m, t);
    SameItems(merge(m, t).value, m);
  }

  lemma FoldTwice(merge: MergeFn, w: World, older: JobId, newer: JobId, a: Tree, b: Tree, m: Tree)
    requires older != newer && older in w.pending && newer in w.pending && w.doing.Idle?
    requires w.pending[older] == SnapshotJob(a) && w.pending[newer] == SnapshotJob(b)
    requires merge(a, b) == Some(m) && merge(a, m) == Some(m)
    ensures var half := Apply(merge, w, Fold(older, newer));
              Apply(merge, Apply(merge, half, Crash), Fold(older, newer)) == half
  {
    FoldMeans(merge, w, older, newer);
    FoldMeans(merge, w.(pending := w.pending[newer := SnapshotJob(m)]), older, newer);
  }

  /** A job that is enqueued again after it absorbed another and was set aside replaces what was set aside. */
  lemma RejectAgainLoses(merge: MergeFn, older: JobId, newer: JobId, a: Tree, b: Tree, x: Item)
    requires Faithful(merge) && older != newer && Good(a) && Good(b) && a.task == b.task && a.root == b.root
    requires x in Items(a) && x !in Items(b)
    ensures var w := Run(merge, START, SetAsideTwice(older, newer, a, b)); a in w.accepted && !Said(w, a.task, x)
  {
    CapturedTreesMerge(a, b);
    SetAsideTwiceEnds(merge, older, newer, a, b, merge(a, b).value);
    NotSaid(Run(merge, START, SetAsideTwice(older, newer, a, b)), newer, b, a.task, x);
  }

  lemma NotSaid(w: World, id: JobId, b: Tree, task: TaskId, x: Item)
    requires w.pending == map[] && w.server == map[] && w.failed == map[id := SnapshotJob(b)] && x !in Items(b)
    ensures !Said(w, task, x)
  {
  }

  function SetAsideTwice(older: JobId, newer: JobId, a: Tree, b: Tree): seq<Action> {
    [Enqueue(older, SnapshotJob(a)), Enqueue(newer, SnapshotJob(b)), Fold(older, newer), FoldDone,
     Reject(newer), Enqueue(newer, SnapshotJob(b)), Reject(newer)]
  }

  lemma SetAsideTwiceEnds(merge: MergeFn, older: JobId, newer: JobId, a: Tree, b: Tree, m: Tree)
    requires older != newer && merge(a, b) == Some(m)
    ensures var w := Run(merge, START, SetAsideTwice(older, newer, a, b));
            a in w.accepted && w.pending == map[] && w.server == map[] && w.failed == map[newer := SnapshotJob(b)]
  {
    var e := SetAsideTwice(older, newer, a, b);
    var w2 := BothQueued(merge, older, newer, a, b);
    var w4 := FoldedInto(merge, w2, older, newer, a, b, m);
    var w6 := SetAsideAndBack(merge, w4, newer, m, b);
    RunTwo(merge, START, e);
    RunTwo(merge, w2, e[2..]);
    RunTwo(merge, w4, e[4..]);
    assert e[2..][2..] == e[4..] && e[4..][2..] == [e[6]];
    RunOne(merge, w6, e[6]);
    assert w6.pending - {newer} == map[];
  }

  lemma RunOne(merge: MergeFn, w: World, a: Action)
    ensures Run(merge, w, [a]) == Apply(merge, w, a)
  {
    assert Run(merge, Apply(merge, w, a), [a][1..]) == Apply(merge, w, a);
  }

  lemma RunTwo(merge: MergeFn, w: World, actions: seq<Action>)
    requires |actions| >= 2
    ensures Run(merge, w, actions) == Run(merge, Apply(merge, Apply(merge, w, actions[0]), actions[1]), actions[2..])
  {
    assert actions[1..][1..] == actions[2..];
  }

  lemma RunBoth(merge: MergeFn, w: World, a: Action, b: Action)
    ensures Run(merge, w, [a, b]) == Apply(merge, Apply(merge, w, a), b)
  {
    RunTwo(merge, w, [a, b]);
    assert [a, b][2..] == [];
  }

  lemma BothQueued(merge: MergeFn, older: JobId, newer: JobId, a: Tree, b: Tree) returns (w: World)
    requires older != newer
    ensures w == Apply(merge, Apply(merge, START, Enqueue(older, SnapshotJob(a))), Enqueue(newer, SnapshotJob(b)))
    ensures w.pending == map[older := SnapshotJob(a), newer := SnapshotJob(b)] && w.failed == map[] && w.server == map[]
    ensures a in w.accepted && w.doing.Idle?
  {
    w := Apply(merge, Apply(merge, START, Enqueue(older, SnapshotJob(a))), Enqueue(newer, SnapshotJob(b)));
  }

  lemma FoldedInto(merge: MergeFn, w: World, older: JobId, newer: JobId, a: Tree, b: Tree, m: Tree) returns (t: World)
    requires older != newer && merge(a, b) == Some(m) && w.doing.Idle?
    requires w.pending == map[older := SnapshotJob(a), newer := SnapshotJob(b)]
    ensures t == Apply(merge, Apply(merge, w, Fold(older, newer)), FoldDone)
    ensures t.pending == map[newer := SnapshotJob(m)] && t.failed == w.failed && t.server == w.server
    ensures t.accepted == w.accepted && t.doing.Idle?
  {
    FoldMeans(merge, w, older, newer);
    t := Apply(merge, Apply(merge, w, Fold(older, newer)), FoldDone);
    assert w.pending[newer := SnapshotJob(m)] - {older} == map[newer := SnapshotJob(m)];
  }

  lemma SetAsideAndBack(merge: MergeFn, w: World, id: JobId, m: Tree, b: Tree) returns (t: World)
    requires w.doing.Idle? && w.pending == map[id := SnapshotJob(m)] && w.failed == map[] && w.server == map[]
    ensures t == Apply(merge, Apply(merge, w, Reject(id)), Enqueue(id, SnapshotJob(b)))
    ensures t.pending == map[id := SnapshotJob(b)] && t.failed == map[id := SnapshotJob(m)] && t.server == map[]
    ensures w.accepted <= t.accepted && t.doing.Idle?
  {
    t := Apply(merge, Apply(merge, w, Reject(id)), Enqueue(id, SnapshotJob(b)));
    assert w.pending - {id} == map[];
  }

  lemma SendDoneSays(merge: MergeFn, w: World)
    requires Base(w)
    ensures SaysTheSame(w, Apply(merge, w, SendDone), SendDone)
  {
    var t := Apply(merge, w, SendDone);
    if w.doing.Sent? {
      forall task, x | Said(w, task, x) ensures Said(t, task, x) {
        if id :| SaysIn(w.pending, id, task, x) {
          assert id != w.doing.id ==> SaysIn(t.pending, id, task, x);
        }
      }
      forall task, x | Said(t, task, x) ensures Said(w, task, x) {
        if id :| SaysIn(t.pending, id, task, x) {
          assert SaysIn(w.pending, id, task, x);
        }
      }
    }
  }

  // ---- The processor ----

  /** How the server, or a local file, answers an attempt to deliver. */
  datatype Answer = Taken | Refused | FileTrouble | Trouble

  lemma {:induction false} RunConcat(merge: MergeFn, w: World, first: seq<Action>, second: seq<Action>)
    ensures Run(merge, w, first + second) == Run(merge, Run(merge, w, first), second)
    decreases |first|
  {
    if first == [] {
      assert first + second == second;
    } else {
      assert (first + second)[1..] == first[1..] + second && (first + second)[0] == first[0];
      RunConcat(merge, Apply(merge, w, first[0]), first[1..], second);
    }
  }

  predicate Distinct(entries: seq<JobId>) {
    forall i, j :: 0 <= i < j < |entries| ==> entries[i] != entries[j]
  }

  // ---- What a pass makes of the jobs ----

  /** The processor between two entries of a pass. */
  datatype Flush = Flush(world: World, retryAt: map<JobId, nat>, nextFlushAt: nat, attempted: nat, delivered: nat,
      coalesced: nat, blocked: Option<JobId>)

  /** The job's tree, if it has one, contradicts the server's. */
  predicate Conflicts(merge: MergeFn, w: World, job: Job) {
    match job
    case SnapshotJob(tree) => tree.task in w.server && merge(w.server[tree.task], tree).None?
    case RunJob(tree) => tree.task in w.server && merge(w.server[tree.task], tree).None?
    case _ => false
  }

  /** What the server holds once it has taken the job. */
  function ServerWith(merge: MergeFn, w: World, job: Job): map<TaskId, Tree>
    requires !Conflicts(merge, w, job)
  {
    match job
    case EventJob => w.server
    case TranscriptJob(_) => w.server
    case SnapshotJob(tree) =>
      w.server[tree.task := if tree.task in w.server then merge(w.server[tree.task], tree).value else tree]
    case RunJob(tree) =>
      w.server[tree.task := if tree.task in w.server then merge(w.server[tree.task], tree).value else tree]
  }

  /**
   * An attempt: taken, the job is delivered; refused, or contradicting the server, it is set aside; a transcript whose
   * file makes trouble is put off for five seconds; any other trouble stops the pass for a while.
   */
  function Tried(merge: MergeFn, backoff: nat, f: Flush, id: JobId, now: nat, answer: Answer): Flush
    requires id in f.world.pending
  {
    var t, w, job := f.(attempted := f.attempted + 1), f.world, f.world.pending[id];
    if answer == Taken && !Conflicts(merge, w, job) then
      t.(world := w.(server := ServerWith(merge, w, job), pending := w.pending - {id},
                     delivered := w.delivered + {id}),
         retryAt := f.retryAt - {id}, delivered := f.delivered + 1)
    else if answer == Taken || answer == Answer.Refused then
      t.(world := w.(pending := w.pending - {id}, failed := w.failed[id := job]))
    else if answer == FileTrouble && job.TranscriptJob? then t.(retryAt := f.retryAt[id := now + 5_000])
    else t.(nextFlushAt := now + backoff, blocked := Some(id))
  }

  lemma SendsUnlessConflict(merge: MergeFn, w: World, id: JobId)
    requires id in w.pending
    ensures CanSend(merge, w, id) <==> !Conflicts(merge, w, w.pending[id])
    ensures CanSend(merge, w, id) ==> AfterSend(merge, w, id) == w.(doing := Sent(id),
                                                                   server := ServerWith(merge, w, w.pending[id]))
  {
  }

  /** The entry has to wait: it was put off, or is a transcript whose time has not come. */
  predicate MustWait(f: Flush, id: JobId, now: nat) {
    || (id in f.retryAt && now < f.retryAt[id])
    || (id in f.world.pending && f.world.pending[id].TranscriptJob? && now < f.world.pending[id].notBefore)
  }

  /** Both are snapshots that agree. */
  predicate Absorbs(merge: MergeFn, w: World, older: JobId, newer: JobId)
    requires older in w.pending
  {
    && older != newer && newer in w.pending && w.pending[older].SnapshotJob? && w.pending[newer].SnapshotJob?
    && merge(w.pending[older].tree, w.pending[newer].tree).Some?
  }

  function Absorbed(merge: MergeFn, f: Flush, older: JobId, newer: JobId): Flush
    requires older in f.world.pending && Absorbs(merge, f.world, older, newer)
  {
    var w := f.world;
    var tree := merge(w.pending[older].tree, w.pending[newer].tree).value;
    f.(world := w.(pending := w.pending[newer := SnapshotJob(tree)] - {older}, folded := w.folded[older := newer]),
       coalesced := f.coalesced + 1)
  }

  /** An entry is left to wait, absorbed by the newest snapshot of its task, or attempted. */
  function Entered(merge: MergeFn, backoff: nat, f: Flush, id: JobId, newer: JobId, now: nat, answer: Answer): Flush
    requires id in f.world.pending
  {
    var w := f.world;
    if MustWait(f, id, now) then f
    else if Absorbs(merge, w, id, newer) then Absorbed(merge, f, id, newer)
    else Tried(merge, backoff, f, id, now, answer)
  }

  /** Of the other entries none goes, and none that waits stops waiting. */
  lemma EnteredKeepsOthers(merge: MergeFn, backoff: nat, f: Flush, id: JobId, newer: JobId, now: nat, answer: Answer)
    requires id in f.world.pending && f.blocked.None?
    ensures var t := Entered(merge, backoff, f, id, newer, now, answer);
            && f.attempted <= t.attempted <= f.attempted + 1
            && (forall other :: other != id ==> (other in t.world.pending <==> other in f.world.pending))
            && (forall other :: other != id && MustWait(f, other, now) ==> MustWait(t, other, now))
            && (t.blocked.Some? ==> t.blocked == Some(id) && t.nextFlushAt == now + backoff)
            && (t.blocked.None? && id in t.world.pending ==> MustWait(t, id, now))
  {
  }

  /** The last of the first `n` entries that is a snapshot of the task. */
  function NewestOf(jobs: map<JobId, Job>, entries: seq<JobId>, task: TaskId, n: nat): Option<nat>
    requires n <= |entries| && forall i :: 0 <= i < n ==> entries[i] in jobs
  {
    if n == 0 then None
    else if jobs[entries[n - 1]].SnapshotJob? && jobs[entries[n - 1]].tree.task == task then Some(n - 1)
    else NewestOf(jobs, entries, task, n - 1)
  }

  lemma {:induction false} NewestIsLast(jobs: map<JobId, Job>, entries: seq<JobId>, task: TaskId, n: nat)
    requires n <= |entries| && forall i :: 0 <= i < n ==> entries[i] in jobs
    ensures var newest := NewestOf(jobs, entries, task, n);
            && (newest.Some? ==>
                  && newest.value < n && jobs[entries[newest.value]].SnapshotJob?
                  && jobs[entries[newest.value]].tree.task == task)
            && forall i :: (if newest.Some? then newest.value + 1 else 0) <= i < n ==>
                 !(jobs[entries[i]].SnapshotJob? && jobs[entries[i]].tree.task == task)
    decreases n
  {
    if n > 0 {
      NewestIsLast(jobs, entries, task, n - 1);
    }
  }

  /** The entry that a job is to be folded into: the newest snapshot there was of its task, or itself. */
  function Into(jobs: map<JobId, Job>, w: World, entries: seq<JobId>, i: nat): JobId
    requires i < |entries| && forall j :: 0 <= j < |entries| ==> entries[j] in jobs
    requires entries[i] in w.pending
  {
    var job := w.pending[entries[i]];
    if !job.SnapshotJob? then entries[i]
    else
      NewestIsLast(jobs, entries, job.tree.task, |entries|);
      var newest := NewestOf(jobs, entries, job.tree.task, |entries|);
      if newest.Some? && i < newest.value then entries[newest.value] else entries[i]
  }

  /** The rest of a pass, from the `i`-th entry on, `tries` attempts into it. */
  function Walked(merge: MergeFn, batchSize: nat, backoff: nat, jobs: map<JobId, Job>, entries: seq<JobId>,
      answers: JobId -> Answer, now: nat, f: Flush, i: nat, tries: nat): Flush
    requires i <= |entries| && forall j :: 0 <= j < |entries| ==> entries[j] in jobs
    decreases |entries| - i
  {
    if i == |entries| || tries >= batchSize || f.blocked.Some? || entries[i] !in f.world.pending then f
    else
      var next := Entered(merge, backoff, f, entries[i], Into(jobs, f.world, entries, i), now, answers(entries[i]));
      Walked(merge, batchSize, backoff, jobs, entries, answers, now, next, i + 1,
             if next.attempted > f.attempted then tries + 1 else tries)
  }

  lemma NewestAt(jobs: map<JobId, Job>, entries: seq<JobId>, latest: map<TaskId, nat>)
    requires forall j :: 0 <= j < |entries| ==> entries[j] in jobs
    requires forall task :: (if task in latest then Some(latest[task]) else None) ==
                            NewestOf(jobs, entries, task, |entries|)
    ensures forall task :: task in latest ==> latest[task] < |entries|
  {
    forall task | task in latest ensures latest[task] < |entries| {
      NewestIsLast(jobs, entries, task, |entries|);
    }
  }

  class SpoolProcessor {
    const merge: MergeFn
    const batchSize: nat
    const backoff: nat
    var pending: map<JobId, Job>
    var failed: map<JobId, Job>
    var server: map<TaskId, Tree>
    var retryAt: map<JobId, nat>
    var nextFlushAt: nat
    var attempted: nat
    var delivered: nat
    var coalesced: nat
    var blocked: Option<JobId>
    ghost var doing: Doing
    ghost var known: set<JobId>
    ghost var done: set<JobId>
    ghost var folded: map<JobId, JobId>
    ghost var accepted: set<Tree>

    ghost function Sys(): World
      reads this
    {
      World(pending, failed, server, doing, known, done, folded, accepted)
    }

    constructor (merge: MergeFn, batchSize: nat, backoff: nat)
      requires batchSize >= 1
      ensures this.merge == merge && this.batchSize == batchSize && this.backoff == backoff
      ensures Sys() == START && blocked.None? && nextFlushAt == 0 && retryAt == map[]
    {
      this.merge, this.batchSize, this.backoff := merge, batchSize, backoff;
      pending, failed, server, retryAt := map[], map[], map[], map[];
      nextFlushAt, attempted, delivered, coalesced, blocked := 0, 0, 0, 0, None;
      doing, known, done, folded, accepted := Idle, {}, {}, map[], {};
    }

    method Enqueue(id: JobId, job: Job)
      modifies `pending, `known, `accepted
      ensures Sys() == Apply(merge, old(Sys()), Action.Enqueue(id, job))
    {
      if id !in pending {
        pending := pending[id := job];
        known := known + {id};
        accepted := if TreeOf(job).Some? then accepted + {TreeOf(job).value} else accepted;
      }
    }

    /** The earlier snapshot goes into the later one, whose file is replaced before the earlier one's is removed. */
    method FoldInto(older: JobId, newer: JobId, crash: bool) returns (ok: bool)
      requires older != newer && older in pending && newer in pending && pending[older].SnapshotJob? && doing.Idle?
      modifies `pending, `doing, `folded, `coalesced
      ensures ok <==> CanFold(merge, old(Sys()), older, newer)
      ensures !ok ==> Sys() == old(Sys()) && coalesced == old(coalesced)
      ensures ok && !crash ==> coalesced == old(coalesced) + 1
      ensures ok && !crash ==> Sys() == Apply(merge, Apply(merge, old(Sys()), Fold(older, newer)), FoldDone)
      ensures ok && crash ==> Sys() == Apply(merge, old(Sys()), Fold(older, newer))
    {
      var later := pending[newer];
      var merged := if later.SnapshotJob? then merge(pending[older].tree, later.tree) else None;
      if merged.None? {
        return false;
      }
      pending := pending[newer := SnapshotJob(merged.value)];
      doing := Folding(older, newer);
      if !crash {
        pending := pending - {older};
        folded := folded[older := newer];
        doing := Idle;
        coalesced := coalesced + 1;
      }
      ok := true;
    }

    /** Merges a job's tree into the server's; a conflict is an answer like any other refusal. */
    method Deliver(id: JobId, answer: Answer) returns (outcome: Answer)
      requires id in pending && doing.Idle?
      modifies `server, `doing
      ensures outcome == (if answer == Taken && !CanSend(merge, old(Sys()), id) then Refused else answer)
      ensures Sys() == (if outcome == Taken then Apply(merge, old(Sys()), Send(id)) else old(Sys()))
      ensures outcome == Taken ==> doing == Sent(id)
    {
      if answer != Taken {
        return answer;
      }
      var tree := TreeOf(pending[id]);
      if tree.Some? {
        var merged := Recorded(merge, server, tree.value);
        if merged.None? {
          return Refused;
        }
        server := server[tree.value.task := merged.value];
      }
      doing := Sent(id);
      outcome := Taken;
    }

    method Complete(id: JobId)
      requires id in pending && doing == Sent(id)
      modifies `pending, `doing, `done, `delivered, `retryAt
      ensures Sys() == Apply(merge, old(Sys()), SendDone) && delivered == old(delivered) + 1 &&
              retryAt == old(retryAt) - {id}
    {
      retryAt := retryAt - {id};
      pending := pending - {id};
      done := done + {id};
      doing := Idle;
      delivered := delivered + 1;
    }

    method SetAside(id: JobId)
      requires id in pending && doing.Idle?
      modifies `pending, `failed
      ensures Sys() == Apply(merge, old(Sys()), Reject(id))
    {
      failed := failed[id := pending[id]];
      pending := pending - {id};
    }

    ghost function State(): Flush
      reads this
    {
      Flush(Sys(), retryAt, nextFlushAt, attempted, delivered, coalesced, blocked)
    }

    /** The last snapshot of each task. */
    method Latest(entries: seq<JobId>) returns (latest: map<TaskId, nat>)
      requires forall i :: 0 <= i < |entries| ==> entries[i] in pending
      ensures forall i :: 0 <= i < |entries| && pending[entries[i]].SnapshotJob? ==>
                pending[entries[i]].tree.task in latest && i <= latest[pending[entries[i]].tree.task] < |entries|
      ensures forall task :: (if task in latest then Some(latest[task]) else None) ==
                             NewestOf(pending, entries, task, |entries|)
    {
      latest := map[];
      for i := 0 to |entries|
        invariant forall task :: (if task in latest then Some(latest[task]) else None) ==
                                 NewestOf(pending, entries, task, i)
        invariant forall j :: 0 <= j < i && pending[entries[j]].SnapshotJob? ==>
                    pending[entries[j]].tree.task in latest && j <= latest[pending[entries[j]].tree.task] < i
      {
        var job := pending[entries[i]];
        if job.SnapshotJob? {
          latest := latest[job.tree.task := i];
        }
      }
    }

    predicate Waits(id: JobId, now: nat)
      reads this
    {
      (id in retryAt && retryAt[id] > now) ||
          (id in pending && pending[id].TranscriptJob? && pending[id].notBefore > now)
    }

    method Conclude(id: JobId, ghost was: World) returns (ghost actions: seq<Action>)
      requires id in pending && doing == Sent(id) && Sys() == Apply(merge, was, Send(id))
      modifies `pending, `doing, `done, `delivered, `retryAt
      ensures Sys() == Run(merge, was, actions) && doing.Idle?
      ensures pending == old(pending) - {id} && retryAt == old(retryAt) - {id}
      ensures done == old(done) + {id} && delivered == old(delivered) + 1
    {
      Complete(id);
      actions := [Send(id), SendDone];
      RunBoth(merge, was, Send(id), SendDone);
    }

    method Refuse(id: JobId) returns (ghost actions: seq<Action>)
      requires id in pending && doing.Idle?
      modifies `pending, `failed
      ensures Sys() == Run(merge, old(Sys()), actions) && pending == old(pending) - {id}
      ensures failed == old(failed)[id := old(pending)[id]]
    {
      SetAside(id);
      actions := [Reject(id)];
      RunOne(merge, old(Sys()), Reject(id));
    }

    /** An attempt to deliver one job, and what becomes of it. */
    method Attempt(id: JobId, now: nat, answer: Answer) returns (ghost actions: seq<Action>)
      requires id in pending && doing.Idle? && blocked.None?
      modifies this
      ensures Sys() == Run(merge, old(Sys()), actions) && doing.Idle?
      ensures State() == Tried(merge, backoff, old(State()), id, now, answer)
    {
      ghost var before := State();
      SendsUnlessConflict(merge, Sys(), id);
      attempted := attempted + 1;
      var outcome := Deliver(id, if answer == FileTrouble && !pending[id].TranscriptJob? then Trouble else answer);
      if outcome == Taken {
        actions := Concluded(id, now, before);
      } else {
        actions := NotTaken(id, now, answer, outcome, before);
      }
    }

    method Concluded(id: JobId, now: nat, ghost before: Flush) returns (ghost actions: seq<Action>)
      requires id in pending && doing == Sent(id) && id in before.world.pending
      requires CanSend(merge, before.world, id) && Sys() == AfterSend(merge, before.world, id)
      requires before.world.doing.Idle? && State() == before.(world := Sys(), attempted := before.attempted + 1)
      modifies `pending, `doing, `done, `delivered, `retryAt
      ensures Sys() == Run(merge, before.world, actions) && doing.Idle?
      ensures State() == Tried(merge, backoff, before, id, now, Taken)
    {
      SendsUnlessConflict(merge, before.world, id);
      actions := Conclude(id, before.world);
    }

    /** The server did not take the job: it is refused for good, put off, or stops the pass. */
    method NotTaken(id: JobId, now: nat, answer: Answer, outcome: Answer, ghost before: Flush)
        returns (ghost actions: seq<Action>)
      requires id in pending && doing.Idle? && State() == before.(attempted := before.attempted + 1)
      requires outcome ==
               if answer == Taken then Answer.Refused
               else if answer == FileTrouble && !pending[id].TranscriptJob? then Trouble
               else answer
      requires answer == Taken ==> Conflicts(merge, before.world, pending[id])
      modifies `pending, `failed, `retryAt, `nextFlushAt, `blocked
      ensures Sys() == Run(merge, before.world, actions) && doing.Idle?
      ensures State() == Tried(merge, backoff, before, id, now, answer)
    {
      actions := [];
      if outcome == Answer.Refused {
        actions := Refuse(id);
      } else if outcome == FileTrouble {
        retryAt := retryAt[id := now + 5_000];
      } else {
        nextFlushAt := now + backoff;
        blocked := Some(id);
      }
    }

    /** Folds a snapshot into a newer one if that is possible. */
    method Absorb(id: JobId, newer: JobId) returns (ok: bool, ghost actions: seq<Action>)
      requires id != newer && id in pending && newer in pending && pending[id].SnapshotJob? && doing.Idle?
      modifies `pending, `doing, `folded, `coalesced
      ensures Sys() == Run(merge, old(Sys()), actions)
      ensures ok <==> Absorbs(merge, old(Sys()), id, newer)
      ensures State() == if ok then Absorbed(merge, old(State()), id, newer) else old(State())
    {
      ghost var was := Sys();
      actions := [];
      ok := FoldInto(id, newer, false);
      if ok {
        actions := [Fold(id, newer), FoldDone];
        RunBoth(merge, was, Fold(id, newer), FoldDone);
      }
    }

    /** One entry of the pass: left to wait, folded, or attempted. */
    method ProcessEntry(id: JobId, newer: JobId, now: nat, answer: Answer)
        returns (tried: bool, ghost actions: seq<Action>)
      requires id in pending && newer in pending && doing.Idle? && blocked.None?
      modifies this
      ensures Sys() == Run(merge, old(Sys()), actions) && doing.Idle?
      ensures State() == Entered(merge, backoff, old(State()), id, newer, now, answer)
      ensures tried <==> attempted > old(attempted)
    {
      tried, actions := false, [];
      if Waits(id, now) {
        return;
      }
      if pending[id].SnapshotJob? && newer != id {
        var ok;
        ok, actions := Absorb(id, newer);
        if ok {
          return;
        }
      }
      actions := Attempt(id, now, answer);
      tried := true;
    }

    /** The entries before `i` are dealt with or wait, and the others are all still there. */
    ghost predicate PassedUpTo(entries: seq<JobId>, i: nat, now: nat)
      requires i <= |entries|
      reads this
    {
      && (forall j :: i <= j < |entries| ==> entries[j] in pending)
      && (forall j :: 0 <= j < i && entries[j] in pending ==> Waits(entries[j], now))
    }

    method ProcessNext(entries: seq<JobId>, latest: map<TaskId, nat>, i: nat, now: nat, answer: Answer,
        ghost jobs: map<JobId, Job>)
      returns (tried: bool, ghost actions: seq<Action>)
      requires i < |entries| && Distinct(entries) && PassedUpTo(entries, i, now) && doing.Idle? && blocked.None?
      requires forall j :: 0 <= j < |entries| ==> entries[j] in jobs
      requires forall task :: (if task in latest then Some(latest[task]) else None) ==
                              NewestOf(jobs, entries, task, |entries|)
      modifies this
      ensures Sys() == Run(merge, old(Sys()), actions) && doing.Idle?
      ensures old(entries[i] in pending) && State() ==
                Entered(merge, backoff, old(State()), entries[i], Into(jobs, old(Sys()), entries, i), now, answer)
      ensures attempted == old(attempted) + (if tried then 1 else 0)
      ensures blocked.Some? ==> blocked == Some(entries[i]) && nextFlushAt == now + backoff
      ensures blocked.None? ==> PassedUpTo(entries, i + 1, now)
    {
      ghost var before := State();
      var id := entries[i];
      var newer := id;
      NewestAt(jobs, entries, latest);
      var job := pending[id];
      if job.SnapshotJob? && job.tree.task in latest && i < latest[job.tree.task] < |entries| {
        newer := entries[latest[job.tree.task]];
      }
      tried, actions := ProcessEntry(id, newer, now, answer);
      EnteredKeepsOthers(merge, backoff, before, id, newer, now, answer);
      forall j | 0 <= j < i && entries[j] in pending ensures Waits(entries[j], now) {
        assert entries[j] != id && old(Waits(entries[j], now));
        assert MustWait(before, entries[j], now) && MustWait(State(), entries[j], now);
      }
    }

    /**
     * One pass over the entries in their order. It stops at the first trouble with the server or when the batch is
     * used up; otherwise only those entries are left that have to wait.
     */
    method ProcessPending(entries: seq<JobId>, now: nat, answers: JobId -> Answer) returns (ghost actions: seq<Action>)
      requires doing.Idle? && Distinct(entries) && forall i :: 0 <= i < |entries| ==> entries[i] in pending
      modifies this
      ensures Sys() == Run(merge, old(Sys()), actions) && doing.Idle?
      ensures old(nextFlushAt) > now ==> State() == old(State())
      ensures old(nextFlushAt) <= now ==>
                State() == Walked(merge, batchSize, backoff, old(pending), entries, answers, now,
                                  old(State()).(blocked := None), 0, 0)
      ensures old(attempted) <= attempted <= old(attempted) + batchSize
      ensures old(nextFlushAt) <= now && blocked.Some? ==> nextFlushAt == now + backoff && blocked.value in entries
      ensures old(nextFlushAt) <= now && blocked.None? && attempted < old(attempted) + batchSize ==>
                PassedUpTo(entries, |entries|, now)
    {
      actions := [];
      if nextFlushAt > now {
        return;
      }
      blocked := None;
      var latest := Latest(entries);
      var tries := 0;
      ghost var was, jobs := Sys(), pending;
      ghost var end := Walked(merge, batchSize, backoff, jobs, entries, answers, now, State(), 0, 0);
      for i := 0 to |entries|
        invariant end == Walked(merge, batchSize, backoff, jobs, entries, answers, now, State(), i, tries)
        invariant Sys() == Run(merge, was, actions) && doing.Idle? && blocked.None?
        invariant attempted == old(attempted) + tries && tries <= batchSize
        invariant PassedUpTo(entries, i, now)
      {
        if tries >= batchSize {
          break;
        }
        ghost var more;
        var tried;
        tried, more := ProcessNext(entries, latest, i, now, answers(entries[i]), jobs);
        RunConcat(merge, was, actions, more);
        actions := actions + more;
        tries := tries + (if tried then 1 else 0);
        if blocked.Some? {
          break;
        }
      }
    }
  }
}
