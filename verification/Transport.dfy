/** How a hook occurrence travels from a relay's outbox to the receiver's receipts. */
module Transport {
  // It may meet seals, lost or repeated messages and crashes between any two steps.

  import opened Wrappers
  import opened Ingress

  datatype Occurrence = Occurrence(evidence: Evidence, at: int)

  /** What a receipt remembers of the evidence and of who vouched for it; the time of authentication is not part. */
  datatype Fingerprint = Fingerprint(evidence: Evidence, who: Option<(bool, Principal)>)

  datatype Request = Request(id: Id, evidence: Evidence, at: int)

  datatype World = World(
    sealed: bool,
    outbox: map<Id, Occurrence>,
    journal: map<Name, Record>,
    active: map<Id, Fingerprint>, completed: map<Id, Fingerprint>, rejected: map<Id, Fingerprint>,
    requests: set<Request>,            // sent; may arrive any number of times or never
    acks: set<(Id, Evidence)>,         // answered; may arrive any number of times or never
    persisted: set<(Id, Evidence)>,    // what the relay has promised to keep
    created: multiset<Id>)             // receipts made

  datatype Action =
    | Seal
    | Unseal
    | Persist(id: Id, evidence: Evidence, at: int)
    | Send(id: Id)
    | Post(request: Request)           // a client that keeps no outbox
    | Receive(request: Request, authority: Option<Authority>, receivedAt: int)
    | ReconcileAccept(id: Id)
    | ReconcileAcknowledge(id: Id)
    | CompleteWrite(id: Id)
    | CompleteUnlink(id: Id)
    | RejectWrite(id: Id)
    | RejectUnlink(id: Id)
    | ForgetOutbox(id: Id, evidence: Evidence)
    | ForgetJournal(id: Id, evidence: Evidence)

  const START := World(false, map[], map[], map[], map[], map[], {}, {}, {}, multiset{})

  // ---- Sender ----

  function SenderRecord(id: Id, evidence: Evidence, at: int): Record {
    Record(Sender, id, evidence, None, at, 0)
  }

  /** What persisting answers: the occurrence that is now kept, or a refusal. */
  function PersistAnswer(w: World, id: Id, evidence: Evidence, at: int): Result<Occurrence, Refusal> {
    var deferred := Name(Sender, id);
    if w.sealed then
      var r := Appended(w.journal, SenderRecord(id, evidence, at));
      if r.Success? then Success(Occurrence(r.value.evidence, r.value.occurredAt)) else Failure(Reused)
    else if deferred in w.journal && w.journal[deferred].evidence != evidence then Failure(Reused)
    else if id in w.outbox then
      (if w.outbox[id].evidence == evidence then Success(w.outbox[id]) else Failure(Reused))
    else if deferred in w.journal then Success(Occurrence(evidence, w.journal[deferred].occurredAt))
    else Success(Occurrence(evidence, at))
  }

  function AfterPersist(w: World, id: Id, evidence: Evidence, at: int): World {
    var answer := PersistAnswer(w, id, evidence, at);
    if answer.Failure? then w
    else
      var kept := w.(persisted := w.persisted + {(id, evidence)});
      if w.sealed then kept.(journal := AfterAppend(w.journal, SenderRecord(id, evidence, at)))
      else if id in w.outbox then kept
      else kept.(outbox := w.outbox[id := answer.value])
  }

  /** What the relay will send for an identifier; a file in the outbox hides a record in the journal. */
  function Sendable(w: World, id: Id): Option<Occurrence> {
    if id in w.outbox then Some(w.outbox[id])
    else if Name(Sender, id) in w.journal then
      Some(Occurrence(w.journal[Name(Sender, id)].evidence, w.journal[Name(Sender, id)].occurredAt))
    else None
  }

  // ---- Receiver ----

  function Who(a: Option<Authority>): Option<(bool, Principal)> {
    if a.Some? then Some((a.value.operator, a.value.principal)) else None
  }

  function Existing(w: World, id: Id): Option<Fingerprint> {
    if id in w.active then Some(w.active[id])
    else if id in w.completed then Some(w.completed[id])
    else if id in w.rejected then Some(w.rejected[id])
    else None
  }

  predicate Reconciled(w: World) {
    forall n :: n in w.journal ==> n.kind == Sender
  }

  /** Accepts into the receipts; the answer says whether the caller may be told so. */
  function AcceptNow(w: World, id: Id, mark: Fingerprint): (World, bool) {
    match Existing(w, id)
    case Some(known) => (w, known == mark)
    case None => (w.(active := w.active[id := mark], created := w.created + multiset{id}), true)
  }

  function ReceiverRecord(r: Request, authority: Option<Authority>, receivedAt: int): Record {
    Record(Receiver, r.id, r.evidence, authority, r.at, receivedAt)
  }

  function Accept(w: World, r: Request, authority: Option<Authority>, receivedAt: int): (World, bool) {
    var mark := Fingerprint(r.evidence, Who(authority));
    if !w.sealed then
      (if Reconciled(w) then AcceptNow(w, r.id, mark) else (w, false))
    else if Existing(w, r.id).Some? then (w, Existing(w, r.id).value == mark)
    else
      var record := ReceiverRecord(r, authority, receivedAt);
      (w.(journal := AfterAppend(w.journal, record)), Appended(w.journal, record).Success?)
  }

  function Answered(accepted: (World, bool), r: Request): World {
    if accepted.1 then accepted.0.(acks := accepted.0.acks + {(r.id, r.evidence)}) else accepted.0
  }

  function PrintOf(r: Record): Fingerprint {
    Fingerprint(r.evidence, Who(r.authority))
  }

  function Apply(w: World, a: Action): World {
    match a
    case Seal => w.(sealed := true)
    case Unseal => w.(sealed := false)
    case Persist(id, evidence, at) => AfterPersist(w, id, evidence, at)
    case Send(id) =>
      var o := Sendable(w, id);
      if o.Some? then w.(requests := w.requests + {Request(id, o.value.evidence, o.value.at)}) else w
    case Post(request) => w.(requests := w.requests + {request})
    case Receive(request, authority, receivedAt) =>
      if request in w.requests then Answered(Accept(w, request, authority, receivedAt), request) else w
    case ReconcileAccept(id) =>
      var n := Name(Receiver, id);
      if !w.sealed && n in w.journal then AcceptNow(w, id, PrintOf(w.journal[n])).0 else w
    case ReconcileAcknowledge(id) =>
      var n := Name(Receiver, id);
      if !w.sealed && n in w.journal && Existing(w, id) == Some(PrintOf(w.journal[n])) then
        w.(journal := w.journal - {n})
      else w
    case CompleteWrite(id) => if id in w.active then w.(completed := w.completed[id := w.active[id]]) else w
    case CompleteUnlink(id) => if id in w.completed then w.(active := w.active - {id}) else w
    case RejectWrite(id) => if id in w.active then w.(rejected := w.rejected[id := w.active[id]]) else w
    case RejectUnlink(id) => if id in w.rejected then w.(active := w.active - {id}) else w
    case ForgetOutbox(id, evidence) =>
      if !w.sealed && (id, evidence) in w.acks then w.(outbox := w.outbox - {id}) else w
    case ForgetJournal(id, evidence) =>
      if !w.sealed && (id, evidence) in w.acks then w.(journal := w.journal - {Name(Sender, id)}) else w
  }

  function Run(w: World, actions: seq<Action>): World
    decreases |actions|
  {
    if actions == [] then w else Run(Apply(w, actions[0]), actions[1..])
  }

  // ---- Invariant ----

  predicate WithSender(w: World, id: Id) {
    id in w.outbox || Name(Sender, id) in w.journal
  }

  predicate WithReceiver(w: World, id: Id) {
    Name(Receiver, id) in w.journal || Existing(w, id).Some?
  }

  /** The receiver holds this identifier with just this evidence. */
  predicate Holds(w: World, id: Id, evidence: Evidence) {
    || (Name(Receiver, id) in w.journal && w.journal[Name(Receiver, id)].evidence == evidence)
    || (Existing(w, id).Some? && Existing(w, id).value.evidence == evidence)
  }

  /** All copies of a receipt, and a deferred record that has been accepted, agree. */
  ghost predicate Agree(w: World, id: Id) {
    && (id in w.active && id in w.completed ==> w.active[id] == w.completed[id])
    && (id in w.active && id in w.rejected ==> w.active[id] == w.rejected[id])
    && (id in w.completed && id in w.rejected ==> w.completed[id] == w.rejected[id])
    && (Name(Receiver, id) in w.journal && Existing(w, id).Some? ==>
          Existing(w, id).value == PrintOf(w.journal[Name(Receiver, id)]))
    && w.created[id] == (if Existing(w, id).Some? then 1 else 0)
  }

  ghost predicate Inv(w: World) {
    && (forall n :: n in w.journal ==> NameOf(w.journal[n]) == n)
    && (forall id :: Agree(w, id))
    && (forall e :: e in w.acks ==> Holds(w, e.0, e.1))
    && (forall e :: e in w.persisted ==> WithSender(w, e.0) || WithReceiver(w, e.0))
  }

  /** What a step leaves of one identifier: copies still agree, and whatever was held or kept still is. */
  ghost predicate Kept(w: World, t: World, id: Id) {
    && Agree(t, id)
    && (forall evidence :: Holds(w, id, evidence) ==> Holds(t, id, evidence))
    && (Existing(w, id).Some? ==> Existing(t, id) == Existing(w, id))
    && (WithSender(w, id) || WithReceiver(w, id) ==> WithSender(t, id) || WithReceiver(t, id))
  }

  /** Nothing about one identifier at the receiver is any different, and its occurrence is still with the sender. */
  ghost predicate SameReceiver(w: World, t: World, id: Id) {
    && t.active == w.active && t.completed == w.completed && t.rejected == w.rejected && t.created == w.created
    && (Name(Receiver, id) in t.journal <==> Name(Receiver, id) in w.journal)
    && (Name(Receiver, id) in w.journal ==> t.journal[Name(Receiver, id)] == w.journal[Name(Receiver, id)])
  }

  lemma SameReceiverKept(w: World, t: World, id: Id)
    requires Agree(w, id) && SameReceiver(w, t, id)
    requires WithSender(w, id) ==> WithSender(t, id) || WithReceiver(w, id)
    ensures Kept(w, t, id)
  {
  }

  lemma PersistKeeps(w: World, a: Action, id: Id)
    requires Agree(w, id) && a.Persist?
    ensures Kept(w, Apply(w, a), id)
  {
    SameReceiverKept(w, AfterPersist(w, a.id, a.evidence, a.at), id);
  }

  lemma ForgetKeeps(w: World, a: Action, id: Id)
    requires Inv(w) && (a.ForgetOutbox? || a.ForgetJournal?)
    ensures Kept(w, Apply(w, a), id)
  {
    assert Agree(w, id);
    if (a.id, a.evidence) in w.acks {
      assert Holds(w, a.id, a.evidence);
    }
    SameReceiverKept(w, Apply(w, a), id);
  }

  lemma AcceptNowKeeps(w: World, id: Id, mark: Fingerprint, other: Id)
    requires Agree(w, id) && Agree(w, other)
    requires Name(Receiver, id) in w.journal ==> mark == PrintOf(w.journal[Name(Receiver, id)])
    ensures Kept(w, AcceptNow(w, id, mark).0, other)
    ensures AcceptNow(w, id, mark).1 <==> Existing(AcceptNow(w, id, mark).0, id) == Some(mark)
  {
  }

  lemma AcceptKeeps(w: World, r: Request, authority: Option<Authority>, receivedAt: int, id: Id)
    requires Agree(w, id) && Agree(w, r.id)
    ensures var (t, ok) := Accept(w, r, authority, receivedAt);
            Kept(w, t, id) && (ok ==> Holds(t, r.id, r.evidence)) && t.acks == w.acks && t.persisted == w.persisted
  {
    if !w.sealed {
      if Reconciled(w) {
        AcceptNowKeeps(w, r.id, Fingerprint(r.evidence, Who(authority)), id);
      }
    } else if Existing(w, r.id).None? {
      DeferKeeps(w, ReceiverRecord(r, authority, receivedAt), id);
    }
  }

  /** Putting a record into the journal while storage is sealed. */
  lemma DeferKeeps(w: World, record: Record, id: Id)
    requires Agree(w, id) && NameOf(record).kind == Receiver && Existing(w, NameOf(record).id).None?
    ensures var t := w.(journal := AfterAppend(w.journal, record));
            && Kept(w, t, id)
            && (Appended(w.journal, record).Success? ==> Holds(t, NameOf(record).id, record.evidence))
  {
  }

  lemma AnsweredKeeps(w: World, accepted: (World, bool), r: Request, id: Id)
    requires Kept(w, accepted.0, id)
    ensures Kept(w, Answered(accepted, r), id)
  {
  }

  lemma ReceiveKeeps(w: World, a: Action, id: Id)
    requires a.Receive? && Agree(w, id) && Agree(w, a.request.id)
    ensures Kept(w, Apply(w, a), id)
    ensures Apply(w, a).persisted == w.persisted
    ensures forall e :: e in Apply(w, a).acks ==>
              e in w.acks || (e == (a.request.id, a.request.evidence) &&
                  Holds(Apply(w, a), a.request.id, a.request.evidence))
  {
    AcceptKeeps(w, a.request, a.authority, a.receivedAt, id);
    AnsweredKeeps(w, Accept(w, a.request, a.authority, a.receivedAt), a.request, id);
  }

  lemma ReconcileKeeps(w: World, a: Action, id: Id)
    requires Inv(w) && (a.ReconcileAccept? || a.ReconcileAcknowledge?)
    ensures Kept(w, Apply(w, a), id)
  {
    assert Agree(w, id) && Agree(w, a.id);
    var n := Name(Receiver, a.id);
    if a.ReconcileAccept? && n in w.journal {
      AcceptNowKeeps(w, a.id, PrintOf(w.journal[n]), id);
    }
  }

  lemma CompleteKeeps(w: World, a: Action, id: Id)
    requires (a.CompleteWrite? || a.CompleteUnlink?) && Agree(w, id) && Agree(w, a.id)
    ensures Kept(w, Apply(w, a), id)
  {
  }

  lemma RejectKeeps(w: World, a: Action, id: Id)
    requires (a.RejectWrite? || a.RejectUnlink?) && Agree(w, id) && Agree(w, a.id)
    ensures Kept(w, Apply(w, a), id)
  {
  }

  lemma StepKeeps(w: World, a: Action, id: Id)
    requires Inv(w)
    ensures Kept(w, Apply(w, a), id)
  {
    assert Agree(w, id);
    match a
    case Persist(_, _, _) => PersistKeeps(w, a, id);
    case Receive(r, _, _) => assert Agree(w, r.id); ReceiveKeeps(w, a, id);
    case ReconcileAccept(_) => ReconcileKeeps(w, a, id);
    case ReconcileAcknowledge(_) => ReconcileKeeps(w, a, id);
    case CompleteWrite(c) => assert Agree(w, c); CompleteKeeps(w, a, id);
    case CompleteUnlink(c) => assert Agree(w, c); CompleteKeeps(w, a, id);
    case RejectWrite(c) => assert Agree(w, c); RejectKeeps(w, a, id);
    case RejectUnlink(c) => assert Agree(w, c); RejectKeeps(w, a, id);
    case ForgetOutbox(_, _) => ForgetKeeps(w, a, id);
    case ForgetJournal(_, _) => ForgetKeeps(w, a, id);
    case _ => SameReceiverKept(w, Apply(w, a), id);
  }

  /** Where the records of the journal come from. */
  lemma JournalStep(w: World, a: Action, n: Name)
    requires n in Apply(w, a).journal
    ensures var r := Apply(w, a).journal[n];
            || (n in w.journal && r == w.journal[n])
            || (a.Persist? && n == NameOf(r) && r == SenderRecord(a.id, a.evidence, a.at))
            || (a.Receive? && n == NameOf(r) && a.request in w.requests &&
                  r == ReceiverRecord(a.request, a.authority, a.receivedAt))
  {
    match a
    case Persist(id, evidence, at) => assert Apply(w, a).journal in {w.journal,
        AfterAppend(w.journal, SenderRecord(id, evidence, at))};
    case Receive(r, authority, at) => ReceiveChanges(w, a);
    case _ =>
  }

  lemma AcceptChanges(w: World, r: Request, authority: Option<Authority>, receivedAt: int)
    ensures var t := Accept(w, r, authority, receivedAt).0;
            && (t.journal == w.journal || t.journal == AfterAppend(w.journal, ReceiverRecord(r, authority, receivedAt)))
            && (t.active == w.active || t.active == w.active[r.id := Fingerprint(r.evidence, Who(authority))])
            && t.outbox == w.outbox && t.requests == w.requests && t.persisted == w.persisted
            && t.completed == w.completed && t.rejected == w.rejected
  {
  }

  lemma ReceiveChanges(w: World, a: Action)
    requires a.Receive?
    ensures var t := Apply(w, a);
            && t.outbox == w.outbox && t.requests == w.requests && t.persisted == w.persisted
            && t.completed == w.completed && t.rejected == w.rejected
            && (t.journal == w.journal ||
                (a.request in w.requests &&
                    t.journal == AfterAppend(w.journal, ReceiverRecord(a.request, a.authority, a.receivedAt))))
            && (t.active == w.active ||
                (a.request in w.requests &&
                    t.active == w.active[a.request.id := Fingerprint(a.request.evidence, Who(a.authority))]))
  {
    if a.request in w.requests {
      AcceptChanges(w, a.request, a.authority, a.receivedAt);
      var accepted := Accept(w, a.request, a.authority, a.receivedAt);
      assert Apply(w, a) == Answered(accepted, a.request);
    }
  }

  lemma LogStep(w: World, a: Action)
    requires !a.Receive?
    ensures var t := Apply(w, a);
            && t.acks == w.acks
            && (forall e :: e in t.persisted ==>
                  e in w.persisted || (a.Persist? && e == (a.id, a.evidence) && WithSender(t, a.id)))
  {
  }

  lemma StepInv(w: World, a: Action)
    requires Inv(w)
    ensures Inv(Apply(w, a))
  {
    var t := Apply(w, a);
    if a.Receive? {
      assert Agree(w, a.request.id);
      ReceiveKeeps(w, a, a.request.id);
    } else {
      LogStep(w, a);
    }
    forall id ensures Kept(w, t, id) { StepKeeps(w, a, id); }
    forall n | n in t.journal ensures NameOf(t.journal[n]) == n { JournalStep(w, a, n); }
    forall e | e in t.acks ensures Holds(t, e.0, e.1) { assert Kept(w, t, e.0); }
    forall e | e in t.persisted ensures WithSender(t, e.0) || WithReceiver(t, e.0) {
      assert Kept(w, t, e.0);
    }
    forall id ensures Agree(t, id) { assert Kept(w, t, id); }
  }

  lemma {:induction false} RunInv(w: World, actions: seq<Action>)
    requires Inv(w)
    ensures Inv(Run(w, actions))
    decreases |actions|
  {
    if actions != [] {
      StepInv(w, actions[0]);
      RunInv(Apply(w, actions[0]), actions[1..]);
    }
  }

  // ---- Main results, over every run ----

  /** Whatever was persisted is in the outbox, in the journal, or among the receipts, whichever crash comes when. */
  lemma NothingIsLost(actions: seq<Action>, id: Id, evidence: Evidence)
    requires (id, evidence) in Run(START, actions).persisted
    ensures var w := Run(START, actions);
            || id in w.outbox || Name(Sender, id) in w.journal || Name(Receiver, id) in w.journal
            || id in w.active || id in w.completed || id in w.rejected
  {
    RunInv(START, actions);
    var w := Run(START, actions);
    var e := (id, evidence);
    assert e in w.persisted && (WithSender(w, e.0) || WithReceiver(w, e.0));
  }

  /** An acknowledged request is with the receiver, and with the evidence that was sent. */
  lemma AcknowledgedIsHeld(actions: seq<Action>, id: Id, evidence: Evidence)
    requires (id, evidence) in Run(START, actions).acks
    ensures Holds(Run(START, actions), id, evidence)
  {
    RunInv(START, actions);
    var e := (id, evidence);
    assert e in Run(START, actions).acks;
  }

  /** At most one receipt is ever made for an identifier, however often it is sent, deferred or reconciled. */
  lemma TakesEffectAtMostOnce(actions: seq<Action>, id: Id)
    ensures Run(START, actions).created[id] <= 1
    ensures Run(START, actions).created[id] == 1 <==> Existing(Run(START, actions), id).Some?
  {
    RunInv(START, actions);
    assert Agree(Run(START, actions), id);
  }

  /** A receipt stays, under the fingerprint it was made with. */
  lemma {:induction false} ReceiptsStay(w: World, actions: seq<Action>, id: Id)
    requires Inv(w) && Existing(w, id).Some?
    ensures Existing(Run(w, actions), id) == Existing(w, id)
    decreases |actions|
  {
    if actions != [] {
      StepKeeps(w, actions[0], id);
      StepInv(w, actions[0]);
      ReceiptsStay(Apply(w, actions[0]), actions[1..], id);
    }
  }

  /** Reconciling is never refused: a deferred record is either new to the receipts or the very one they hold. */
  lemma ReconcilingIsNeverRefused(actions: seq<Action>, id: Id)
    ensures var w := Run(START, actions);
            Name(Receiver, id) in w.journal ==> AcceptNow(w, id, PrintOf(w.journal[Name(Receiver, id)])).1
  {
    RunInv(START, actions);
    assert Agree(Run(START, actions), id);
  }

  // ---- Identifiers that are not reused ----

  /** The caller never uses an identifier for two pieces of evidence. */
  predicate Intended(a: Action, intent: Id -> Evidence) {
    && (a.Persist? ==> a.evidence == intent(a.id))
    && (a.Post? ==> a.request.evidence == intent(a.request.id))
  }

  predicate IntendedReceipts(w: World, intent: Id -> Evidence, id: Id) {
    && (id in w.active ==> w.active[id].evidence == intent(id))
    && (id in w.completed ==> w.completed[id].evidence == intent(id))
    && (id in w.rejected ==> w.rejected[id].evidence == intent(id))
  }

  ghost predicate AsIntended(w: World, intent: Id -> Evidence) {
    && (forall id :: id in w.outbox ==> w.outbox[id].evidence == intent(id))
    && (forall n :: n in w.journal ==> NameOf(w.journal[n]) == n && w.journal[n].evidence == intent(n.id))
    && (forall id :: IntendedReceipts(w, intent, id))
    && (forall r :: r in w.requests ==> r.evidence == intent(r.id))
    && (forall e :: e in w.persisted ==> e.1 == intent(e.0))
  }

  lemma IntendedStep(w: World, a: Action, intent: Id -> Evidence)
    requires AsIntended(w, intent) && Intended(a, intent)
    ensures AsIntended(Apply(w, a), intent)
  {
    var t := Apply(w, a);
    forall n | n in t.journal ensures NameOf(t.journal[n]) == n &&
        t.journal[n].evidence == intent(n.id) { JournalStep(w, a, n); }
    IntendedSender(w, a, intent);
    forall id ensures IntendedReceipts(t, intent, id) {
      assert IntendedReceipts(w, intent, id);
      IntendedReceiver(w, a, intent, id);
    }
  }

  lemma IntendedSender(w: World, a: Action, intent: Id -> Evidence)
    requires AsIntended(w, intent) && Intended(a, intent)
    ensures forall id :: id in Apply(w, a).outbox ==> Apply(w, a).outbox[id].evidence == intent(id)
    ensures forall r :: r in Apply(w, a).requests ==> r.evidence == intent(r.id)
    ensures forall e :: e in Apply(w, a).persisted ==> e.1 == intent(e.0)
  {
    if a.Persist? {
      IntendedPersist(w, a, intent);
    } else if a.Receive? {
      ReceiveChanges(w, a);
    }
  }

  lemma IntendedPersist(w: World, a: Action, intent: Id -> Evidence)
    requires a.Persist? && a.evidence == intent(a.id)
    ensures var t := Apply(w, a);
            && t.requests == w.requests
            && (t.outbox == w.outbox || exists o: Occurrence ::
                  o.evidence == a.evidence && t.outbox == w.outbox[a.id := o])
            && (t.persisted == w.persisted || t.persisted == w.persisted + {(a.id, a.evidence)})
  {
    var answer := PersistAnswer(w, a.id, a.evidence, a.at);
    assert answer.Success? && !w.sealed ==> answer.value.evidence == a.evidence;
  }

  lemma IntendedReceiver(w: World, a: Action, intent: Id -> Evidence, id: Id)
    requires IntendedReceipts(w, intent, id)
    requires a.Receive? && a.request in w.requests ==> a.request.evidence == intent(a.request.id)
    requires a.ReconcileAccept? && Name(Receiver, a.id) in w.journal ==>
               w.journal[Name(Receiver, a.id)].evidence == intent(a.id)
    ensures IntendedReceipts(Apply(w, a), intent, id)
  {
    var t := Apply(w, a);
    if a.Receive? {
      ReceiveChanges(w, a);
    } else if !a.ReconcileAccept? {
      ReceiptsMove(w, a);
    }
  }

  /** Otherwise receipts only move. */
  lemma ReceiptsMove(w: World, a: Action)
    requires !a.Receive? && !a.ReconcileAccept?
    ensures var t := Apply(w, a);
            && (forall id :: id in t.active ==> id in w.active && t.active[id] == w.active[id])
            && (forall id :: id in t.completed ==>
                  (id in w.completed && t.completed[id] == w.completed[id]) ||
                      (id in w.active && t.completed[id] == w.active[id]))
            && (forall id :: id in t.rejected ==>
                  (id in w.rejected && t.rejected[id] == w.rejected[id]) ||
                      (id in w.active && t.rejected[id] == w.active[id]))
  {
  }

  lemma {:induction false} IntendedRun(w: World, actions: seq<Action>, intent: Id -> Evidence)
    requires AsIntended(w, intent) && forall a :: a in actions ==> Intended(a, intent)
    ensures AsIntended(Run(w, actions), intent)
    decreases |actions|
  {
    if actions != [] {
      IntendedStep(w, actions[0], intent);
      IntendedRun(Apply(w, actions[0]), actions[1..], intent);
    }
  }

  /** Then the evidence itself is never lost: the relay will send just what was persisted, or the receiver has it. */
  lemma EvidenceIsNeverLost(actions: seq<Action>, intent: Id -> Evidence, id: Id, evidence: Evidence)
    requires forall a :: a in actions ==> Intended(a, intent)
    requires (id, evidence) in Run(START, actions).persisted
    ensures var w := Run(START, actions);
            (Sendable(w, id).Some? && Sendable(w, id).value.evidence == evidence) || Holds(w, id, evidence)
  {
    RunInv(START, actions);
    IntendedRun(START, actions, intent);
    var w := Run(START, actions);
    var e := (id, evidence);
    assert IntendedReceipts(w, intent, id);
    assert e in w.persisted && (WithSender(w, e.0) || WithReceiver(w, e.0));
  }

  /**
   * Persisting promises to send what it was given. The promise is kept exactly unless the storage is sealed and the
   * outbox has other evidence under the same identifier: the journal does not look there.
   */
  lemma PersistKeepsPromiseIff(w: World, id: Id, evidence: Evidence, at: int)
    requires Inv(w) && PersistAnswer(w, id, evidence, at).Success?
    ensures var next := Sendable(Apply(w, Persist(id, evidence, at)), id);
            next.Some? && (next.value.evidence == evidence <==>
                !(w.sealed && id in w.outbox && w.outbox[id].evidence != evidence))
  {
  }

  lemma {:induction false} RunSnoc(w: World, actions: seq<Action>, a: Action)
    ensures Run(w, actions + [a]) == Apply(Run(w, actions), a)
    decreases |actions|
  {
    if actions == [] {
      assert Run(Apply(w, a), [a][1..]) == Apply(w, a);
      assert [] + [a] == [a];
    } else {
      assert (actions + [a])[0] == actions[0] && (actions + [a])[1..] == actions[1..] + [a];
      RunSnoc(Apply(w, actions[0]), actions[1..], a);
    }
  }

  lemma RunNext(actions: seq<Action>, k: nat)
    requires k < |actions|
    ensures Run(START, actions[..k + 1]) == Apply(Run(START, actions[..k]), actions[k])
  {
    assert actions[..k + 1] == actions[..k] + [actions[k]];
    RunSnoc(START, actions[..k], actions[k]);
  }

  function Reuse(id: Id, first: Evidence, second: Evidence, at: int): seq<Action> {
    [Persist(id, first, at), Seal, Persist(id, second, at), Unseal, Send(id), Receive(Request(id, first, at), None, at),
     ForgetOutbox(id, first), ForgetJournal(id, first)]
  }

  /** The world after the given number of those steps, from the third on. */
  function ReuseWorld(id: Id, first: Evidence, second: Evidence, at: int, steps: nat): World {
    World(steps == 3, if steps < 7 then map[id := Occurrence(first, at)] else map[],
          if steps < 8 then map[Name(Sender, id) := SenderRecord(id, second, at)] else map[],
          if steps < 6 then map[] else map[id := Fingerprint(first, None)], map[], map[],
          if steps < 5 then {} else {Request(id, first, at)}, if steps < 6 then {} else {(id, first)},
          {(id, first), (id, second)}, if steps < 6 then multiset{} else multiset{id})
  }

  lemma ReuseBegins(id: Id, first: Evidence, second: Evidence, at: int)
    requires first != second
    ensures Run(START, Reuse(id, first, second, at)[..3]) == ReuseWorld(id, first, second, at, 3)
  {
    var e := Reuse(id, first, second, at);
    var w1 := START.(outbox := map[id := Occurrence(first, at)], persisted := {(id, first)});
    assert e[..0] == [];
    RunNext(e, 0);
    assert Apply(START, e[0]) == w1;
    RunNext(e, 1);
    RunNext(e, 2);
    assert Apply(w1.(sealed := true), e[2]) == ReuseWorld(id, first, second, at, 3);
  }

  lemma ReuseSends(id: Id, first: Evidence, second: Evidence, at: int, k: nat)
    requires first != second && k in {3, 4}
    ensures Apply(ReuseWorld(id, first, second, at, k), Reuse(id, first, second, at)[k]) ==
            ReuseWorld(id, first, second, at, k + 1)
  {
  }

  lemma ReuseIsReceived(id: Id, first: Evidence, second: Evidence, at: int)
    requires first != second
    ensures Apply(ReuseWorld(id, first, second, at, 5), Reuse(id, first, second, at)[5]) ==
            ReuseWorld(id, first, second, at, 6)
  {
    var w := ReuseWorld(id, first, second, at, 5);
    assert Accept(w, Request(id, first, at), None, at) == AcceptNow(w, id, Fingerprint(first, None));
  }

  lemma ReuseIsForgotten(id: Id, first: Evidence, second: Evidence, at: int, k: nat)
    requires first != second && k in {6, 7}
    ensures Apply(ReuseWorld(id, first, second, at, k), Reuse(id, first, second, at)[k]) ==
            ReuseWorld(id, first, second, at, k + 1)
  {
    var w, t := ReuseWorld(id, first, second, at, k), ReuseWorld(id, first, second, at, k + 1);
    assert k == 6 ==> w.outbox - {id} == t.outbox;
    assert k == 7 ==> w.journal - {Name(Sender, id)} == t.journal;
  }

  lemma {:induction false} ReuseRun(id: Id, first: Evidence, second: Evidence, at: int, k: nat)
    requires first != second && 3 <= k <= 8
    ensures Run(START, Reuse(id, first, second, at)[..k]) == ReuseWorld(id, first, second, at, k)
    decreases k
  {
    if k == 3 {
      ReuseBegins(id, first, second, at);
    } else {
      ReuseRun(id, first, second, at, k - 1);
      RunNext(Reuse(id, first, second, at), k - 1);
      if k <= 5 {
        ReuseSends(id, first, second, at, k - 1);
      } else if k == 6 {
        ReuseIsReceived(id, first, second, at);
      } else {
        ReuseIsForgotten(id, first, second, at, k - 1);
      }
    }
  }

  /** Evidence persisted against that exception is gone once the other occurrence is acknowledged. */
  lemma ReuseAcrossSealLoses(id: Id, first: Evidence, second: Evidence, at: int)
    requires first != second
    ensures var w := Run(START, Reuse(id, first, second, at));
            (id, second) in w.persisted && Sendable(w, id).None? && !Holds(w, id, second)
  {
    ReuseRun(id, first, second, at, 8);
    assert Reuse(id, first, second, at)[..8] == Reuse(id, first, second, at);
  }

  // ---- Exactly when evidence is lost ----

  predicate InOutbox(w: World, id: Id, evidence: Evidence) {
    id in w.outbox && w.outbox[id].evidence == evidence
  }

  predicate Deferred(w: World, id: Id, evidence: Evidence) {
    Name(Sender, id) in w.journal && w.journal[Name(Sender, id)].evidence == evidence
  }

  /** The relay will send just this evidence. */
  predicate Sends(w: World, id: Id, evidence: Evidence) {
    Sendable(w, id).Some? && Sendable(w, id).value.evidence == evidence
  }

  /** What was persisted will be sent, or is with the receiver. */
  predicate Honoured(w: World, id: Id, evidence: Evidence) {
    (id, evidence) in w.persisted ==> Sends(w, id, evidence) || Holds(w, id, evidence)
  }

  /** What was persisted is on some disk, sent next or not. */
  predicate Stored(w: World, id: Id, evidence: Evidence) {
    (id, evidence) in w.persisted ==> InOutbox(w, id, evidence) || Deferred(w, id, evidence) || Holds(w, id, evidence)
  }

  /** Under the seal, the evidence is put behind other evidence in the outbox. */
  predicate Hides(w: World, a: Action, id: Id, evidence: Evidence) {
    && a.Persist? && a.id == id && a.evidence == evidence
    && w.sealed && PersistAnswer(w, id, evidence, a.at).Success?
    && id in w.outbox && w.outbox[id].evidence != evidence
    && !Holds(w, id, evidence)
  }

  /**
   * The identifier is forgotten although it is other evidence that was acknowledged, and the receiver has not this one.
   */
  predicate Mistaken(w: World, a: Action, id: Id, evidence: Evidence) {
    && (a.ForgetOutbox? || a.ForgetJournal?) && a.id == id && a.evidence != evidence
    && !w.sealed && (id, a.evidence) in w.acks
    && (id, evidence) in w.persisted && !Holds(w, id, evidence)
  }

  /** That takes away what would have been sent. */
  predicate Drops(w: World, a: Action, id: Id, evidence: Evidence) {
    && Mistaken(w, a, id, evidence)
    && (if a.ForgetOutbox? then InOutbox(w, id, evidence) && !Deferred(w, id, evidence)
        else id !in w.outbox && Deferred(w, id, evidence))
  }

  /** That takes away the last copy. */
  predicate Destroys(w: World, a: Action, id: Id, evidence: Evidence) {
    && Mistaken(w, a, id, evidence)
    && (if a.ForgetOutbox? then InOutbox(w, id, evidence) && !Deferred(w, id, evidence)
        else !InOutbox(w, id, evidence) && Deferred(w, id, evidence))
  }

  /** What no step but persisting and forgetting changes. */
  lemma SenderStays(w: World, a: Action, id: Id)
    requires !a.Persist? && !a.ForgetOutbox? && !a.ForgetJournal?
    ensures var t, n := Apply(w, a), Name(Sender, id);
            && t.outbox == w.outbox && t.persisted == w.persisted
            && (n in t.journal <==> n in w.journal)
            && (n in w.journal ==> t.journal[n] == w.journal[n])
  {
    if a.Receive? {
      ReceiveChanges(w, a);
    }
  }

  /** Persisting and forgetting are the sender's own. */
  lemma ReceiverStays(w: World, a: Action, id: Id, evidence: Evidence)
    requires a.Persist? || a.ForgetOutbox? || a.ForgetJournal?
    ensures Holds(Apply(w, a), id, evidence) <==> Holds(w, id, evidence)
  {
  }

  lemma PersistSendsOthers(w: World, a: Action, id: Id)
    requires a.Persist? && a.id != id
    ensures Sendable(Apply(w, a), id) == Sendable(w, id)
    ensures forall evidence :: (id, evidence) in Apply(w, a).persisted <==> (id, evidence) in w.persisted
  {
  }

  /** Once persisted, just this evidence will be sent, unless the outbox has other evidence that the seal hides. */
  lemma PersistSends(w: World, a: Action)
    requires a.Persist? && PersistAnswer(w, a.id, a.evidence, a.at).Success?
    ensures var t := Apply(w, a);
            && t.persisted == w.persisted + {(a.id, a.evidence)}
            && Sendable(t, a.id).Some?
            && Sendable(t, a.id).value.evidence ==
                 (if w.sealed && a.id in w.outbox then w.outbox[a.id].evidence else a.evidence)
            && (Sendable(w, a.id).Some? ==> Sendable(t, a.id).value.evidence == Sendable(w, a.id).value.evidence)
  {
  }

  lemma PersistHonours(w: World, a: Action, id: Id, evidence: Evidence)
    requires a.Persist? && Honoured(w, id, evidence)
    ensures Honoured(Apply(w, a), id, evidence) <==> !Hides(w, a, id, evidence)
  {
    ReceiverStays(w, a, id, evidence);
    if a.id != id {
      PersistSendsOthers(w, a, id);
    } else if PersistAnswer(w, a.id, a.evidence, a.at).Success? {
      PersistSends(w, a);
    }
  }

  lemma PersistStores(w: World, a: Action, id: Id, evidence: Evidence)
    requires a.Persist? && Stored(w, id, evidence)
    ensures Stored(Apply(w, a), id, evidence)
  {
    ReceiverStays(w, a, id, evidence);
  }

  lemma ForgetHonours(w: World, a: Action, id: Id, evidence: Evidence)
    requires Inv(w) && (a.ForgetOutbox? || a.ForgetJournal?) && Honoured(w, id, evidence)
    ensures Honoured(Apply(w, a), id, evidence) <==> !Drops(w, a, id, evidence)
  {
    ReceiverStays(w, a, id, evidence);
    AcknowledgedHeld(w, id, a.evidence);
  }

  lemma ForgetStores(w: World, a: Action, id: Id, evidence: Evidence)
    requires Inv(w) && (a.ForgetOutbox? || a.ForgetJournal?) && Stored(w, id, evidence)
    ensures Stored(Apply(w, a), id, evidence) <==> !Destroys(w, a, id, evidence)
  {
    ReceiverStays(w, a, id, evidence);
    AcknowledgedHeld(w, id, a.evidence);
  }

  lemma AcknowledgedHeld(w: World, id: Id, evidence: Evidence)
    requires Inv(w)
    ensures (id, evidence) in w.acks ==> Holds(w, id, evidence)
  {
    var e := (id, evidence);
    assert e in w.acks ==> Holds(w, e.0, e.1);
  }

  /**
   * In every state that a run can reach, what was persisted stops being sent or held exactly at two kinds of step: it
   * is put behind other evidence in the outbox, or forgotten for an acknowledgement of other evidence.
   */
  lemma StepHonoursIff(w: World, a: Action, id: Id, evidence: Evidence)
    requires Inv(w) && Honoured(w, id, evidence)
    ensures Honoured(Apply(w, a), id, evidence) <==> !Hides(w, a, id, evidence) && !Drops(w, a, id, evidence)
  {
    if a.Persist? {
      PersistHonours(w, a, id, evidence);
    } else if a.ForgetOutbox? || a.ForgetJournal? {
      ForgetHonours(w, a, id, evidence);
    } else {
      SenderStays(w, a, id);
      StepKeeps(w, a, id);
    }
  }

  /** It stops being on any disk exactly at a step of the second kind that takes away the last copy. */
  lemma StepStoresIff(w: World, a: Action, id: Id, evidence: Evidence)
    requires Inv(w) && Stored(w, id, evidence)
    ensures Stored(Apply(w, a), id, evidence) <==> !Destroys(w, a, id, evidence)
  {
    if a.Persist? {
      PersistStores(w, a, id, evidence);
    } else if a.ForgetOutbox? || a.ForgetJournal? {
      ForgetStores(w, a, id, evidence);
    } else {
      SenderStays(w, a, id);
      StepKeeps(w, a, id);
    }
  }

  ghost predicate AllHonoured(w: World) {
    forall id, evidence :: Honoured(w, id, evidence)
  }

  ghost predicate AllStored(w: World) {
    forall id, evidence :: Stored(w, id, evidence)
  }

  ghost predicate HidesOrDrops(w: World, a: Action) {
    exists id, evidence :: Hides(w, a, id, evidence) || Drops(w, a, id, evidence)
  }

  ghost predicate DestroysAny(w: World, a: Action) {
    exists id, evidence :: Destroys(w, a, id, evidence)
  }

  lemma StepHonoursAllIff(w: World, a: Action)
    requires Inv(w) && AllHonoured(w)
    ensures AllHonoured(Apply(w, a)) <==> !HidesOrDrops(w, a)
  {
    forall id, evidence ensures Honoured(Apply(w, a), id, evidence) <==>
        !Hides(w, a, id, evidence) && !Drops(w, a, id, evidence) {
      assert Honoured(w, id, evidence);
      StepHonoursIff(w, a, id, evidence);
    }
  }

  lemma StepStoresAllIff(w: World, a: Action)
    requires Inv(w) && AllStored(w)
    ensures AllStored(Apply(w, a)) <==> !DestroysAny(w, a)
  {
    forall id, evidence ensures Stored(Apply(w, a), id, evidence) <==> !Destroys(w, a, id, evidence) {
      assert Stored(w, id, evidence);
      StepStoresIff(w, a, id, evidence);
    }
  }

  /** Over the whole run, what was persisted is always sent next or held. */
  ghost predicate HonouredThroughout(w: World, actions: seq<Action>)
    decreases |actions|
  {
    AllHonoured(w) && (actions != [] ==> HonouredThroughout(Apply(w, actions[0]), actions[1..]))
  }

  ghost predicate NeverHidesOrDrops(w: World, actions: seq<Action>)
    decreases |actions|
  {
    actions != [] ==> !HidesOrDrops(w, actions[0]) && NeverHidesOrDrops(Apply(w, actions[0]), actions[1..])
  }

  /** Over the whole run, what was persisted is always on some disk. */
  ghost predicate StoredThroughout(w: World, actions: seq<Action>)
    decreases |actions|
  {
    AllStored(w) && (actions != [] ==> StoredThroughout(Apply(w, actions[0]), actions[1..]))
  }

  ghost predicate NeverDestroys(w: World, actions: seq<Action>)
    decreases |actions|
  {
    actions != [] ==> !DestroysAny(w, actions[0]) && NeverDestroys(Apply(w, actions[0]), actions[1..])
  }

  lemma {:induction false} HonouredIff(w: World, actions: seq<Action>)
    requires Inv(w) && AllHonoured(w)
    ensures HonouredThroughout(w, actions) <==> NeverHidesOrDrops(w, actions)
    decreases |actions|
  {
    if actions != [] {
      StepInv(w, actions[0]);
      StepHonoursAllIff(w, actions[0]);
      if AllHonoured(Apply(w, actions[0])) {
        HonouredIff(Apply(w, actions[0]), actions[1..]);
      }
    }
  }

  lemma {:induction false} StoredIff(w: World, actions: seq<Action>)
    requires Inv(w) && AllStored(w)
    ensures StoredThroughout(w, actions) <==> NeverDestroys(w, actions)
    decreases |actions|
  {
    if actions != [] {
      StepInv(w, actions[0]);
      StepStoresAllIff(w, actions[0]);
      if AllStored(Apply(w, actions[0])) {
        StoredIff(Apply(w, actions[0]), actions[1..]);
      }
    }
  }

  /**
   * Of whole runs: persisted evidence is sent next or held from beginning to end exactly if no step hides or drops it.
   */
  lemma EvidenceIsHonouredIff(actions: seq<Action>)
    ensures HonouredThroughout(START, actions) <==> NeverHidesOrDrops(START, actions)
  {
    HonouredIff(START, actions);
  }

  /** And it is on some disk from beginning to end exactly if no step forgets the last copy by mistake. */
  lemma EvidenceIsStoredIff(actions: seq<Action>)
    ensures StoredThroughout(START, actions) <==> NeverDestroys(START, actions)
  {
    StoredIff(START, actions);
  }

  /** A second acknowledgement of the first evidence comes after the identifier was used again. */
  function LateAcknowledgement(id: Id, first: Evidence, second: Evidence, at: int): seq<Action> {
    [Persist(id, first, at), Send(id), Receive(Request(id, first, at), None, at), ForgetOutbox(id, first),
     Persist(id, second, at), ForgetOutbox(id, first)]
  }

  /** The world after the third of those steps, with an outbox of its own. */
  function LateWorld(id: Id, first: Evidence, at: int, outbox: map<Id, Occurrence>,
      persisted: set<(Id, Evidence)>): World {
    World(false, outbox, map[], map[id := Fingerprint(first, None)], map[], map[], {Request(id, first, at)},
        {(id, first)},
          persisted, multiset{id})
  }

  lemma LateBegins(id: Id, first: Evidence, second: Evidence, at: int)
    ensures Run(START, LateAcknowledgement(id, first, second, at)[..3]) ==
            LateWorld(id, first, at, map[id := Occurrence(first, at)], {(id, first)})
  {
    var e := LateAcknowledgement(id, first, second, at);
    var w1 := START.(outbox := map[id := Occurrence(first, at)], persisted := {(id, first)});
    assert e[..0] == [];
    RunNext(e, 0);
    assert Apply(START, e[0]) == w1;
    RunNext(e, 1);
    RunNext(e, 2);
    var w2 := w1.(requests := {Request(id, first, at)});
    assert Apply(w1, e[1]) == w2;
    assert Apply(w2, e[2]) == LateWorld(id, first, at, w1.outbox, w1.persisted);
  }

  lemma LateForgets(id: Id, first: Evidence, at: int, kept: Evidence, persisted: set<(Id, Evidence)>)
    ensures Apply(LateWorld(id, first, at, map[id := Occurrence(kept, at)], persisted), ForgetOutbox(id, first)) ==
            LateWorld(id, first, at, map[], persisted)
  {
    assert map[id := Occurrence(kept, at)] - {id} == map[];
  }

  lemma LateUsedAgain(id: Id, first: Evidence, second: Evidence, at: int)
    ensures Apply(LateWorld(id, first, at, map[], {(id, first)}), Persist(id, second, at)) ==
            LateWorld(id, first, at, map[id := Occurrence(second, at)], {(id, first), (id, second)})
  {
  }

  lemma LateEnds(id: Id, first: Evidence, second: Evidence, at: int)
    ensures Run(START, LateAcknowledgement(id, first, second, at)) ==
            LateWorld(id, first, at, map[], {(id, first), (id, second)})
  {
    var e := LateAcknowledgement(id, first, second, at);
    LateBegins(id, first, second, at);
    RunNext(e, 3);
    LateForgets(id, first, at, first, {(id, first)});
    RunNext(e, 4);
    LateUsedAgain(id, first, second, at);
    RunNext(e, 5);
    LateForgets(id, first, at, second, {(id, first), (id, second)});
    assert e[..6] == e;
  }

  /** Without any seal, evidence persisted under a used identifier is gone once an old acknowledgement comes again. */
  lemma LateAcknowledgementLoses(id: Id, first: Evidence, second: Evidence, at: int)
    requires first != second
    ensures var w := Run(START, LateAcknowledgement(id, first, second, at));
            (id, second) in w.persisted && Sendable(w, id).None? && !Holds(w, id, second) && !Stored(w, id, second)
  {
    LateEnds(id, first, second, at);
  }

  // ---- What each answer means ----

  predicate Known(w: World, id: Id) {
    id in w.active || id in w.completed || id in w.rejected
  }

  /** The receipt has this evidence from this kind of authority and principal, or from none if there is none. */
  predicate SameWord(f: Fingerprint, evidence: Evidence, authority: Option<Authority>) {
    && f.evidence == evidence
    && (f.who.None? <==> authority.None?)
    && (f.who.Some? && authority.Some? ==>
          f.who.value.0 == authority.value.operator && f.who.value.1 == authority.value.principal)
  }

  /** Every copy of the receipt does. */
  predicate Confirms(w: World, id: Id, evidence: Evidence, authority: Option<Authority>) {
    && (id in w.active ==> SameWord(w.active[id], evidence, authority))
    && (id in w.completed ==> SameWord(w.completed[id], evidence, authority))
    && (id in w.rejected ==> SameWord(w.rejected[id], evidence, authority))
  }

  /** No deferred record of that name is about anything else; here the time of authentication counts as well. */
  predicate Joins(w: World, id: Id, evidence: Evidence, authority: Option<Authority>) {
    var n := Name(Receiver, id);
    n in w.journal ==> w.journal[n].evidence == evidence && w.journal[n].authority == authority
  }

  predicate NoneDeferred(w: World) {
    forall n :: n in w.journal ==> n.kind != Receiver
  }

  lemma MarkIff(known: Fingerprint, evidence: Evidence, authority: Option<Authority>)
    ensures known == Fingerprint(evidence, Who(authority)) <==> SameWord(known, evidence, authority)
  {
  }

  /**
   * A caller is told that its request is accepted exactly if what is known under that identifier, or deferred while the
   * storage is sealed, is the same evidence under the same authority, or there is nothing; and never while an open
   * storage has yet to be reconciled.
   */
  lemma AnsweredIff(w: World, r: Request, authority: Option<Authority>, receivedAt: int)
    requires Inv(w)
    ensures Accept(w, r, authority, receivedAt).1 <==>
              && (Known(w, r.id) ==> Confirms(w, r.id, r.evidence, authority))
              && (if w.sealed then Known(w, r.id) || Joins(w, r.id, r.evidence, authority) else NoneDeferred(w))
  {
    assert Agree(w, r.id);
    var known := Existing(w, r.id);
    if known.Some? {
      MarkIff(known.value, r.evidence, authority);
    }
  }

  /** The world after the request that is answered so. */
  lemma ReceivedExactly(w: World, r: Request, authority: Option<Authority>, receivedAt: int)
    requires Inv(w) && r in w.requests
    ensures var t, n := Apply(w, Receive(r, authority, receivedAt)), Name(Receiver, r.id);
            var told := w.(acks := w.acks + {(r.id, r.evidence)});
            if Known(w, r.id) then
              t == if Confirms(w, r.id, r.evidence, authority) && (w.sealed || NoneDeferred(w)) then told else w
            else if w.sealed then
              var record := Record(Receiver, r.id, r.evidence, authority, r.at, receivedAt);
              t == if !Joins(w, r.id, r.evidence, authority) then w
                   else if n in w.journal then told
                   else told.(journal := w.journal[n := record])
            else if NoneDeferred(w) then
              var who := if authority.Some? then Some((authority.value.operator, authority.value.principal)) else None;
              t == told.(active := w.active[r.id := Fingerprint(r.evidence, who)],
                         created := w.created + multiset{r.id})
            else t == w
  {
    AnsweredIff(w, r, authority, receivedAt);
    assert Agree(w, r.id);
  }

  /** Persisting is refused exactly for an identifier that has other evidence where it looks. */
  lemma PersistedIff(w: World, id: Id, evidence: Evidence, at: int)
    requires Inv(w)
    ensures var t, n := Apply(w, Persist(id, evidence, at)), Name(Sender, id);
            var accepted :=
              && (n in w.journal ==> w.journal[n].evidence == evidence && (w.sealed ==> w.journal[n].authority == None))
              && (!w.sealed && id in w.outbox ==> w.outbox[id].evidence == evidence);
            && (!accepted ==> t == w)
            && (accepted ==> t.persisted == w.persisted + {(id, evidence)})
            && (accepted && w.sealed ==>
                  && t.outbox == w.outbox && n in t.journal
                  && (n !in w.journal ==>
                        t.journal == w.journal[n := Record(Sender, id, evidence, None, at, t.journal[n].receivedAt)])
                  && (n in w.journal ==> t.journal == w.journal))
            && (accepted && !w.sealed ==>
                  && t.journal == w.journal
                  && t.outbox == (if id in w.outbox then w.outbox
                                  else
                                    var first := if n in w.journal then w.journal[n].occurredAt else at;
                                    w.outbox[id := Occurrence(evidence, first)]))
  {
  }

  /** What is sent comes from the outbox, and from the journal only if the outbox has nothing under the identifier. */
  lemma SentExactly(w: World, id: Id)
    ensures var n := Name(Sender, id);
            Apply(w, Send(id)) ==
              w.(requests := w.requests +
                   (if id in w.outbox then {Request(id, w.outbox[id].evidence, w.outbox[id].at)}
                    else if n in w.journal then {Request(id, w.journal[n].evidence, w.journal[n].occurredAt)}
                    else {}))
    ensures forall r: Request :: Apply(w, Post(r)) == w.(requests := w.requests + {r})
  {
  }

  /** What was to be sent for an identifier is still sent just so, with its first time. */
  lemma FirstOccurrenceIsSent(w: World, id: Id, evidence: Evidence, at: int)
    requires Inv(w)
    ensures var t, n := Apply(w, Persist(id, evidence, at)), Name(Sender, id);
            var request := if id in w.outbox then Request(id, w.outbox[id].evidence, w.outbox[id].at)
                           else if n in w.journal then Request(id, w.journal[n].evidence, w.journal[n].occurredAt)
                           else Request(id, evidence, at);
            Apply(t, Send(id)) == t.(requests := t.requests + {request})
  {
    PersistedIff(w, id, evidence, at);
    SentExactly(Apply(w, Persist(id, evidence, at)), id);
  }

  /** The relay sends, the receiver answers, and the relay forgets what was acknowledged. */
  function RoundTrip(id: Id, o: Occurrence, authority: Option<Authority>, receivedAt: int): seq<Action> {
    [Send(id), Receive(Request(id, o.evidence, o.at), authority, receivedAt), ForgetOutbox(id, o.evidence),
     ForgetJournal(id, o.evidence)]
  }

  lemma RunTwo(w: World, a: Action, b: Action)
    ensures Run(w, [a, b]) == Apply(Apply(w, a), b)
  {
    assert [a] + [b] == [a, b] && [] + [a] == [a];
    RunSnoc(w, [], a);
    RunSnoc(w, [a], b);
  }

  lemma RunFour(w: World, a: Action, b: Action, c: Action, d: Action)
    ensures Run(w, [a, b, c, d]) == Apply(Apply(Apply(Apply(w, a), b), c), d)
  {
    assert [a, b] + [c] == [a, b, c] && [a, b, c] + [d] == [a, b, c, d];
    RunTwo(w, a, b);
    RunSnoc(w, [a, b], c);
    RunSnoc(w, [a, b, c], d);
  }

  /** Forgetting both copies takes an acknowledgement of just this evidence. */
  lemma ForgottenIff(w: World, id: Id, evidence: Evidence)
    requires !w.sealed
    ensures Apply(Apply(w, ForgetOutbox(id, evidence)), ForgetJournal(id, evidence)) ==
              if (id, evidence) in w.acks then
                w.(outbox := w.outbox - {id}, journal := w.journal - {Name(Sender, id)})
              else w
  {
  }

  /**
   * With open storage a file of the outbox is delivered at once exactly unless its identifier has a receipt of other
   * evidence or authority, and it is forgotten exactly if it is delivered or was acknowledged before.
   */
  lemma RoundTripDeliversIff(w: World, id: Id, authority: Option<Authority>, receivedAt: int)
    requires Inv(w) && !w.sealed && NoneDeferred(w) && id in w.outbox
    ensures var o := w.outbox[id];
            var t := Run(w, RoundTrip(id, o, authority, receivedAt));
            var delivered := !Known(w, id) || Confirms(w, id, o.evidence, authority);
            && t.acks == w.acks + (if delivered then {(id, o.evidence)} else {})
            && (delivered ==> Known(t, id) && Confirms(t, id, o.evidence, authority))
            && (!Known(w, id) ==> id in t.active)
            && (if delivered || (id, o.evidence) in w.acks then
                  t.outbox == w.outbox - {id} && t.journal == w.journal - {Name(Sender, id)}
                else t.outbox == w.outbox && t.journal == w.journal)
  {
    var o := w.outbox[id];
    var r := Request(id, o.evidence, o.at);
    SentExactly(w, id);
    var sent := Apply(w, Send(id));
    StepInv(w, Send(id));
    ReceivedExactly(sent, r, authority, receivedAt);
    var answered := Apply(sent, Receive(r, authority, receivedAt));
    assert !answered.sealed && answered.outbox == w.outbox && answered.journal == w.journal;
    ForgottenIff(answered, id, o.evidence);
    RunFour(w, Send(id), Receive(r, authority, receivedAt), ForgetOutbox(id, o.evidence),
            ForgetJournal(id, o.evidence));
  }

  /** Reconciling leaves nothing deferred of the identifier but a receipt with just its evidence and authority. */
  lemma DeferredBecomesReceipt(w: World, id: Id)
    requires Inv(w) && !w.sealed && Name(Receiver, id) in w.journal
    ensures var n := Name(Receiver, id);
            var t := Run(w, [ReconcileAccept(id), ReconcileAcknowledge(id)]);
            && t == w.(journal := w.journal - {n}, active := t.active, created := t.created)
            && Known(t, id) && Confirms(t, id, w.journal[n].evidence, w.journal[n].authority)
            && t.created[id] == 1
            && (Known(w, id) ==> t.active == w.active)
            && (!Known(w, id) ==> id in t.active && t.active == w.active[id := t.active[id]])
  {
    assert Agree(w, id);
    var kept := w.journal[Name(Receiver, id)];
    var accepted := Apply(w, ReconcileAccept(id));
    StepKeeps(w, ReconcileAccept(id), id);
    MarkIff(PrintOf(kept), kept.evidence, kept.authority);
    RunTwo(w, ReconcileAccept(id), ReconcileAcknowledge(id));
  }

  /** Finishing or rejecting a receipt moves it out of the active ones, as it is. */
  lemma SettlingMoves(w: World, id: Id)
    requires id in w.active
    ensures Run(w, [CompleteWrite(id), CompleteUnlink(id)]) ==
              w.(active := w.active - {id}, completed := w.completed[id := w.active[id]])
    ensures Run(w, [RejectWrite(id), RejectUnlink(id)]) ==
              w.(active := w.active - {id}, rejected := w.rejected[id := w.active[id]])
  {
    RunTwo(w, CompleteWrite(id), CompleteUnlink(id));
    RunTwo(w, RejectWrite(id), RejectUnlink(id));
  }

  // ---- Deferred decisions ----

  /**
   * Sending a deferred decision again is acknowledged, while the seal lasts, exactly if its authority is the same
   * down to the time it was authenticated; a refusal leaves everything in place.
   */
  lemma RetryUnderSealIff(w: World, r: Request, authority: Option<Authority>, receivedAt: int)
    requires Inv(w) && w.sealed && Existing(w, r.id).None? && Name(Receiver, r.id) in w.journal
    ensures var (t, ok) := Accept(w, r, authority, receivedAt);
            var kept := w.journal[Name(Receiver, r.id)];
            t == w && (ok <==> kept.evidence == r.evidence && kept.authority == authority)
  {
  }

  /** Once the storage is open and the record reconciled, the kind of authority and its principal are enough. */
  lemma RetryAfterSealIff(w: World, r: Request, authority: Option<Authority>, receivedAt: int)
    requires Inv(w) && !w.sealed && Existing(w, r.id).None? && Name(Receiver, r.id) in w.journal
    requires forall n :: n in w.journal && n.kind == Receiver ==> n.id == r.id
    ensures var kept := w.journal[Name(Receiver, r.id)];
            var reconciled := Run(w, [ReconcileAccept(r.id), ReconcileAcknowledge(r.id)]);
            && Reconciled(reconciled)
            && (Accept(reconciled, r, authority, receivedAt).1 <==>
                  kept.evidence == r.evidence && Who(kept.authority) == Who(authority))
  {
    var kept := w.journal[Name(Receiver, r.id)];
    var accepted := Apply(w, ReconcileAccept(r.id));
    assert Existing(accepted, r.id) == Some(PrintOf(kept));
    var reconciled := Apply(accepted, ReconcileAcknowledge(r.id));
    assert Run(accepted, [ReconcileAcknowledge(r.id)]) == reconciled;
    forall n | n in reconciled.journal ensures n.kind == Sender {
      assert n != Name(Receiver, r.id);
    }
  }
}
