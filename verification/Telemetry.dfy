/** Feedback batches that several browser tabs deliver from one store. */
module Telemetry {
  // Tabs hand each other rows through expiring claims, and retry, refuse or exhaust what cannot be delivered.

  import opened Wrappers

  type Owner(==, !new)
  type Partition(==, !new)
  type StampId(==, !new)
  type Body(==, !new)

  datatype Key = Key(partition: Partition, stamp: StampId)
  datatype Batch = Batch(body: Body, items: nat, bytes: nat, t: int)
  datatype State = Pending | Retry | Denied | Exhausted
  datatype Claim = Claim(owner: Owner, until: nat)
  datatype Row = Row(batch: Batch, state: State, attempts: nat, nextAt: nat, claim: Option<Claim>)
  datatype Limits = Limits(maxBatches: int, maxAttempts: int)
  datatype EnqueueError = WrongItemCount | TooLarge | Reused | Full

  const LEASE := 60_000
  const BATCH_BYTES := 128 * 1024
  const STORE_BYTES := 8 * 1024 * 1024

  type Rows = map<Key, Row>

  /** A delivery under way: the claimed row as the tab remembers it. */
  datatype Flight = Flight(key: Key, batch: Batch, until: nat, delivered: bool)

  /** How a delivery failed, as far as the tab looks at it. */
  datatype Setback = Setback(aborted: bool, status: Option<int>, terminal: bool, retryAfter: int)

  // ---- One store transaction each ----

  predicate Live(row: Row) {
    row.state == Pending || row.state == Retry
  }

  predicate Unleased(row: Row, now: nat) {
    row.claim.None? || row.claim.value.until <= now
  }

  predicate Due(rows: Rows, partition: Partition, now: nat, key: Key) {
    key in rows && key.partition == partition && Live(rows[key]) && rows[key].nextAt <= now && Unleased(rows[key], now)
  }

  /** A row the next claim may take: due, and none that is due has an earlier stamp. */
  predicate Next(rows: Rows, partition: Partition, now: nat, key: Key) {
    Due(rows, partition, now, key) && forall k :: k in rows && Due(rows, partition, now, k) ==>
        rows[key].batch.t <= rows[k].batch.t
  }

  predicate Stuck(rows: Rows, partition: Partition, now: nat, key: Key) {
    key in rows && key.partition == partition && !Live(rows[key]) && Unleased(rows[key], now)
  }

  ghost function Bytes(rows: Rows): nat
    decreases |rows|
  {
    if rows == map[] then 0
    else
      var key :| key in rows;
      rows[key].batch.bytes + Bytes(rows - {key})
  }

  ghost function Enqueued(limits: Limits, rows: Rows, key: Key, batch: Batch): Result<Rows, EnqueueError> {
    if batch.items < 1 || batch.items > 100 then Failure(WrongItemCount)
    else if batch.bytes > BATCH_BYTES then Failure(TooLarge)
    else if key in rows then (if rows[key].batch == batch then Success(rows) else Failure(Reused))
    else if |rows| >= limits.maxBatches || Bytes(rows) + batch.bytes > STORE_BYTES then Failure(Full)
    else Success(rows[key := Row(batch, Pending, 0, 0, None)])
  }

  function Pow2(n: nat): (p: nat)
    ensures p >= 1
  {
    if n == 0 then 1 else 2 * Pow2(n - 1)
  }

  function Delay(attempts: nat, retryAfter: int): nat {
    var backoff := 1_000 * Pow2(if attempts < 8 then attempts else 8);
    var wanted := if retryAfter > backoff then retryAfter else backoff;
    if wanted < 300_000 then wanted else 300_000
  }

  predicate IsTerminal(f: Setback) {
    f.terminal || (f.status.Some? && 400 <= f.status.value < 500 && f.status.value != 408 && f.status.value != 429)
  }

  predicate IsDenied(f: Setback) {
    f.status == Some(401) || f.status == Some(403) || f.status == Some(404)
  }

  function Failed(limits: Limits, row: Row, f: Setback, now: nat): Row {
    if f.aborted then row.(nextAt := now + 5_000, claim := None)
    else
      var attempts := row.attempts + 1;
      var state :=
        if IsDenied(f) then Denied
        else if IsTerminal(f) || attempts >= limits.maxAttempts then Exhausted
        else Retry;
      Row(row.batch, state, attempts, now + Delay(attempts, f.retryAfter), None)
  }

  /** Is the claim the tab works under still the one the row records? */
  predicate Holds(rows: Rows, owner: Owner, flight: Flight) {
    flight.key in rows && rows[flight.key].claim == Some(Claim(owner, flight.until))
  }

  function Settled(limits: Limits, rows: Rows, owner: Owner, flight: Flight, f: Setback, now: nat): Rows {
    if !Holds(rows, owner, flight) then rows
    else if flight.delivered then rows - {flight.key}
    else rows[flight.key := Failed(limits, rows[flight.key], f, now)]
  }

  function Repaired(rows: Rows, partition: Partition, clear: bool, now: nat): Rows {
    if clear then map k | k in rows && !Stuck(rows, partition, now, k) :: rows[k]
    else
      map k | k in rows ::
        if Stuck(rows, partition, now, k) then rows[k].(state := Pending, attempts := 0, nextAt := 0) else rows[k]
  }

  // ---- Runs ----

  type Entry = (Key, Batch)

  /** The store, the clock, the tabs with a delivery under way, and what has happened to batches so far. */
  datatype World = World(rows: Rows, clock: nat, tabs: map<Owner, Flight>,
                         accepted: set<Entry>, delivered: set<Entry>, cleared: set<Entry>)

  datatype Action =
    | Tick(elapsed: nat)
    | Enqueue(key: Key, batch: Batch)
    | Take(owner: Owner, partition: Partition, key: Key, elapsed: nat)
    | Deliver(owner: Owner)
    | Settle(owner: Owner, failure: Setback)
    | Repair(partition: Partition, clear: bool)
    | Crash(owner: Owner)

  const EMPTY := World(map[], 0, map[], {}, {}, {})

  /** Claiming reads the clock twice: to choose a row, and to date the claim. */
  function Taken(w: World, owner: Owner, partition: Partition, key: Key, elapsed: nat): World {
    if owner in w.tabs || !Next(w.rows, partition, w.clock, key) then w
    else
      var until := w.clock + elapsed + LEASE;
      w.(clock := w.clock + elapsed,
         rows := w.rows[key := w.rows[key].(claim := Some(Claim(owner, until)))],
         tabs := w.tabs[owner := Flight(key, w.rows[key].batch, until, false)])
  }

  ghost function Apply(limits: Limits, w: World, a: Action): World {
    match a
    case Tick(elapsed) => w.(clock := w.clock + elapsed)
    case Enqueue(key, batch) =>
      var r := Enqueued(limits, w.rows, key, batch);
      if r.Success? then w.(rows := r.value, accepted := w.accepted + {(key, batch)}) else w
    case Take(owner, partition, key, elapsed) => Taken(w, owner, partition, key, elapsed)
    case Deliver(owner) =>
      if owner !in w.tabs then w
      else
        var flight := w.tabs[owner];
        w.(tabs := w.tabs[owner := flight.(delivered := true)], delivered := w.delivered + {(flight.key, flight.batch)})
    case Settle(owner, failure) =>
      if owner !in w.tabs then w
      else w.(rows := Settled(limits, w.rows, owner, w.tabs[owner], failure, w.clock), tabs := w.tabs - {owner})
    case Repair(partition, clear) =>
      w.(rows := Repaired(w.rows, partition, clear, w.clock),
         cleared := w.cleared +
             (set k | k in w.rows && clear && Stuck(w.rows, partition, w.clock, k) :: (k, w.rows[k].batch)))
    case Crash(owner) => w.(tabs := w.tabs - {owner})
  }

  ghost function Run(limits: Limits, w: World, actions: seq<Action>): World
    decreases |actions|
  {
    if actions == [] then w else Run(limits, Apply(limits, w, actions[0]), actions[1..])
  }

  // ---- Claims ----

  /** An unexpired claim is the one its row records; a recorded claim is on the batch that is being delivered. */
  ghost predicate ClaimOk(w: World, owner: Owner) {
    owner in w.tabs ==>
      var flight := w.tabs[owner];
      && (w.clock < flight.until ==> Holds(w.rows, owner, flight))
      && (Holds(w.rows, owner, flight) ==> w.rows[flight.key].batch == flight.batch)
      && (flight.delivered ==> (flight.key, flight.batch) in w.delivered)
  }

  ghost predicate RowOk(limits: Limits, w: World, key: Key) {
    key in w.rows ==>
      var row := w.rows[key];
      && 1 <= row.batch.items <= 100 && row.batch.bytes <= BATCH_BYTES
      && (Live(row) ==> row.attempts == 0 || row.attempts < limits.maxAttempts)
      && (row.claim.Some? ==> Live(row) && row.nextAt <= w.clock)
      && (key, row.batch) in w.accepted
  }

  ghost predicate Accounted(w: World, e: Entry) {
    e in w.accepted ==> (e.0 in w.rows && w.rows[e.0].batch == e.1) || e in w.delivered || e in w.cleared
  }

  ghost predicate Inv(limits: Limits, w: World) {
    && (forall o :: o in w.tabs ==> ClaimOk(w, o))
    && (forall k :: k in w.rows ==> RowOk(limits, w, k))
    && (forall e :: e in w.accepted ==> Accounted(w, e))
    && |w.rows| <= (if limits.maxBatches < 0 then 0 else limits.maxBatches)
    && Bytes(w.rows) <= STORE_BYTES
  }

  // ---- Sizes ----

  lemma {:induction false} BytesWithout(rows: Rows, key: Key)
    requires key in rows
    ensures Bytes(rows) == rows[key].batch.bytes + Bytes(rows - {key})
    decreases |rows|
  {
    var first :| first in rows && Bytes(rows) == rows[first].batch.bytes + Bytes(rows - {first});
    if first != key {
      BytesWithout(rows - {first}, key);
      BytesWithout(rows - {key}, first);
      assert rows - {first} - {key} == rows - {key} - {first};
    }
  }

  lemma {:induction false} Shrinks(small: Rows, rows: Rows)
    requires forall k :: k in small ==> k in rows && small[k].batch == rows[k].batch
    ensures |small| <= |rows| && Bytes(small) <= Bytes(rows)
    decreases |small|
  {
    if small != map[] {
      var k :| k in small;
      Shrinks(small - {k}, rows - {k});
      BytesWithout(small, k);
      BytesWithout(rows, k);
      assert |small - {k}| == |small| - 1 && |rows - {k}| == |rows| - 1;
    }
  }

  lemma Grows(rows: Rows, key: Key, row: Row)
    requires key !in rows
    ensures |rows[key := row]| == |rows| + 1 && Bytes(rows[key := row]) == Bytes(rows) + row.batch.bytes
  {
    BytesWithout(rows[key := row], key);
    assert rows[key := row] - {key} == rows;
  }

  /** Accepting a batch that is stored already. */
  lemma AgainInv(limits: Limits, w: World, key: Key)
    requires Inv(limits, w) && key in w.rows
    ensures Inv(limits, w.(accepted := w.accepted + {(key, w.rows[key].batch)}))
  {
    var t := w.(accepted := w.accepted + {(key, w.rows[key].batch)});
    forall o | o in t.tabs ensures ClaimOk(t, o) { assert ClaimOk(w, o); }
    forall k | k in t.rows ensures RowOk(limits, t, k) { assert RowOk(limits, w, k); }
    forall e | e in t.accepted ensures Accounted(t, e) { assert Accounted(w, e); }
  }

  lemma NewRowInv(limits: Limits, w: World, key: Key, row: Row, t: World)
    requires Inv(limits, w) && key !in w.rows && row == Row(row.batch, Pending, 0, 0, None)
    requires t == w.(rows := w.rows[key := row], accepted := w.accepted + {(key, row.batch)})
    requires 1 <= row.batch.items <= 100 && row.batch.bytes <= BATCH_BYTES
    requires |w.rows| < limits.maxBatches && Bytes(w.rows) + row.batch.bytes <= STORE_BYTES
    ensures Inv(limits, t)
  {
    Grows(w.rows, key, row);
    forall o | o in t.tabs ensures ClaimOk(t, o) { NewRowClaims(w, key, row, t, o); }
    forall k | k in t.rows ensures RowOk(limits, t, k) { NewRowRows(limits, w, key, row, t, k); }
    forall e | e in t.accepted ensures Accounted(t, e) { NewRowAccounted(w, key, row, t, e); }
  }

  lemma NewRowClaims(w: World, key: Key, row: Row, t: World, o: Owner)
    requires key !in w.rows && row.claim.None? &&
             t == w.(rows := w.rows[key := row], accepted := w.accepted + {(key, row.batch)})
    requires o in w.tabs ==> ClaimOk(w, o)
    ensures ClaimOk(t, o)
  {
  }

  lemma NewRowRows(limits: Limits, w: World, key: Key, row: Row, t: World, k: Key)
    requires row == Row(row.batch, Pending, 0, 0, None) && 1 <= row.batch.items <= 100 && row.batch.bytes <= BATCH_BYTES
    requires t == w.(rows := w.rows[key := row], accepted := w.accepted + {(key, row.batch)})
    requires k in w.rows ==> RowOk(limits, w, k)
    ensures RowOk(limits, t, k)
  {
  }

  lemma NewRowAccounted(w: World, key: Key, row: Row, t: World, e: Entry)
    requires key !in w.rows && t == w.(rows := w.rows[key := row], accepted := w.accepted + {(key, row.batch)})
    requires e in w.accepted ==> Accounted(w, e)
    ensures Accounted(t, e)
  {
  }

  lemma EnqueueInv(limits: Limits, w: World, key: Key, batch: Batch)
    requires Inv(limits, w)
    ensures Inv(limits, Apply(limits, w, Enqueue(key, batch)))
  {
    if Enqueued(limits, w.rows, key, batch).Success? {
      if key in w.rows {
        AgainInv(limits, w, key);
      } else {
        NewRowInv(limits, w, key, Row(batch, Pending, 0, 0, None), Apply(limits, w, Enqueue(key, batch)));
      }
    }
  }

  /** Transactions that touch rows without adding any and without replacing a batch. */
  lemma SameBatchesInv(limits: Limits, w: World, t: World)
    requires Inv(limits, w)
    requires t.accepted == w.accepted && w.delivered <= t.delivered && w.cleared <= t.cleared
    requires forall k :: k in t.rows ==> k in w.rows && t.rows[k].batch == w.rows[k].batch
    requires forall k :: k in w.rows && k !in t.rows ==> (k, w.rows[k].batch) in t.delivered + t.cleared
    requires forall o :: o in t.tabs ==> ClaimOk(t, o)
    requires forall k :: k in t.rows ==> RowOk(limits, t, k)
    ensures Inv(limits, t)
  {
    Shrinks(t.rows, w.rows);
    forall e | e in t.accepted ensures Accounted(t, e) { assert Accounted(w, e); }
  }

  lemma TakeInv(limits: Limits, w: World, a: Action)
    requires Inv(limits, w) && a.Take?
    ensures Inv(limits, Apply(limits, w, a))
  {
    var t := Apply(limits, w, a);
    if t != w {
      assert RowOk(limits, w, a.key);
      forall o | o in t.tabs ensures ClaimOk(t, o) { assert o in w.tabs ==> ClaimOk(w, o); }
      forall k | k in t.rows ensures RowOk(limits, t, k) { assert RowOk(limits, w, k); }
      SameBatchesInv(limits, w, t);
    }
  }

  lemma SettleClaims(limits: Limits, w: World, a: Action, o: Owner)
    requires a.Settle? && a.owner in w.tabs && o in w.tabs && o != a.owner && ClaimOk(w, o)
    ensures ClaimOk(Apply(limits, w, a), o)
  {
    var flight := w.tabs[o];
    var rows := Apply(limits, w, a).rows;
    if Holds(w.rows, o, flight) {
      assert Holds(rows, o, flight) && rows[flight.key] == w.rows[flight.key];
    } else {
      assert !Holds(rows, o, flight);
    }
  }

  lemma SettleRows(limits: Limits, w: World, a: Action, k: Key)
    requires a.Settle? && a.owner in w.tabs && RowOk(limits, w, k) && k in Apply(limits, w, a).rows
    ensures k in w.rows && Apply(limits, w, a).rows[k].batch == w.rows[k].batch && RowOk(limits, Apply(limits, w, a), k)
  {
  }

  lemma SettleInv(limits: Limits, w: World, a: Action)
    requires Inv(limits, w) && a.Settle?
    ensures Inv(limits, Apply(limits, w, a))
  {
    if a.owner in w.tabs {
      var t := Apply(limits, w, a);
      assert ClaimOk(w, a.owner);
      forall o | o in t.tabs ensures ClaimOk(t, o) { SettleClaims(limits, w, a, o); }
      forall k | k in t.rows ensures k in w.rows && t.rows[k].batch == w.rows[k].batch && RowOk(limits, t, k) {
        assert k in w.rows;
        assert RowOk(limits, w, k);
        SettleRows(limits, w, a, k);
      }
      SameBatchesInv(limits, w, t);
    }
  }

  lemma RepairInv(limits: Limits, w: World, a: Action)
    requires Inv(limits, w) && a.Repair?
    ensures Inv(limits, Apply(limits, w, a))
  {
    var t := Apply(limits, w, a);
    forall k | k in t.rows ensures RowOk(limits, t, k) { assert RowOk(limits, w, k); }
    forall o | o in t.tabs ensures ClaimOk(t, o) {
      assert ClaimOk(w, o);
      assert w.tabs[o].key in w.rows ==> RowOk(limits, w, w.tabs[o].key);
    }
    SameBatchesInv(limits, w, t);
  }

  lemma StepInv(limits: Limits, w: World, a: Action)
    requires Inv(limits, w)
    ensures Inv(limits, Apply(limits, w, a))
  {
    match a
    case Enqueue(key, batch) => EnqueueInv(limits, w, key, batch);
    case Take(_, _, _, _) => TakeInv(limits, w, a);
    case Settle(_, _) => SettleInv(limits, w, a);
    case Repair(_, _) => RepairInv(limits, w, a);
    case _ => SameRowsInv(limits, w, a);
  }

  lemma SameRowsInv(limits: Limits, w: World, a: Action)
    requires Inv(limits, w) && (a.Tick? || a.Deliver? || a.Crash?)
    ensures Inv(limits, Apply(limits, w, a))
  {
    var t := Apply(limits, w, a);
    forall o | o in t.tabs ensures ClaimOk(t, o) { assert ClaimOk(w, o); }
    forall k | k in t.rows ensures RowOk(limits, t, k) { assert RowOk(limits, w, k); }
    SameBatchesInv(limits, w, t);
  }

  lemma {:induction false} RunInv(limits: Limits, w: World, actions: seq<Action>)
    requires Inv(limits, w)
    ensures Inv(limits, Run(limits, w, actions))
    decreases |actions|
  {
    if actions != [] {
      StepInv(limits, w, actions[0]);
      RunInv(limits, Apply(limits, w, actions[0]), actions[1..]);
    }
  }

  lemma EmptyInv(limits: Limits)
    ensures Inv(limits, EMPTY)
  {
  }

  // ---- Main results, over every run of any number of tabs ----

  /** No two tabs work on one row under claims that have not expired. */
  lemma ClaimsAreExclusive(limits: Limits, actions: seq<Action>, a: Owner, b: Owner)
    ensures var w := Run(limits, EMPTY, actions);
            (a in w.tabs && b in w.tabs && w.tabs[a].key == w.tabs[b].key &&
             w.clock < w.tabs[a].until && w.clock < w.tabs[b].until) ==> a == b
  {
    EmptyInv(limits);
    RunInv(limits, EMPTY, actions);
    var w := Run(limits, EMPTY, actions);
    if a in w.tabs && b in w.tabs {
      assert ClaimOk(w, a) && ClaimOk(w, b);
    }
  }

  /** Every accepted batch is still stored unchanged, or was delivered, or was cleared by an operator. */
  lemma NothingIsLost(limits: Limits, actions: seq<Action>, e: Entry)
    requires e in Run(limits, EMPTY, actions).accepted
    ensures var w := Run(limits, EMPTY, actions);
            (e.0 in w.rows && w.rows[e.0].batch == e.1) || e in w.delivered || e in w.cleared
  {
    EmptyInv(limits);
    RunInv(limits, EMPTY, actions);
    assert Accounted(Run(limits, EMPTY, actions), e);
  }

  /** Row, byte and attempt limits hold at every moment. */
  lemma LimitsHold(limits: Limits, actions: seq<Action>)
    ensures var w := Run(limits, EMPTY, actions);
            && |w.rows| <= (if limits.maxBatches < 0 then 0 else limits.maxBatches)
            && Bytes(w.rows) <= STORE_BYTES
            && forall k :: k in w.rows ==>
                 && 1 <= w.rows[k].batch.items <= 100 && w.rows[k].batch.bytes <= BATCH_BYTES
                 && (w.rows[k].state == Pending || w.rows[k].state == Retry ==>
                       w.rows[k].attempts == 0 || w.rows[k].attempts < limits.maxAttempts)
  {
    EmptyInv(limits);
    RunInv(limits, EMPTY, actions);
    var w := Run(limits, EMPTY, actions);
    forall k | k in w.rows
      ensures 1 <= w.rows[k].batch.items <= 100 && w.rows[k].batch.bytes <= BATCH_BYTES
      ensures Live(w.rows[k]) ==> w.rows[k].attempts == 0 || w.rows[k].attempts < limits.maxAttempts
    {
      assert RowOk(limits, w, k);
    }
  }

  /** A row disappears only when its recorded claimant settles a delivery of its batch, or an operator clears it. */
  lemma RowsVanishOnlyBy(limits: Limits, actions: seq<Action>, a: Action, key: Key)
    ensures var w := Run(limits, EMPTY, actions);
            key in w.rows && key !in Apply(limits, w, a).rows ==>
              || (&& a.Settle? && a.owner in w.tabs && w.tabs[a.owner].key == key
                  && w.rows[key].claim == Some(Claim(a.owner, w.tabs[a.owner].until))
                  && (key, w.rows[key].batch) in w.delivered)
              || (a.Repair? && a.clear && key.partition == a.partition && w.rows[key].state in {Denied, Exhausted} &&
                    w.rows[key].claim.None?)
  {
    EmptyInv(limits);
    RunInv(limits, EMPTY, actions);
    var w := Run(limits, EMPTY, actions);
    if key in w.rows && key !in Apply(limits, w, a).rows {
      assert RowOk(limits, w, key);
      if a.Settle? {
        assert ClaimOk(w, a.owner);
      }
    }
  }

  // ---- Superseded tabs ----

  /** The tab still works under a claim that its row no longer records. */
  ghost predicate Superseded(w: World, owner: Owner) {
    owner in w.tabs && !Holds(w.rows, owner, w.tabs[owner])
  }

  predicate EndsWork(a: Action, owner: Owner) {
    (a.Settle? || a.Crash?) && a.owner == owner
  }

  lemma SupersededStep(limits: Limits, w: World, a: Action, owner: Owner)
    requires Superseded(w, owner) && !EndsWork(a, owner)
    ensures Superseded(Apply(limits, w, a), owner)
  {
    var flight := w.tabs[owner];
    var t := Apply(limits, w, a);
    assert owner in t.tabs && t.tabs[owner].key == flight.key && t.tabs[owner].until == flight.until;
  }

  /** Once superseded, a tab stays so through every run, and what it settles at last changes no row. */
  lemma {:induction false} SupersededTabChangesNothing(limits: Limits, w: World, actions: seq<Action>, owner: Owner,
      failure: Setback)
    requires Superseded(w, owner)
    requires forall a :: a in actions ==> !EndsWork(a, owner)
    ensures var t := Run(limits, w, actions);
            owner in t.tabs && Apply(limits, t, Settle(owner, failure)).rows == t.rows
    decreases |actions|
  {
    if actions != [] {
      SupersededStep(limits, w, actions[0], owner);
      SupersededTabChangesNothing(limits, Apply(limits, w, actions[0]), actions[1..], owner, failure);
    }
  }

  /** While a delivery is out, another tab can take its row exactly from the moment the claim expires. */
  lemma RetakenIffExpired(limits: Limits, actions: seq<Action>, owner: Owner)
    requires Superseded(Run(limits, EMPTY, actions), owner) == false
    requires owner in Run(limits, EMPTY, actions).tabs
    ensures var w := Run(limits, EMPTY, actions);
            var flight := w.tabs[owner];
            Due(w.rows, flight.key.partition, w.clock, flight.key) <==> flight.until <= w.clock
  {
    EmptyInv(limits);
    RunInv(limits, EMPTY, actions);
    var w := Run(limits, EMPTY, actions);
    assert RowOk(limits, w, w.tabs[owner].key);
  }

  /** Work and repairs for one account leave every other account's rows alone. */
  lemma OtherAccountsUntouched(limits: Limits, w: World, a: Action, key: Key)
    requires (a.Take? || a.Repair?) && a.partition != key.partition
    ensures var t := Apply(limits, w, a);
              (key in t.rows <==> key in w.rows) && (key in w.rows ==> t.rows[key] == w.rows[key])
  {
  }

  lemma {:induction false} Pow2Grows(n: nat, m: nat)
    requires n <= m
    ensures 1 <= Pow2(n) <= Pow2(m)
    decreases m - n
  {
    if n < m {
      Pow2Grows(n, m - 1);
    }
  }

  /**
   * The wait after a failure lies between two seconds and five minutes, never shrinks as failures add up, and honours
   * the server's.
   */
  lemma DelayBounds(attempts: nat, more: nat, retryAfter: int)
    requires 1 <= attempts <= more
    ensures 2_000 <= Delay(attempts, retryAfter) <= Delay(more, retryAfter) <= 300_000
    ensures retryAfter <= 300_000 ==> retryAfter <= Delay(attempts, retryAfter)
  {
    var n, m := if attempts < 8 then attempts else 8, if more < 8 then more else 8;
    Pow2Grows(n, m);
    Pow2Grows(1, n);
    assert Pow2(1) == 2 by { assert Pow2(0) == 1; }
  }

  // ---- What becomes of a row that was out for delivery ----

  /**
   * The first wait is two seconds, each further failure doubles it up to 256 seconds, and a longer wait that the server
   * asks for is granted up to five minutes.
   */
  lemma DelayExactly(attempts: nat, retryAfter: int)
    requires attempts >= 1
    ensures Delay(1, 0) == 2_000
    ensures Delay(attempts + 1, 0) == if attempts < 8 then 2 * Delay(attempts, 0) else 256_000
    ensures Delay(attempts, retryAfter) ==
              if retryAfter <= Delay(attempts, 0) then Delay(attempts, 0)
              else if retryAfter <= 300_000 then retryAfter
              else 300_000
  {
    assert Pow2(1) == 2 by { assert Pow2(0) == 1; }
    var n := if attempts < 8 then attempts else 8;
    Pow2Grows(n, 8);
    assert Pow2(8) == 256 by {
      assert Pow2(2) == 4 && Pow2(3) == 8 && Pow2(4) == 16;
      assert Pow2(5) == 32 && Pow2(6) == 64 && Pow2(7) == 128;
    }
  }

  /** The tab's row is still out under its claim. */
  predicate Out(w: World, owner: Owner) {
    && owner in w.tabs && w.tabs[owner].key in w.rows
    && w.rows[w.tabs[owner].key].claim == Some(Claim(owner, w.tabs[owner].until))
  }

  /** A server that answers so will never take the batch. */
  predicate Hopeless(f: Setback) {
    || f.terminal
    || (f.status.Some? && 400 <= f.status.value <= 499 && f.status.value !in {408, 429})
  }

  /** What a row becomes when its delivery has failed: no claim, the same batch, and what the answer calls for. */
  lemma SettledAfterFailure(limits: Limits, w: World, owner: Owner, f: Setback)
    requires Out(w, owner) && !w.tabs[owner].delivered
    ensures var t, key := Apply(limits, w, Settle(owner, f)), w.tabs[owner].key;
            && t == w.(tabs := w.tabs - {owner}, rows := t.rows)
            && key in t.rows && t.rows == w.rows[key := t.rows[key]]
            && var was, row := w.rows[key], t.rows[key];
            && row.batch == was.batch && row.claim == None
            && (f.aborted ==> row.state == was.state && row.attempts == was.attempts && row.nextAt == w.clock + 5_000)
            && (!f.aborted ==>
                  && row.attempts == was.attempts + 1 && row.nextAt == w.clock + Delay(row.attempts, f.retryAfter)
                  && (row.state == Denied <==> f.status in {Some(401), Some(403), Some(404)})
                  && (row.state == Exhausted <==>
                        && f.status !in {Some(401), Some(403), Some(404)}
                        && (Hopeless(f) || was.attempts + 1 >= limits.maxAttempts))
                  && (row.state in {Denied, Exhausted} || row.state == State.Retry))
  {
  }

  /** A delivered batch leaves the store, and a tab that has lost its claim changes nothing. */
  lemma SettledOtherwise(limits: Limits, w: World, owner: Owner, f: Setback)
    requires owner in w.tabs
    ensures var rows := Apply(limits, w, Settle(owner, f)).rows;
            && (Out(w, owner) && w.tabs[owner].delivered ==> rows == w.rows - {w.tabs[owner].key})
            && (!Out(w, owner) ==> rows == w.rows)
  {
  }

  /** The row is with nobody, and is still to be delivered or not. */
  ghost predicate Rests(limits: Limits, w: World, key: Key, row: Row, live: bool) {
    && key in w.rows && w.rows[key] == row && row.claim == None
    && (live <==> row.state in {Pending, State.Retry})
  }

  /** The steps that make something of a row that rests. */
  predicate Wakes(a: Action, key: Key, live: bool) {
    if live then a.Take? && a.key == key else a.Repair? && a.partition == key.partition
  }

  lemma RestsStep(limits: Limits, w: World, a: Action, key: Key, row: Row, live: bool)
    requires Rests(limits, w, key, row, live) && !Wakes(a, key, live)
    ensures Rests(limits, Apply(limits, w, a), key, row, live)
  {
  }

  /**
   * A row that waits for a further attempt keeps, and can be taken exactly once its wait is over; one that was denied
   * or
   * exhausted keeps too and is never taken.
   */
  lemma {:induction false} DueAgainIff(limits: Limits, w: World, actions: seq<Action>, key: Key, row: Row, live: bool)
    requires Rests(limits, w, key, row, live) && forall a :: a in actions ==> !Wakes(a, key, live)
    ensures var t := Run(limits, w, actions);
            && key in t.rows && t.rows[key] == row
            && (Due(t.rows, key.partition, t.clock, key) <==> live && row.nextAt <= t.clock)
    decreases |actions|
  {
    if actions != [] {
      RestsStep(limits, w, actions[0], key, row, live);
      DueAgainIff(limits, Apply(limits, w, actions[0]), actions[1..], key, row, live);
    }
  }

  /** Whether a failed delivery is tried again without an operator. */
  predicate TriedAgain(limits: Limits, was: Row, f: Setback) {
    || f.aborted
    || (&& f.status !in {Some(401), Some(403), Some(404)} && !Hopeless(f)
        && was.attempts + 1 < limits.maxAttempts)
  }

  /**
   * From any run on, and through whatever comes later until the row is taken or repaired: after a failed delivery the
   * row can be taken again exactly if the answer leaves it to be tried again and its wait is over.
   */
  lemma FailedDeliveryIsTriedAgainIff(limits: Limits, before: seq<Action>, owner: Owner, f: Setback,
      later: seq<Action>)
    requires var w := Run(limits, EMPTY, before);
             && Out(w, owner) && !w.tabs[owner].delivered
             && var key := w.tabs[owner].key;
                forall a :: a in later ==> !Wakes(a, key, TriedAgain(limits, w.rows[key], f))
    ensures var w := Run(limits, EMPTY, before);
            var was, key := w.rows[w.tabs[owner].key], w.tabs[owner].key;
            var wait := if f.aborted then 5_000 else Delay(was.attempts + 1, f.retryAfter);
            var t := Run(limits, Apply(limits, w, Settle(owner, f)), later);
            && key in t.rows && t.rows[key].batch == was.batch && t.rows[key].claim == None
            && (Due(t.rows, key.partition, t.clock, key) <==>
                  TriedAgain(limits, was, f) && w.clock + wait <= t.clock)
  {
    EmptyInv(limits);
    RunInv(limits, EMPTY, before);
    var w := Run(limits, EMPTY, before);
    var key := w.tabs[owner].key;
    assert RowOk(limits, w, key);
    SettledAfterFailure(limits, w, owner, f);
    var t := Apply(limits, w, Settle(owner, f));
    DueAgainIff(limits, t, later, key, t.rows[key], TriedAgain(limits, w.rows[key], f));
  }

  /** Nobody works on the row, although it records a claim. */
  ghost predicate Orphaned(w: World, key: Key, row: Row) {
    && key in w.rows && w.rows[key] == row && Live(row) && row.claim.Some? && row.nextAt <= w.clock
    && (row.claim.value.owner in w.tabs ==> w.tabs[row.claim.value.owner].key != key)
  }

  lemma OrphanedStep(limits: Limits, w: World, a: Action, key: Key, row: Row)
    requires Orphaned(w, key, row) && !(a.Take? && a.key == key)
    ensures Orphaned(Apply(limits, w, a), key, row)
  {
  }

  lemma {:induction false} OrphanedRun(limits: Limits, w: World, actions: seq<Action>, key: Key, row: Row)
    requires Orphaned(w, key, row) && forall a :: a in actions ==> !(a.Take? && a.key == key)
    ensures Orphaned(Run(limits, w, actions), key, row)
    decreases |actions|
  {
    if actions != [] {
      OrphanedStep(limits, w, actions[0], key, row);
      OrphanedRun(limits, Apply(limits, w, actions[0]), actions[1..], key, row);
    }
  }

  /**
   * A tab that dies during a delivery leaves its row as it is, and until it is taken the row can be taken exactly once
   * the claim has expired; the tab itself is free to claim again.
   */
  lemma CrashFreesIffExpired(limits: Limits, before: seq<Action>, owner: Owner, later: seq<Action>)
    requires var w := Run(limits, EMPTY, before);
             Out(w, owner) && forall a :: a in later ==> !(a.Take? && a.key == w.tabs[owner].key)
    ensures var w := Run(limits, EMPTY, before);
            var key, crashed := w.tabs[owner].key, Apply(limits, w, Crash(owner));
            var t := Run(limits, crashed, later);
            && owner !in crashed.tabs && crashed.rows == w.rows
            && key in t.rows && t.rows[key] == w.rows[key]
            && (Due(t.rows, key.partition, t.clock, key) <==> w.tabs[owner].until <= t.clock)
  {
    EmptyInv(limits);
    RunInv(limits, EMPTY, before);
    var w := Run(limits, EMPTY, before);
    var key := w.tabs[owner].key;
    assert RowOk(limits, w, key);
    OrphanedRun(limits, Apply(limits, w, Crash(owner)), later, key, w.rows[key]);
  }

  /** A row that is due is taken unless one with an earlier stamp is: its claim runs for a minute and names the tab. */
  lemma TakenExactly(limits: Limits, w: World, owner: Owner, key: Key, elapsed: nat)
    requires owner !in w.tabs && key in w.rows
    ensures var t := Apply(limits, w, Take(owner, key.partition, key, elapsed));
            if Due(w.rows, key.partition, w.clock, key) &&
               (forall k :: k in w.rows && Due(w.rows, key.partition, w.clock, k) ==>
                  w.rows[key].batch.t <= w.rows[k].batch.t)
            then
              var until := w.clock + elapsed + 60_000;
              && t.rows == w.rows[key := w.rows[key].(claim := Some(Claim(owner, until)))]
              && t.tabs == w.tabs[owner := Flight(key, w.rows[key].batch, until, false)]
            else t == w
  {
  }

  /**
   * An operator brings just the account's denied and exhausted rows back, due at once and with no attempts made, or
   * deletes just these; all others stay.
   */
  lemma RepairedExactly(limits: Limits, w: World, partition: Partition, clear: bool, key: Key)
    requires Inv(limits, w) && key in w.rows
    ensures var t, row := Apply(limits, w, Repair(partition, clear)), w.rows[key];
            if key.partition == partition && row.state in {Denied, Exhausted} then
              if clear then key !in t.rows && (key, row.batch) in t.cleared
              else
                && key in t.rows && t.rows[key] == Row(row.batch, Pending, 0, 0, None)
                && Due(t.rows, partition, t.clock, key)
            else key in t.rows && t.rows[key] == row
  {
    assert RowOk(limits, w, key);
  }

  /** A batch is accepted exactly if it has a permitted size and is stored already or finds room. */
  lemma AcceptedIff(limits: Limits, w: World, key: Key, batch: Batch)
    ensures var t := Apply(limits, w, Enqueue(key, batch));
            var accepted :=
              && 1 <= batch.items <= 100 && batch.bytes <= 131_072
              && (if key in w.rows then w.rows[key].batch == batch
                  else |w.rows| < limits.maxBatches && Bytes(w.rows) + batch.bytes <= 8_388_608);
            && (accepted ==> t.accepted == w.accepted + {(key, batch)} && key in t.rows && t.rows[key].batch == batch)
            && (accepted && key !in w.rows ==> t.rows == w.rows[key := Row(batch, Pending, 0, 0, None)])
            && (!accepted || key in w.rows ==> t.rows == w.rows)
            && (!accepted ==> t == w)
  {
  }

  // ---- The store and the transactions on it ----

  /** A repair that has yet to look at the `unseen` rows. */
  ghost function Partly(rows: Rows, partition: Partition, clear: bool, now: nat, unseen: set<Key>): Rows {
    map k | k in rows && (k in unseen || !clear || !Stuck(rows, partition, now, k)) ::
      if k !in unseen && Stuck(rows, partition, now, k) then rows[k].(state := Pending, attempts := 0, nextAt := 0)
      else rows[k]
  }

  ghost function StuckOutside(rows: Rows, partition: Partition, now: nat, unseen: set<Key>): set<Key> {
    set k | k in rows && k !in unseen && Stuck(rows, partition, now, k)
  }

  lemma PartlyAtEnds(rows: Rows, partition: Partition, clear: bool, now: nat)
    ensures Partly(rows, partition, clear, now, rows.Keys) == rows
    ensures Partly(rows, partition, clear, now, {}) == Repaired(rows, partition, clear, now)
    ensures StuckOutside(rows, partition, now, rows.Keys) == {}
  {
  }

  lemma PartlyStep(rows: Rows, partition: Partition, clear: bool, now: nat, unseen: set<Key>, key: Key)
    requires key in unseen && unseen <= rows.Keys
    ensures var here, next := Partly(rows, partition, clear, now, unseen),
              Partly(rows, partition, clear, now, unseen - {key});
            && key in here && here[key] == rows[key]
            && next == (if !Stuck(rows, partition, now, key) then here
                        else if clear then here - {key}
                        else here[key := rows[key].(state := Pending, attempts := 0, nextAt := 0)])
    ensures |StuckOutside(rows, partition, now, unseen - {key})| ==
            |StuckOutside(rows, partition, now, unseen)| + (if Stuck(rows, partition, now, key) then 1 else 0)
  {
    var before, after := StuckOutside(rows, partition, now, unseen), StuckOutside(rows, partition, now, unseen - {key});
    assert after == (if Stuck(rows, partition, now, key) then before + {key} else before);
    assert key !in before;
  }

  /** What a tab meets at one pass of its delivery loop; other tabs go on before and after the server has answered. */
  datatype Pass = Pass(cancelled: bool, subject: Option<Partition>, elapsed: nat,
                       before: seq<Step>, delivered: bool, setback: Setback, after: seq<Step>)

  datatype Stop = NoSubject | NothingDue(partition: Partition) | NotDelivered | Cancelled | Bound

  /** What the other tabs do while a delivery is out. */
  datatype Step =
    | Wait(elapsed: nat)
    | Feed(key: Key, batch: Batch)
    | Begin(owner: Owner, partition: Partition, elapsed: nat)
    | Hand(owner: Owner)
    | Finish(owner: Owner, setback: Setback)
    | Fix(partition: Partition, clear: bool)

  predicate ByOthers(step: Step, owner: Owner) {
    (step.Begin? || step.Hand? || step.Finish?) ==> step.owner != owner
  }

  /** What happens meanwhile is done by others. */
  predicate Apart(pass: Pass, owner: Owner) {
    && (forall step :: step in pass.before ==> ByOthers(step, owner))
    && (forall step :: step in pass.after ==> ByOthers(step, owner))
  }

  /** The first passes have gone through. */
  predicate AllDelivered(passes: seq<Pass>, n: nat) {
    n <= |passes| && forall j :: 0 <= j < n ==> !passes[j].cancelled && passes[j].subject.Some? && passes[j].delivered
  }

  /** No action that starts, confirms or ends this tab's own work. */
  predicate Foreign(a: Action, owner: Owner) {
    (a.Take? || a.Deliver? || a.Settle? || a.Crash?) ==> a.owner != owner
  }

  lemma {:induction false} RunConcat(limits: Limits, w: World, first: seq<Action>, second: seq<Action>)
    ensures Run(limits, w, first + second) == Run(limits, Run(limits, w, first), second)
    decreases |first|
  {
    if first == [] {
      assert first + second == second;
    } else {
      assert (first + second)[1..] == first[1..] + second && (first + second)[0] == first[0];
      RunConcat(limits, Apply(limits, w, first[0]), first[1..], second);
    }
  }

  lemma RunOne(limits: Limits, w: World, a: Action)
    ensures Run(limits, w, [a]) == Apply(limits, w, a)
  {
    assert Run(limits, Apply(limits, w, a), [a][1..]) == Apply(limits, w, a);
  }

  lemma {:induction false} ForeignKeepsTab(limits: Limits, w: World, actions: seq<Action>, owner: Owner)
    requires forall a :: a in actions ==> Foreign(a, owner)
    ensures var t := Run(limits, w, actions);
            (owner in t.tabs <==> owner in w.tabs) && (owner in w.tabs ==> t.tabs[owner] == w.tabs[owner])
    decreases |actions|
  {
    if actions != [] {
      assert Foreign(actions[0], owner);
      ForeignKeepsTab(limits, Apply(limits, w, actions[0]), actions[1..], owner);
    }
  }

  /** What this tab itself does in a run. */
  function Own(actions: seq<Action>, owner: Owner): seq<Action> {
    if actions == [] then []
    else
      var last := |actions| - 1;
      Own(actions[..last], owner) + if Foreign(actions[last], owner) then [] else [actions[last]]
  }

  lemma {:induction false} OwnConcat(first: seq<Action>, second: seq<Action>, owner: Owner)
    ensures Own(first + second, owner) == Own(first, owner) + Own(second, owner)
    decreases |second|
  {
    if second == [] {
      assert first + second == first;
    } else {
      var last := |second| - 1;
      assert (first + second)[..|first + second| - 1] == first + second[..last];
      OwnConcat(first, second[..last], owner);
    }
  }

  lemma {:induction false} OwnNothing(actions: seq<Action>, owner: Owner)
    requires forall a :: a in actions ==> Foreign(a, owner)
    ensures Own(actions, owner) == []
    decreases |actions|
  {
    if actions != [] {
      OwnNothing(actions[..|actions| - 1], owner);
      assert actions[|actions| - 1] in actions;
    }
  }

  lemma OwnOne(a: Action, owner: Owner)
    requires !Foreign(a, owner)
    ensures Own([a], owner) == [a]
  {
    assert [a][..0] == [];
  }

  /** What this tab does in the passes in which it claims the given rows: claim, delivery if confirmed, settling. */
  function Work(owner: Owner, passes: seq<Pass>, keys: seq<Key>): seq<Action>
    requires |keys| <= |passes|
    requires forall i :: 0 <= i < |keys| ==> passes[i].subject.Some?
    decreases |keys|
  {
    if keys == [] then []
    else
      var last := |keys| - 1;
      Work(owner, passes, keys[..last]) + WorkOn(owner, passes[last], keys[last])
  }

  function WorkOn(owner: Owner, pass: Pass, key: Key): seq<Action>
    requires pass.subject.Some?
  {
    [Action.Take(owner, pass.subject.value, key, pass.elapsed)] +
    (if pass.delivered then [Action.Deliver(owner)] else []) + [Action.Settle(owner, pass.setback)]
  }

  /** In the run the tab itself has done just that. */
  predicate Worked(done: seq<Action>, owner: Owner, passes: seq<Pass>, keys: seq<Key>) {
    && |keys| <= |passes| && (forall i :: 0 <= i < |keys| ==> passes[i].subject.Some?)
    && Own(done, owner) == Work(owner, passes, keys)
  }

  /** Between one and a hundred, and twenty if nothing is said. */
  function Bounded(maxBatches: Option<int>): nat {
    match maxBatches
    case None => 20
    case Some(n) => if n < 1 then 1 else if n > 100 then 100 else n
  }

  /** Why the loop goes no further when the first `n` passes have gone through. */
  function Reason(maximum: nat, passes: seq<Pass>, n: nat): Stop {
    if n == maximum then Bound
    else if n >= |passes| || passes[n].cancelled then Cancelled
    else if passes[n].subject.None? then NoSubject
    else NothingDue(passes[n].subject.value)
  }

  /** Why it stops after it has claimed the given rows. */
  predicate StopsFor(stop: Stop, maximum: nat, passes: seq<Pass>, keys: seq<Key>) {
    var n := |keys|;
    && n <= maximum && n <= |passes| && AllDelivered(passes, if n > 0 then n - 1 else 0)
    && (n > 0 ==> !passes[n - 1].cancelled && passes[n - 1].subject.Some?)
    && stop == if n > 0 && !passes[n - 1].delivered then NotDelivered else Reason(maximum, passes, n)
  }

  lemma StopsHere(maximum: nat, passes: seq<Pass>, keys: seq<Key>)
    requires AllDelivered(passes, |keys|) && |keys| <= maximum
    ensures StopsFor(Reason(maximum, passes, |keys|), maximum, passes, keys)
  {
  }

  lemma StopsUndelivered(maximum: nat, passes: seq<Pass>, keys: seq<Key>, key: Key)
    requires AllDelivered(passes, |keys|) && |keys| < maximum && |keys| < |passes|
    requires !passes[|keys|].cancelled && passes[|keys|].subject.Some? && !passes[|keys|].delivered
    ensures StopsFor(NotDelivered, maximum, passes, keys + [key])
  {
  }

  class BatchStore {
    const limits: Limits
    var rows: Rows
    var clock: nat
    var tabs: map<Owner, Flight>
    ghost var accepted: set<Entry>
    ghost var delivered: set<Entry>
    ghost var cleared: set<Entry>

    ghost function Sys(): World
      reads this
    {
      World(rows, clock, tabs, accepted, delivered, cleared)
    }

    constructor (limits: Limits)
      ensures this.limits == limits && Sys() == EMPTY
    {
      this.limits := limits;
      rows, clock, tabs := map[], 0, map[];
      accepted, delivered, cleared := {}, {}, {};
    }

    method StoredBytes() returns (total: nat)
      ensures total == Bytes(rows)
    {
      total := 0;
      var seen: set<Key> := {};
      assert rows - seen == rows;
      while seen != rows.Keys
        invariant seen <= rows.Keys
        invariant total + Bytes(rows - seen) == Bytes(rows)
        decreases rows.Keys - seen
      {
        assert rows.Keys - seen != {};
        var key :| key in rows.Keys - seen;
        BytesWithout(rows - seen, key);
        assert rows - seen - {key} == rows - (seen + {key});
        total := total + rows[key].batch.bytes;
        seen := seen + {key};
      }
      assert rows - seen == map[];
    }

    method Enqueue(key: Key, batch: Batch) returns (error: Option<EnqueueError>)
      modifies this
      ensures Sys() == Apply(limits, old(Sys()), Action.Enqueue(key, batch))
      ensures var r := Enqueued(limits, old(rows), key, batch);
              error == (if r.Success? then None else Some(r.error))
    {
      if batch.items < 1 || batch.items > 100 {
        return Some(WrongItemCount);
      }
      if batch.bytes > BATCH_BYTES {
        return Some(TooLarge);
      }
      if key in rows {
        if rows[key].batch != batch {
          return Some(Reused);
        }
      } else {
        var used := StoredBytes();
        if |rows| >= limits.maxBatches || used + batch.bytes > STORE_BYTES {
          return Some(Full);
        }
        rows := rows[key := Row(batch, Pending, 0, 0, None)];
      }
      accepted := accepted + {(key, batch)};
      error := None;
    }

    /** Looks through all rows for one that is due and has the earliest stamp, and claims it. */
    method Take(owner: Owner, partition: Partition, elapsed: nat) returns (taken: Option<Key>)
      requires owner !in tabs
      modifies this
      ensures taken.Some? ==> Next(old(rows), partition, old(clock), taken.value)
      ensures taken.Some? ==> Sys() == Apply(limits, old(Sys()), Action.Take(owner, partition, taken.value, elapsed))
      ensures taken.Some? ==> owner in tabs
      ensures taken.None? ==> Sys() == old(Sys()) && forall k :: k in rows ==> !Due(rows, partition, clock, k)
    {
      taken := None;
      var unseen := rows.Keys;
      while unseen != {}
        invariant unseen <= rows.Keys
        invariant taken.Some? ==> Due(rows, partition, clock, taken.value)
        invariant forall k :: k in rows && k !in unseen && Due(rows, partition, clock, k) ==>
                    taken.Some? && rows[taken.value].batch.t <= rows[k].batch.t
        decreases unseen
      {
        var key :| key in unseen;
        unseen := unseen - {key};
        if Due(rows, partition, clock, key) && (taken.None? || rows[key].batch.t < rows[taken.value].batch.t) {
          taken := Some(key);
        }
      }
      if taken.Some? {
        var row := rows[taken.value];
        clock := clock + elapsed;
        rows := rows[taken.value := row.(claim := Some(Claim(owner, clock + LEASE)))];
        tabs := tabs[owner := Flight(taken.value, row.batch, clock + LEASE, false)];
      }
    }

    /** The server confirmed the delivery; nothing is stored about that yet. */
    method Deliver(owner: Owner)
      requires owner in tabs
      modifies this
      ensures Sys() == Apply(limits, old(Sys()), Action.Deliver(owner))
    {
      var flight := tabs[owner];
      tabs := tabs[owner := flight.(delivered := true)];
      delivered := delivered + {(flight.key, flight.batch)};
    }

    method Settle(owner: Owner, setback: Setback)
      requires owner in tabs
      modifies this
      ensures Sys() == Apply(limits, old(Sys()), Action.Settle(owner, setback))
    {
      var flight := tabs[owner];
      tabs := tabs - {owner};
      if flight.key !in rows {
        return;
      }
      var row := rows[flight.key];
      if row.claim != Some(Claim(owner, flight.until)) {
        return;
      }
      if flight.delivered {
        rows := rows - {flight.key};
      } else if setback.aborted {
        rows := rows[flight.key := row.(nextAt := clock + 5_000, claim := None)];
      } else {
        var attempts := row.attempts + 1;
        var state :=
          if IsDenied(setback) then Denied
          else if IsTerminal(setback) || attempts >= limits.maxAttempts then Exhausted
          else State.Retry;
        rows := rows[flight.key := Row(row.batch, state, attempts, clock + Delay(attempts, setback.retryAfter), None)];
      }
    }

    /** Walks over all rows and puts the stuck ones of one account back, or deletes them. */
    method Repair(partition: Partition, clear: bool) returns (changed: nat)
      modifies this
      ensures Sys() == Apply(limits, old(Sys()), Action.Repair(partition, clear))
      ensures changed == |StuckOutside(old(rows), partition, clock, {})|
    {
      cleared := cleared + (set k | k in rows && clear && Stuck(rows, partition, clock, k) :: (k, rows[k].batch));
      changed := 0;
      ghost var before := rows;
      var unseen := rows.Keys;
      PartlyAtEnds(before, partition, clear, clock);
      while unseen != {}
        invariant unseen <= before.Keys
        invariant rows == Partly(before, partition, clear, clock, unseen)
        invariant changed == |StuckOutside(before, partition, clock, unseen)|
        modifies `rows
        decreases unseen
      {
        var key :| key in unseen;
        PartlyStep(before, partition, clear, clock, unseen, key);
        unseen := unseen - {key};
        if key.partition == partition && !Live(rows[key]) && Unleased(rows[key], clock) {
          changed := changed + 1;
          rows := if clear then rows - {key} else rows[key := rows[key].(state := Pending, attempts := 0, nextAt := 0)];
        }
      }
    }

    method Perform(step: Step) returns (ghost done: seq<Action>)
      modifies this
      ensures Sys() == Run(limits, old(Sys()), done)
      ensures forall owner, a :: ByOthers(step, owner) && a in done ==> Foreign(a, owner)
    {
      ghost var was := Sys();
      done := [];
      match step {
        case Wait(elapsed) =>
          clock := clock + elapsed;
          done := [Tick(elapsed)];
        case Feed(key, batch) =>
          var _ := Enqueue(key, batch);
          done := [Action.Enqueue(key, batch)];
        case Begin(owner, partition, elapsed) =>
          if owner !in tabs {
            var taken := Take(owner, partition, elapsed);
            done := if taken.Some? then [Action.Take(owner, partition, taken.value, elapsed)] else [];
          }
        case Hand(owner) =>
          if owner in tabs {
            Deliver(owner);
            done := [Action.Deliver(owner)];
          }
        case Finish(owner, setback) =>
          if owner in tabs {
            Settle(owner, setback);
            done := [Action.Settle(owner, setback)];
          }
        case Fix(partition, clear) =>
          var _ := Repair(partition, clear);
          done := [Action.Repair(partition, clear)];
      }
      if done != [] {
        RunOne(limits, was, done[0]);
      }
    }

    method PerformAll(steps: seq<Step>, ghost owner: Owner) returns (ghost done: seq<Action>)
      requires forall step :: step in steps ==> ByOthers(step, owner)
      modifies this
      ensures Sys() == Run(limits, old(Sys()), done)
      ensures forall a :: a in done ==> Foreign(a, owner)
      ensures owner in tabs <==> owner in old(tabs)
    {
      ghost var was := Sys();
      done := [];
      for i := 0 to |steps|
        invariant Sys() == Run(limits, was, done)
        invariant forall a :: a in done ==> Foreign(a, owner)
      {
        ghost var more := Perform(steps[i]);
        RunConcat(limits, was, done, more);
        done := done + more;
      }
      ForeignKeepsTab(limits, was, done, owner);
    }
  }

  class BrowserTelemetryOutbox {
    const owner: Owner
    const store: BatchStore

    constructor (owner: Owner, store: BatchStore)
      ensures this.owner == owner && this.store == store
    {
      this.owner := owner;
      this.store := store;
    }

    /** Claims one row, lets the server answer, and settles it; other tabs go on meanwhile. */
    method DeliverNext(pass: Pass) returns (taken: Option<Key>, ghost done: seq<Action>)
      requires owner !in store.tabs && pass.subject.Some? && Apart(pass, owner)
      modifies store
      ensures store.Sys() == Run(store.limits, old(store.Sys()), done)
      ensures owner !in store.tabs
      ensures Own(done, owner) == if taken.Some? then WorkOn(owner, pass, taken.value) else []
      ensures taken.None? ==> forall k :: k in store.rows ==> !Due(store.rows, pass.subject.value, store.clock, k)
    {
      ghost var was := store.Sys();
      done := [];
      taken := store.Take(owner, pass.subject.value, pass.elapsed);
      if taken.None? {
        return;
      }
      ghost var take := Action.Take(owner, pass.subject.value, taken.value, pass.elapsed);
      done := Then(store.limits, was, done, [take]);
      OwnOne(take, owner);
      assert [] + [take] == [take];
      ghost var others := store.PerformAll(pass.before, owner);
      done := ThenOthers(store.limits, was, done, others, owner);
      if pass.delivered {
        store.Deliver(owner);
        done := ThenOwn(store.limits, was, done, Action.Deliver(owner), owner);
      }
      others := store.PerformAll(pass.after, owner);
      done := ThenOthers(store.limits, was, done, others, owner);
      store.Settle(owner, pass.setback);
      done := ThenOwn(store.limits, was, done, Action.Settle(owner, pass.setback), owner);
    }

    /** One pass of the loop, or the reason why there is none. */
    method NextPass(maximum: nat, passes: seq<Pass>, i: nat, ghost before: seq<Key>, ghost was: World,
        ghost earlier: seq<Action>)
        returns (stop: Option<Stop>, ghost keys: seq<Key>, ghost done: seq<Action>)
      requires owner !in store.tabs && store.Sys() == Run(store.limits, was, earlier)
      requires forall i :: 0 <= i < |passes| ==> Apart(passes[i], owner)
      requires i == |before| < maximum && AllDelivered(passes, i) && Worked(earlier, owner, passes, before)
      modifies store
      ensures store.Sys() == Run(store.limits, was, done) && owner !in store.tabs
      ensures Worked(done, owner, passes, keys)
      ensures stop.None? ==> |keys| == i + 1 && AllDelivered(passes, i + 1)
      ensures stop.Some? ==> StopsFor(stop.value, maximum, passes, keys)
      ensures stop.Some? && stop.value.NothingDue? ==> forall k :: k in store.rows ==>
                !Due(store.rows, stop.value.partition, store.clock, k)
    {
      keys, done := before, earlier;
      StopsHere(maximum, passes, keys);
      if i >= |passes| || passes[i].cancelled {
        return Some(Cancelled), keys, done;
      }
      if passes[i].subject.None? {
        return Some(NoSubject), keys, done;
      }
      var taken; ghost var more;
      taken, more := DeliverNext(passes[i]);
      if taken.None? {
        done := ThenNothing(store.limits, was, done, more, owner, passes, keys);
        return Some(NothingDue(passes[i].subject.value)), keys, done;
      }
      done := ThenWork(store.limits, was, done, more, owner, passes, keys, taken.value);
      keys := keys + [taken.value];
      if !passes[i].delivered {
        StopsUndelivered(maximum, passes, before, taken.value);
        return Some(NotDelivered), keys, done;
      }
      stop := None;
    }

    /**
     * Claims and delivers one row after another, between one and a hundred, until there is none or one fails. What the
     * tab does are just the claims, deliveries and settlings of these rows, and it stops for just the reason there is.
     */
    method Drain(maxBatches: Option<int>, passes: seq<Pass>)
        returns (stop: Stop, ghost keys: seq<Key>, ghost done: seq<Action>)
      requires owner !in store.tabs
      requires forall i :: 0 <= i < |passes| ==> Apart(passes[i], owner)
      modifies store
      ensures store.Sys() == Run(store.limits, old(store.Sys()), done)
      ensures owner !in store.tabs
      ensures StopsFor(stop, Bounded(maxBatches), passes, keys) && Worked(done, owner, passes, keys)
      ensures stop.NothingDue? ==> forall k :: k in store.rows ==> !Due(store.rows, stop.partition, store.clock, k)
    {
      var wanted := if maxBatches.Some? then maxBatches.value else 20;
      var maximum := if wanted < 1 then 1 else if wanted > 100 then 100 else wanted;
      done, keys := [], [];
      ghost var was := store.Sys();
      for i := 0 to maximum
        invariant store.Sys() == Run(store.limits, was, done)
        invariant owner !in store.tabs
        invariant i == |keys| && AllDelivered(passes, i) && Worked(done, owner, passes, keys)
      {
        var stopped;
        stopped, keys, done := NextPass(maximum, passes, i, keys, was, done);
        if stopped.Some? {
          return stopped.value, keys, done;
        }
      }
      StopsHere(maximum, passes, keys);
      stop := Bound;
    }
  }

  lemma ThenNothing(limits: Limits, was: World, done: seq<Action>, more: seq<Action>, owner: Owner,
      passes: seq<Pass>, keys: seq<Key>)
      returns (all: seq<Action>)
    requires Worked(done, owner, passes, keys) && Own(more, owner) == []
    ensures Run(limits, was, all) == Run(limits, Run(limits, was, done), more) && Worked(all, owner, passes, keys)
  {
    all := Then(limits, was, done, more);
    OwnConcat(done, more, owner);
  }

  lemma ThenWork(limits: Limits, was: World, done: seq<Action>, more: seq<Action>, owner: Owner,
      passes: seq<Pass>, keys: seq<Key>, key: Key)
      returns (all: seq<Action>)
    requires Worked(done, owner, passes, keys) && |keys| < |passes| && passes[|keys|].subject.Some?
    requires Own(more, owner) == WorkOn(owner, passes[|keys|], key)
    ensures Run(limits, was, all) == Run(limits, Run(limits, was, done), more)
    ensures Worked(all, owner, passes, keys + [key])
  {
    all := Then(limits, was, done, more);
    OwnConcat(done, more, owner);
    assert (keys + [key])[..|keys|] == keys;
  }

  lemma ThenOthers(limits: Limits, was: World, done: seq<Action>, others: seq<Action>, owner: Owner)
      returns (all: seq<Action>)
    requires forall a :: a in others ==> Foreign(a, owner)
    ensures Run(limits, was, all) == Run(limits, Run(limits, was, done), others)
    ensures Own(all, owner) == Own(done, owner)
  {
    all := Then(limits, was, done, others);
    OwnConcat(done, others, owner);
    OwnNothing(others, owner);
  }

  lemma ThenOwn(limits: Limits, was: World, done: seq<Action>, a: Action, owner: Owner) returns (all: seq<Action>)
    requires !Foreign(a, owner)
    ensures Run(limits, was, all) == Apply(limits, Run(limits, was, done), a)
    ensures Own(all, owner) == Own(done, owner) + [a]
  {
    all := Then(limits, was, done, [a]);
    OwnConcat(done, [a], owner);
    OwnOne(a, owner);
  }

  lemma Then(limits: Limits, was: World, done: seq<Action>, more: seq<Action>) returns (all: seq<Action>)
    ensures all == done + more
    ensures Run(limits, was, all) == Run(limits, Run(limits, was, done), more)
    ensures |more| == 1 ==> Run(limits, was, all) == Apply(limits, Run(limits, was, done), more[0])
  {
    all := done + more;
    RunConcat(limits, was, done, more);
    if |more| == 1 {
      RunOne(limits, Run(limits, was, done), more[0]);
      assert more == [more[0]];
    }
  }
}
