/**
 * The fixed-window request limiter with a bounded number of keys.
 */
module RateLimit {
  import opened Wrappers

  datatype Window = Window(startedAt: int, count: int)

  datatype Decision = Decision(
    allowed: bool,
    limit: int,
    remaining: int,
    resetAt: int,
    retryAfterSeconds: Option<int>)

  datatype Error = InvalidLimit | InvalidWindow | InvalidCapacity | EmptyKey | InvalidTime

  datatype Config = Config(limit: int, windowMs: int, maxKeys: int) {
    predicate Valid() {
      limit >= 1 && windowMs >= 1 && maxKeys >= 1
    }
  }

  datatype Call = Call(key: string, now: real) {
    predicate Valid() {
      key != "" && now >= 0.0
    }
  }

  function WindowStart(c: Config, now: real): int
    requires c.Valid()
  {
    (now / c.windowMs as real).Floor * c.windowMs
  }

  function Ceiling(x: real): int {
    -((-x).Floor)
  }

  function Max(a: int, b: int): int {
    if a < b then b else a
  }

  /** What is left of the windows once those that began before `start` are dropped. */
  function Expired(windows: map<string, Window>, start: int): map<string, Window> {
    map key | key in windows && windows[key].startedAt >= start :: windows[key]
  }

  function Refusal(c: Config, now: real): Decision
    requires c.Valid()
  {
    var resetAt := WindowStart(c, now) + c.windowMs;
    Decision(false, c.limit, 0, resetAt, Some(Max(1, Ceiling((resetAt as real - now) / 1000.0))))
  }

  /** One request: the windows afterwards and the answer. */
  function Consumed(c: Config, windows: map<string, Window>, call: Call): (map<string, Window>, Result<Decision, Error>)
    requires c.Valid()
  {
    if call.key == "" then (windows, Failure(EmptyKey))
    else if call.now < 0.0 then (windows, Failure(InvalidTime))
    else
      var start := WindowStart(c, call.now);
      var current := call.key in windows && windows[call.key].startedAt == start;
      var live := if current then windows else Expired(windows, start);
      if !current && call.key !in live && |live| >= c.maxKeys then
        (live, Success(Refusal(c, call.now)))
      else
        var window := if current then live[call.key] else Window(start, 0);
        if window.count >= c.limit then
          (live[call.key := window], Success(Refusal(c, call.now)))
        else
          (live[call.key := Window(start, window.count + 1)],
           Success(Decision(true, c.limit, c.limit - (window.count + 1), start + c.windowMs, None)))
  }

  class FixedWindowRateLimiter {
    const config: Config
    var windows: map<string, Window>

    constructor (config: Config)
      requires config.Valid()
      ensures this.config == config && windows == map[]
    {
      this.config := config;
      windows := map[];
    }

    /** A limiter, or the first of the three settings that is out of range. */
    static method Create(limit: int, windowMs: int, maxKeys: int) returns (r: Result<FixedWindowRateLimiter, Error>)
      ensures limit < 1 ==> r == Failure(InvalidLimit)
      ensures limit >= 1 && windowMs < 1 ==> r == Failure(InvalidWindow)
      ensures limit >= 1 && windowMs >= 1 && maxKeys < 1 ==> r == Failure(InvalidCapacity)
      ensures Config(limit, windowMs, maxKeys).Valid() ==>
                r.Success? && fresh(r.value) && r.value.config == Config(limit, windowMs, maxKeys) &&
                    r.value.windows == map[]
    {
      if limit < 1 {
        return Failure(InvalidLimit);
      }
      if windowMs < 1 {
        return Failure(InvalidWindow);
      }
      if maxKeys < 1 {
        return Failure(InvalidCapacity);
      }
      var limiter := new FixedWindowRateLimiter(Config(limit, windowMs, maxKeys));
      return Success(limiter);
    }

    method Consume(key: string, now: real) returns (r: Result<Decision, Error>)
      requires config.Valid()
      modifies this
      ensures (windows, r) == Consumed(config, old(windows), Call(key, now))
    {
      if key == "" {
        return Failure(EmptyKey);
      }
      if now < 0.0 {
        return Failure(InvalidTime);
      }
      var startedAt := WindowStart(config, now);
      var resetAt := startedAt + config.windowMs;
      if key !in windows || windows[key].startedAt != startedAt {
        Expire(startedAt);
        if key !in windows && |windows| >= config.maxKeys {
          return Success(Refusal(config, now));
        }
        windows := windows[key := Window(startedAt, 0)];
      }
      if windows[key].count >= config.limit {
        assert windows[key := windows[key]] == windows;
        return Success(Refusal(config, now));
      }
      windows := windows[key := windows[key].(count := windows[key].count + 1)];
      ghost var spec := Consumed(config, old(windows), Call(key, now)).0;
      assert windows == spec;
      return Success(Decision(true, config.limit, config.limit - windows[key].count, resetAt, None));
    }

    method Expire(currentWindowStart: int)
      modifies this
      ensures windows == Expired(old(windows), currentWindowStart)
    {
      var todo := windows.Keys;
      while todo != {}
        invariant todo <= windows.Keys <= old(windows).Keys
        invariant forall key :: key in windows ==> windows[key] == old(windows)[key]
        invariant forall key :: key in windows && key !in todo ==> windows[key].startedAt >= currentWindowStart
        invariant forall key :: key in old(windows) && key !in windows ==>
                    old(windows)[key].startedAt < currentWindowStart
        decreases todo
      {
        var key :| key in todo;
        if windows[key].startedAt < currentWindowStart {
          windows := windows - {key};
        }
        todo := todo - {key};
      }
    }
  }

  // ---- Whole runs, against a counter that never forgets a key ----

  /** The windows after a sequence of requests to a new limiter. */
  function After(c: Config, calls: seq<Call>): map<string, Window>
    requires c.Valid()
  {
    if calls == [] then map[] else Consumed(c, After(c, calls[..|calls| - 1]), calls[|calls| - 1]).0
  }

  predicate Admits(c: Config, calls: seq<Call>, call: Call)
    requires c.Valid()
  {
    var answer := Consumed(c, After(c, calls), call).1;
    answer.Success? && answer.value.allowed
  }

  /** How many requests of `key` were admitted in the window that began at `start`. */
  function Admitted(c: Config, calls: seq<Call>, key: string, start: int): nat
    requires c.Valid()
  {
    if calls == [] then 0
    else
      var last := calls[|calls| - 1];
      Admitted(c, calls[..|calls| - 1], key, start) +
      if last.key == key && WindowStart(c, last.now) == start && Admits(c, calls[..|calls| - 1], last) then 1 else 0
  }

  /** The keys with an admitted request in the window that began at `start`. */
  function AdmittedKeys(c: Config, calls: seq<Call>, start: int): set<string>
    requires c.Valid()
  {
    set call | call in calls && Admitted(c, calls, call.key, start) > 0 :: call.key
  }

  /** The clock does not go back across the boundary of a window. */
  ghost predicate InOrder(c: Config, calls: seq<Call>)
    requires c.Valid()
  {
    forall i, j :: 0 <= i < j < |calls| ==> WindowStart(c, calls[i].now) <= WindowStart(c, calls[j].now)
  }

  /** Relates the bounded map to the unbounded counters, seen from a time `now` not before any request. */
  ghost predicate Tracks(c: Config, calls: seq<Call>, windows: map<string, Window>, now: real)
    requires c.Valid()
  {
    && (forall key :: key in windows ==>
          && windows[key].startedAt <= WindowStart(c, now)
          && 1 <= windows[key].count <= c.limit
          && windows[key].count == Admitted(c, calls, key, windows[key].startedAt))
    && (forall key, start :: Admitted(c, calls, key, start) > 0 ==>
          && start <= WindowStart(c, now)
          && Admitted(c, calls, key, start) <= c.limit)
    && (forall key :: Admitted(c, calls, key, WindowStart(c, now)) > 0 ==>
          key in windows && windows[key].startedAt == WindowStart(c, now))
    && |windows| <= c.maxKeys
  }

  /** A clock that never goes back is in order. */
  lemma ForwardClockIsInOrder(c: Config, calls: seq<Call>)
    requires c.Valid() && forall i, j :: 0 <= i < j < |calls| ==> calls[i].now <= calls[j].now
    ensures InOrder(c, calls)
  {
    forall i, j | 0 <= i < j < |calls| ensures WindowStart(c, calls[i].now) <= WindowStart(c, calls[j].now) {
      WindowStartMonotone(c, calls[i].now, calls[j].now);
    }
  }

  lemma WindowStartMonotone(c: Config, a: real, b: real)
    requires c.Valid() && a <= b
    ensures WindowStart(c, a) <= WindowStart(c, b)
  {
    var w := c.windowMs as real;
    assert a / w <= b / w;
    var i, j := (a / w).Floor, (b / w).Floor;
    assert i <= j;
    assert (j - i) * c.windowMs >= 0;
  }

  lemma {:induction false} AdmittedKeyOccurs(c: Config, calls: seq<Call>, key: string, start: int)
    requires c.Valid() && Admitted(c, calls, key, start) > 0
    ensures exists i :: 0 <= i < |calls| && calls[i].key == key
  {
    var front, last := calls[..|calls| - 1], calls[|calls| - 1];
    if last.key != key {
      AdmittedKeyOccurs(c, front, key, start);
      var i :| 0 <= i < |front| && front[i].key == key;
      assert calls[i].key == key;
    }
  }

  /** Once expired, the map holds exactly the keys admitted in the current window. */
  lemma LiveKeys(c: Config, calls: seq<Call>, windows: map<string, Window>, now: real)
    requires c.Valid() && Tracks(c, calls, windows, now)
    ensures Expired(windows, WindowStart(c, now)).Keys == AdmittedKeys(c, calls, WindowStart(c, now))
    ensures |Expired(windows, WindowStart(c, now))| <= |windows|
  {
    var start := WindowStart(c, now);
    var live := Expired(windows, start);
    forall key | key in live ensures key in AdmittedKeys(c, calls, start) {
      AdmittedKeyOccurs(c, calls, key, start);
    }
    SubsetSize(live.Keys, windows.Keys);
    assert |live| == |live.Keys| && |windows| == |windows.Keys|;
  }

  lemma {:induction false} SubsetSize<T>(a: set<T>, b: set<T>)
    requires a <= b
    ensures |a| <= |b|
  {
    if x :| x in a {
      SubsetSize(a - {x}, b - {x});
    }
  }

  lemma TracksLater(c: Config, calls: seq<Call>, windows: map<string, Window>, now: real, later: real)
    requires c.Valid() && Tracks(c, calls, windows, now) && WindowStart(c, now) <= WindowStart(c, later)
    ensures Tracks(c, calls, windows, later)
  {
  }

  /** What one request does to the map, seen entry by entry. */
  lemma ConsumedEntries(c: Config, windows: map<string, Window>, call: Call)
    requires c.Valid() && call.Valid() && |windows| <= c.maxKeys
    requires forall key :: key in windows ==>
               windows[key].startedAt <= WindowStart(c, call.now) && windows[key].count <= c.limit
    ensures var start := WindowStart(c, call.now);
            var (next, answer) := Consumed(c, windows, call);
            && answer.Success?
            && (forall key :: key in next && key != call.key ==> key in windows && next[key] == windows[key])
            && (forall key :: key in windows && key != call.key && windows[key].startedAt == start ==> key in next)
            && (call.key in next ==>
                  && next[call.key].startedAt == start
                  && next[call.key].count ==
                       (if call.key in windows && windows[call.key].startedAt == start then windows[call.key].count
                        else 0) +
                       (if answer.value.allowed then 1 else 0)
                  && 1 <= next[call.key].count <= c.limit)
            && (answer.value.allowed || (call.key in windows && windows[call.key].startedAt == start) ==>
                  call.key in next)
            && |next| <= c.maxKeys
    requires forall key :: key in windows ==> windows[key].count >= 1
  {
    ConsumedSize(c, windows, call);
  }

  lemma ConsumedSize(c: Config, windows: map<string, Window>, call: Call)
    requires c.Valid() && |windows| <= c.maxKeys
    ensures |Consumed(c, windows, call).0| <= c.maxKeys
  {
    if !call.Valid() {
      return;
    }
    var start := WindowStart(c, call.now);
    var next := Consumed(c, windows, call).0;
    var live := Expired(windows, start);
    if call.key in windows && windows[call.key].startedAt == start {
      assert next.Keys == windows.Keys;
      assert |next| == |next.Keys| && |windows| == |windows.Keys|;
    } else {
      assert live.Keys <= windows.Keys;
      SubsetSize(live.Keys, windows.Keys);
      assert |live| == |live.Keys| && |windows| == |windows.Keys|;
      if next != live {
        assert next.Keys == live.Keys + {call.key};
        assert |next| == |next.Keys|;
      }
    }
  }

  lemma AdmittedSnoc(c: Config, calls: seq<Call>, call: Call, key: string, start: int)
    requires c.Valid()
    ensures Admitted(c, calls + [call], key, start) ==
            Admitted(c, calls, key, start) +
            if call.key == key && WindowStart(c, call.now) == start && Admits(c, calls, call) then 1 else 0
  {
    assert (calls + [call])[..|calls + [call]| - 1] == calls;
  }

  lemma AfterSnoc(c: Config, calls: seq<Call>, call: Call)
    requires c.Valid()
    ensures After(c, calls + [call]) == Consumed(c, After(c, calls), call).0
  {
    assert (calls + [call])[..|calls + [call]| - 1] == calls;
  }

  lemma TracksStep(c: Config, calls: seq<Call>, call: Call)
    requires c.Valid() && Tracks(c, calls, After(c, calls), call.now)
    ensures Tracks(c, calls + [call], After(c, calls + [call]), call.now)
  {
    AfterSnoc(c, calls, call);
    var all := calls + [call];
    var windows, next := After(c, calls), After(c, all);
    var start := WindowStart(c, call.now);
    if call.Valid() {
      ConsumedEntries(c, windows, call);
    }
    forall key | key in next
      ensures next[key].startedAt <= start && 1 <= next[key].count <= c.limit
      ensures next[key].count == Admitted(c, all, key, next[key].startedAt)
    {
      AdmittedSnoc(c, calls, call, key, next[key].startedAt);
      assert key in windows ==> windows[key].count == Admitted(c, calls, key, windows[key].startedAt);
      assert Admitted(c, calls, key, start) > 0 ==> key in windows && windows[key].startedAt == start;
    }
    forall key, s | Admitted(c, all, key, s) > 0
      ensures s <= start && Admitted(c, all, key, s) <= c.limit
      ensures s == start ==> key in next && next[key].startedAt == start
    {
      AdmittedSnoc(c, calls, call, key, s);
      assert Admitted(c, calls, key, s) > 0 ==> s <= start && Admitted(c, calls, key, s) <= c.limit;
      assert Admitted(c, calls, key, start) > 0 ==> key in windows && windows[key].startedAt == start;
    }
  }

  lemma {:induction false} RunTracks(c: Config, calls: seq<Call>, now: real)
    requires c.Valid() && InOrder(c, calls)
    requires forall i :: 0 <= i < |calls| ==> WindowStart(c, calls[i].now) <= WindowStart(c, now)
    ensures Tracks(c, calls, After(c, calls), now)
  {
    if calls != [] {
      var front, last := calls[..|calls| - 1], calls[|calls| - 1];
      RunTracks(c, front, last.now);
      TracksStep(c, front, last);
      assert front + [last] == calls;
      TracksLater(c, calls, After(c, calls), last.now, now);
    }
  }

  /**
   * With a clock that does not go back to an earlier window, the answer depends on nothing but what was admitted
   * before:
   * a key already admitted in the window is judged by an unbounded counter, and a new key is admitted
   * just when fewer than `maxKeys` keys were.
   */
  lemma DecisionFromHistory(c: Config, calls: seq<Call>, call: Call)
    requires c.Valid() && call.Valid() && InOrder(c, calls + [call])
    ensures var start := WindowStart(c, call.now);
            var used := Admitted(c, calls, call.key, start);
            var answer := Consumed(c, After(c, calls), call).1;
            && answer.Success?
            && (answer.value.allowed <==> used < c.limit && (used > 0 || |AdmittedKeys(c, calls, start)| < c.maxKeys))
            && answer.value.remaining == (if answer.value.allowed then c.limit - used - 1 else 0)
  {
    var all := calls + [call];
    assert forall i :: 0 <= i < |calls| ==> all[i] == calls[i];
    assert all[|calls|] == call;
    RunTracks(c, calls, call.now);
    var windows := After(c, calls);
    var start := WindowStart(c, call.now);
    LiveKeys(c, calls, windows, call.now);
    var live := Expired(windows, start);
    assert |live| == |live.Keys|;
  }

  /** No key is admitted more than `limit` times in a window, and the map never outgrows its capacity. */
  lemma LimitAndCapacity(c: Config, calls: seq<Call>, key: string, start: int)
    requires c.Valid() && InOrder(c, calls)
    ensures Admitted(c, calls, key, start) <= c.limit
    ensures |After(c, calls)| <= c.maxKeys
  {
    RunTracks(c, calls, if calls == [] then 0.0 else calls[|calls| - 1].now);
  }

  /** A key keeps its window, count and all, until a request comes from a later window. */
  lemma NeverEvictedInsideWindow(c: Config, calls: seq<Call>, now: real, key: string)
    requires c.Valid() && InOrder(c, calls)
    requires forall i :: 0 <= i < |calls| ==> WindowStart(c, calls[i].now) <= WindowStart(c, now)
    requires Admitted(c, calls, key, WindowStart(c, now)) > 0
    ensures var windows := After(c, calls);
            key in windows && windows[key] == Window(WindowStart(c, now), Admitted(c, calls, key, WindowStart(c, now)))
  {
    RunTracks(c, calls, now);
  }

  /** A request refused for want of capacity leaves no trace of its key. */
  lemma RefusedKeyNotStored(c: Config, calls: seq<Call>, call: Call)
    requires c.Valid() && call.Valid() && InOrder(c, calls + [call])
    requires Admitted(c, calls, call.key, WindowStart(c, call.now)) == 0
    requires !Admits(c, calls, call)
    ensures call.key !in After(c, calls + [call])
    ensures |AdmittedKeys(c, calls, WindowStart(c, call.now))| >= c.maxKeys
  {
    var all := calls + [call];
    assert all[..|all| - 1] == calls;
    DecisionFromHistory(c, calls, call);
    assert forall i :: 0 <= i < |calls| ==> all[i] == calls[i];
    assert all[|calls|] == call;
    RunTracks(c, calls, call.now);
  }

  // ---- Any clock ----

  /** The call is admitted with a fresh count although others were admitted in its window: their window was dropped. */
  predicate Restarts(c: Config, calls: seq<Call>, call: Call)
    requires c.Valid()
  {
    var windows, start := After(c, calls), WindowStart(c, call.now);
    && Admits(c, calls, call)
    && !(call.key in windows && windows[call.key].startedAt == start)
    && Admitted(c, calls, call.key, start) > 0
  }

  ghost predicate NeverRestarts(c: Config, calls: seq<Call>)
    requires c.Valid()
  {
    forall i :: 0 <= i < |calls| ==> !Restarts(c, calls[..i], calls[i])
  }

  lemma NeverRestartsSnoc(c: Config, calls: seq<Call>, call: Call)
    requires c.Valid()
    ensures NeverRestarts(c, calls + [call]) <==> NeverRestarts(c, calls) && !Restarts(c, calls, call)
  {
    var all := calls + [call];
    assert all[..|calls|] == calls && all[|calls|] == call;
    assert forall i :: 0 <= i < |calls| ==> all[..i] == calls[..i] && all[i] == calls[i];
  }

  /** The stored counts are those of their windows, and all are within the limit. */
  ghost predicate Exact(c: Config, calls: seq<Call>, windows: map<string, Window>)
    requires c.Valid()
  {
    && (forall key :: key in windows ==> windows[key].count == Admitted(c, calls, key, windows[key].startedAt))
    && (forall key, start :: Admitted(c, calls, key, start) <= c.limit)
  }

  /** What one request does to the entry of its key, whatever the clock. */
  lemma ConsumedEntry(c: Config, windows: map<string, Window>, call: Call)
    requires c.Valid() && call.Valid()
    ensures var start := WindowStart(c, call.now);
            var (next, answer) := Consumed(c, windows, call);
            var current := call.key in windows && windows[call.key].startedAt == start;
            && answer.Success?
            && (forall key :: key in next && key != call.key ==> key in windows && next[key] == windows[key])
            && (current ==> call.key in next && (answer.value.allowed <==> windows[call.key].count < c.limit))
            && (!current ==> (call.key in next <==> answer.value.allowed))
            && (call.key in next ==>
                  && next[call.key].startedAt == start
                  && next[call.key].count ==
                       (if current then windows[call.key].count else 0) + (if answer.value.allowed then 1 else 0))
  {
  }

  lemma ExactStep(c: Config, calls: seq<Call>, call: Call)
    requires c.Valid() && Exact(c, calls, After(c, calls)) && !Restarts(c, calls, call)
    ensures Exact(c, calls + [call], After(c, calls + [call]))
  {
    AfterSnoc(c, calls, call);
    var windows, next := After(c, calls), After(c, calls + [call]);
    if call.Valid() {
      ConsumedEntry(c, windows, call);
    }
    forall key | key in next ensures next[key].count == Admitted(c, calls + [call], key, next[key].startedAt) {
      AdmittedSnoc(c, calls, call, key, next[key].startedAt);
    }
    forall key, start ensures Admitted(c, calls + [call], key, start) <= c.limit {
      AdmittedSnoc(c, calls, call, key, start);
    }
  }

  lemma {:induction false} ExactRun(c: Config, calls: seq<Call>)
    requires c.Valid() && NeverRestarts(c, calls)
    ensures Exact(c, calls, After(c, calls))
  {
    if calls != [] {
      var front, last := calls[..|calls| - 1], calls[|calls| - 1];
      assert front + [last] == calls;
      NeverRestartsSnoc(c, front, last);
      ExactRun(c, front);
      ExactStep(c, front, last);
    }
  }

  /** Whatever the clock does, the limit is kept as long as no count is restarted. */
  lemma LimitKeptWithoutRestarts(c: Config, calls: seq<Call>, key: string, start: int)
    requires c.Valid() && NeverRestarts(c, calls)
    ensures Admitted(c, calls, key, start) <= c.limit
  {
    ExactRun(c, calls);
  }

  /** A clock in order restarts no count. */
  lemma {:induction false} InOrderNeverRestarts(c: Config, calls: seq<Call>)
    requires c.Valid() && InOrder(c, calls)
    ensures NeverRestarts(c, calls)
  {
    if calls != [] {
      var front, last := calls[..|calls| - 1], calls[|calls| - 1];
      assert front + [last] == calls;
      NeverRestartsSnoc(c, front, last);
      InOrderNeverRestarts(c, front);
      RunTracks(c, front, last.now);
    }
  }

  function Repeat(call: Call, n: nat): seq<Call> {
    seq(n, _ => call)
  }

  /** An admitted call counts, from the stored count if its window is stored. */
  lemma AdmittedCall(c: Config, calls: seq<Call>, call: Call, count: nat)
    requires c.Valid() && Admits(c, calls, call)
    requires var windows, start := After(c, calls), WindowStart(c, call.now);
             count == if call.key in windows && windows[call.key].startedAt == start then windows[call.key].count else 0
    ensures var windows, start := After(c, calls + [call]), WindowStart(c, call.now);
            && call.key in windows && windows[call.key] == Window(start, count + 1)
            && Admitted(c, calls + [call], call.key, start) == Admitted(c, calls, call.key, start) + 1
  {
    AfterSnoc(c, calls, call);
    AdmittedSnoc(c, calls, call, call.key, WindowStart(c, call.now));
    ConsumedEntry(c, After(c, calls), call);
  }

  ghost predicate Counted(c: Config, calls: seq<Call>, call: Call, count: nat, total: nat)
    requires c.Valid()
  {
    var windows, start := After(c, calls), WindowStart(c, call.now);
    call.key in windows && windows[call.key] == Window(start, count) && Admitted(c, calls, call.key, start) == total
  }

  lemma CountedOnceMore(c: Config, calls: seq<Call>, call: Call, count: nat, total: nat)
    requires c.Valid() && call.Valid() && Counted(c, calls, call, count, total) && count < c.limit
    ensures Counted(c, calls + [call], call, count + 1, total + 1)
  {
    ConsumedEntry(c, After(c, calls), call);
    AdmittedCall(c, calls, call, count);
  }

  /** After a restart the key gets its whole limit once more. */
  lemma {:induction false} RestartedCount(c: Config, calls: seq<Call>, call: Call, n: nat)
    requires c.Valid() && Restarts(c, calls, call) && 1 <= n <= c.limit
    ensures Counted(c, calls + Repeat(call, n), call, n, Admitted(c, calls, call.key, WindowStart(c, call.now)) + n)
    decreases n
  {
    var before := calls + Repeat(call, n - 1);
    assert calls + Repeat(call, n) == before + [call];
    if n == 1 {
      assert before == calls;
      AdmittedCall(c, calls, call, 0);
    } else {
      RestartedCount(c, calls, call, n - 1);
      CountedOnceMore(c, before, call, n - 1, Admitted(c, calls, call.key, WindowStart(c, call.now)) + n - 1);
    }
  }

  /** Another such call finds its window stored, or is refused again. */
  ghost predicate Settled(c: Config, calls: seq<Call>, call: Call)
    requires c.Valid()
  {
    var windows := After(c, calls);
    (call.key in windows && windows[call.key].startedAt == WindowStart(c, call.now)) ||
    (Consumed(c, windows, call).0 == windows && !Admits(c, calls, call))
  }

  lemma SettledAfter(c: Config, calls: seq<Call>, call: Call)
    requires c.Valid()
    ensures Settled(c, calls + [call], call)
  {
    AfterSnoc(c, calls, call);
    var windows, start := After(c, calls), WindowStart(c, call.now);
    if call.Valid() {
      ConsumedEntry(c, windows, call);
      assert Expired(Expired(windows, start), start) == Expired(windows, start);
    }
  }

  lemma {:induction false} RepeatNeverRestarts(c: Config, calls: seq<Call>, call: Call, n: nat)
    requires c.Valid() && NeverRestarts(c, calls) && !Restarts(c, calls, call)
    ensures NeverRestarts(c, calls + Repeat(call, n))
  {
    if n == 0 {
      assert calls + Repeat(call, 0) == calls;
    } else {
      var before := calls + Repeat(call, n - 1);
      assert calls + Repeat(call, n) == before + [call];
      RepeatNeverRestarts(c, calls, call, n - 1);
      NeverRestartsSnoc(c, before, call);
      if n == 1 {
        assert before == calls;
      } else {
        assert before == calls + Repeat(call, n - 2) + [call];
        SettledAfter(c, calls + Repeat(call, n - 2), call);
      }
    }
  }

  /**
   * Exactly when a call endangers the limit, whatever the clock: repeating it gets more than the limit admitted in its
   * window just if it restarts the count.
   */
  lemma LimitBreaksIff(c: Config, calls: seq<Call>, call: Call)
    requires c.Valid() && NeverRestarts(c, calls)
    ensures Restarts(c, calls, call) <==>
            exists n :: Admitted(c, calls + Repeat(call, n), call.key, WindowStart(c, call.now)) > c.limit
  {
    if Restarts(c, calls, call) {
      RestartedCount(c, calls, call, c.limit);
    } else {
      forall n: nat ensures Admitted(c, calls + Repeat(call, n), call.key, WindowStart(c, call.now)) <= c.limit {
        RepeatNeverRestarts(c, calls, call, n);
        ExactRun(c, calls + Repeat(call, n));
      }
    }
  }

  /** Why the clock must not go back: calls on either side of a boundary restart the count each time. */
  lemma BackwardClockBreaksLimit()
    ensures var c := Config(1, 10, 5);
            var calls := [Call("k", 5.0), Call("k", 15.0), Call("k", 5.0)];
            c.Valid() && Admitted(c, calls, "k", 0) == 2
  {
    var c, a, b := Config(1, 10, 5), Call("k", 5.0), Call("k", 15.0);
    TwoWindows(c, a, b);
    AdmittedSnoc(c, [a, b], a, "k", 0);
    assert [a, b] + [a] == [a, b, a];
    assert Admits(c, [a, b], a);
  }

  lemma TwoWindows(c: Config, a: Call, b: Call)
    requires c == Config(1, 10, 5) && a == Call("k", 5.0) && b == Call("k", 15.0)
    ensures WindowStart(c, 5.0) == 0 && After(c, [a, b]) == map["k" := Window(10, 1)] &&
            Admitted(c, [a, b], "k", 0) == 1
  {
    assert WindowStart(c, 5.0) == 0 && WindowStart(c, 15.0) == 10;
    assert [] + [a] == [a] && [a] + [b] == [a, b];
    AfterSnoc(c, [], a);
    assert After(c, [a]) == map["k" := Window(0, 1)];
    AdmittedSnoc(c, [], a, "k", 0);
    assert Admits(c, [], a);
    AfterSnoc(c, [a], b);
    AdmittedSnoc(c, [a], b, "k", 0);
  }
}
