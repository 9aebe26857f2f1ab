/**
 * Merging the steps recovered from stored hooks into the steps a session already has.
 *
 * Steps are paired by a key of their contents, the n-th recovered one with the n-th existing one.
 */
module Merge {
  import opened Wrappers

  type Rest(==, !new)  // event, timing and turn

  datatype Role = Decision | ToolCall | ToolCallResponse | ModelThought | ModelOutput
  datatype NodeKind = Observation | Action | Choice

  datatype Step = Step(artifact: Option<string>, nodeKind: NodeKind, role: Role, tool: Option<string>, content: string,
                       rest: Rest, number: nat)

  datatype Key = SessionStart | Key(artifact: string, nodeKind: NodeKind, role: Role, tool: string, wording: string)

  const SESSION_STARTED := "Coding-agent session started"

  function OrEmpty(s: Option<string>): string {
    if s.Some? then s.value else ""
  }

  /** Results of tools are told apart by the check they report, not by how it went. */
  function ResultLabel(content: string): string {
    if "test verification " <= content then "test"
    else if "build verification " <= content then "build"
    else if "lint verification " <= content then "lint"
    else if "typecheck verification " <= content then "typecheck"
    else "tool-result"
  }

  function RecoveryKey(s: Step): Key {
    if s.content == SESSION_STARTED && s.role == Decision then SessionStart
    else
      Key(OrEmpty(s.artifact), s.nodeKind, s.role, OrEmpty(s.tool),
          if s.role == ToolCallResponse then ResultLabel(s.content) else s.content)
  }

  /** Merging is the same for any key that a step keeps when it takes over the wording of another of its key. */
  type KeyFn = Step -> Key

  ghost predicate Stable(key: KeyFn) {
    && (forall a, b :: key(a) == key(b) ==> key(a.(content := b.content)) == key(b))
    && (forall s: Step, n: nat :: key(s.(number := n)) == key(s))
  }

  lemma RecoveryKeyIsStable()
    ensures Stable(RecoveryKey)
  {
    forall a, b | RecoveryKey(a) == RecoveryKey(b) ensures RecoveryKey(a.(content := b.content)) == RecoveryKey(b) {}
  }

  function Keys(key: KeyFn, steps: seq<Step>): (keys: seq<Key>)
    ensures |keys| == |steps|
    ensures forall i :: 0 <= i < |steps| ==> keys[i] == key(steps[i])
  {
    seq(|steps|, i requires 0 <= i < |steps| => key(steps[i]))
  }

  // ---- Occurrences ----

  /** Where a key occurs among the first `n`, in order. */
  function Positions(keys: seq<Key>, k: Key, n: nat): seq<nat>
    requires n <= |keys|
  {
    if n == 0 then [] else Positions(keys, k, n - 1) + (if keys[n - 1] == k then [n - 1] else [])
  }

  function All(keys: seq<Key>, k: Key): seq<nat> {
    Positions(keys, k, |keys|)
  }

  function Count(keys: seq<Key>, k: Key): nat {
    |All(keys, k)|
  }

  /** How many of the same key come before. */
  function Rank(keys: seq<Key>, i: nat): nat
    requires i < |keys|
  {
    |Positions(keys, keys[i], i)|
  }

  lemma {:induction false} PositionsPrefix(keys: seq<Key>, k: Key, i: nat, n: nat)
    requires i <= n <= |keys|
    ensures Positions(keys, k, i) <= Positions(keys, k, n)
    decreases n
  {
    if i < n {
      PositionsPrefix(keys, k, i, n - 1);
    }
  }

  lemma {:induction false} PositionsRise(keys: seq<Key>, k: Key, n: nat)
    requires n <= |keys|
    ensures forall i :: 0 <= i < |Positions(keys, k, n)| ==>
              Positions(keys, k, n)[i] < n && keys[Positions(keys, k, n)[i]] == k
    ensures forall i, j :: 0 <= i < j < |Positions(keys, k, n)| ==> Positions(keys, k, n)[i] < Positions(keys, k, n)[j]
    decreases n
  {
    if n > 0 {
      PositionsRise(keys, k, n - 1);
    }
  }

  /** The occurrence of rank `n` is at the `n`-th position, and the other way round. */
  lemma PositionOf(keys: seq<Key>, i: nat)
    requires i < |keys|
    ensures Rank(keys, i) < Count(keys, keys[i]) && All(keys, keys[i])[Rank(keys, i)] == i
  {
    PositionsPrefix(keys, keys[i], i + 1, |keys|);
  }

  lemma RankOf(keys: seq<Key>, k: Key, n: nat)
    requires n < Count(keys, k)
    ensures All(keys, k)[n] < |keys| && keys[All(keys, k)[n]] == k && Rank(keys, All(keys, k)[n]) == n
  {
    PositionsRise(keys, k, |keys|);
    var p := All(keys, k)[n];
    PositionOf(keys, p);
    var m := Rank(keys, p);
    assert All(keys, k)[m] == p;
  }

  lemma {:induction false} PositionsOfPrefix(a: seq<Key>, b: seq<Key>, k: Key, n: nat)
    requires n <= |a|
    ensures Positions(a + b, k, n) == Positions(a, k, n)
    decreases n
  {
    if n > 0 {
      PositionsOfPrefix(a, b, k, n - 1);
      assert (a + b)[n - 1] == a[n - 1];
    }
  }

  lemma {:induction false} PositionsConcat(a: seq<Key>, b: seq<Key>, k: Key, n: nat)
    requires n <= |b|
    ensures |Positions(a + b, k, |a| + n)| == Count(a, k) + |Positions(b, k, n)|
    decreases n
  {
    if n == 0 {
      PositionsOfPrefix(a, b, k, |a|);
    } else {
      PositionsConcat(a, b, k, n - 1);
      assert (a + b)[|a| + n - 1] == b[n - 1];
    }
  }

  lemma CountConcat(a: seq<Key>, b: seq<Key>, k: Key)
    ensures Count(a + b, k) == Count(a, k) + Count(b, k)
    ensures All(a, k) <= All(a + b, k)
  {
    PositionsConcat(a, b, k, |b|);
    PositionsOfPrefix(a, b, k, |a|);
    PositionsPrefix(a + b, k, |a|, |a + b|);
  }

  // ---- The merged steps ----

  /** A recovered step goes with the existing step that is the same occurrence of the same key; its wording wins. */
  function Matched(key: KeyFn, existing: seq<Step>, recovered: seq<Step>, i: nat): Step
    requires i < |recovered|
  {
    var k, n := key(recovered[i]), Rank(Keys(key, recovered), i);
    if n < Count(Keys(key, existing), k) then
      RankOf(Keys(key, existing), k, n);
      existing[All(Keys(key, existing), k)[n]].(content := recovered[i].content)
    else recovered[i]
  }

  predicate IsLeft(key: KeyFn, existing: seq<Step>, recovered: seq<Step>, j: nat)
    requires j < |existing|
  {
    Rank(Keys(key, existing), j) >= Count(Keys(key, recovered), key(existing[j]))
  }

  function Flags(key: KeyFn, existing: seq<Step>, recovered: seq<Step>): (flags: seq<bool>)
    ensures |flags| == |existing| && forall j :: 0 <= j < |existing| ==> flags[j] == IsLeft(key, existing, recovered, j)
  {
    seq(|existing|, j requires 0 <= j < |existing| => IsLeft(key, existing, recovered, j))
  }

  /** Of the first `n` steps those that are flagged, in order. */
  function Select(steps: seq<Step>, flags: seq<bool>, n: nat): seq<Step>
    requires n <= |steps| == |flags|
  {
    if n == 0 then [] else Select(steps, flags, n - 1) + (if flags[n - 1] then [steps[n - 1]] else [])
  }

  /** The existing steps that go with no recovered one. */
  function Left(key: KeyFn, existing: seq<Step>, recovered: seq<Step>): seq<Step> {
    Select(existing, Flags(key, existing, recovered), |existing|)
  }

  function Front(key: KeyFn, existing: seq<Step>, recovered: seq<Step>, n: nat): (front: seq<Step>)
    requires n <= |recovered|
    ensures |front| == n
  {
    seq(n, i requires 0 <= i < n => Matched(key, existing, recovered, i))
  }

  function Numbered(steps: seq<Step>): seq<Step> {
    seq(|steps|, i requires 0 <= i < |steps| => steps[i].(number := i + 1))
  }

  function Merged(key: KeyFn, existing: seq<Step>, recovered: seq<Step>): seq<Step> {
    Numbered(Front(key, existing, recovered, |recovered|) + Left(key, existing, recovered))
  }

  // ---- The loops ----

  /** The existing step goes with one of the first `i` recovered ones. */
  predicate InUse(ek: seq<Key>, rk: seq<Key>, i: nat, j: nat)
    requires i <= |rk|
  {
    j < |ek| && Rank(ek, j) < |Positions(rk, ek[j], i)|
  }

  /** Of the occurrences of the next recovered key just those of a lower rank are in use. */
  lemma LowerRanksInUse(ek: seq<Key>, rk: seq<Key>, i: nat, n: nat)
    requires i < |rk| && n < Count(ek, rk[i])
    ensures InUse(ek, rk, i, All(ek, rk[i])[n]) <==> n < Rank(rk, i)
  {
    RankOf(ek, rk[i], n);
  }

  lemma UseNext(ek: seq<Key>, rk: seq<Key>, i: nat, j: nat)
    requires i < |rk|
    ensures InUse(ek, rk, i + 1, j) <==>
            InUse(ek, rk, i, j) || (Rank(rk, i) < Count(ek, rk[i]) && j == All(ek, rk[i])[Rank(rk, i)])
  {
    if j < |ek| {
      PositionOf(ek, j);
    }
    if Rank(rk, i) < Count(ek, rk[i]) {
      RankOf(ek, rk[i], Rank(rk, i));
    }
  }

  method FirstUnused(candidates: seq<nat>, used: set<nat>) returns (n: nat)
    ensures n <= |candidates| && (forall m :: 0 <= m < n ==> candidates[m] in used) &&
            (n < |candidates| ==> candidates[n] !in used)
  {
    n := 0;
    while n < |candidates| && candidates[n] in used
      invariant n <= |candidates| && forall m :: 0 <= m < n ==> candidates[m] in used
    {
      n := n + 1;
    }
  }

  function Lookup(available: map<Key, seq<nat>>, k: Key): seq<nat> {
    if k in available then available[k] else []
  }

  /** Under every key just its positions among the first `n`. */
  ghost predicate Indexes(available: map<Key, seq<nat>>, keys: seq<Key>, n: nat)
    requires n <= |keys|
  {
    forall k :: Lookup(available, k) == Positions(keys, k, n)
  }

  function WithPosition(available: map<Key, seq<nat>>, k: Key, n: nat): map<Key, seq<nat>> {
    available[k := Lookup(available, k) + [n]]
  }

  lemma IndexNext(available: map<Key, seq<nat>>, keys: seq<Key>, n: nat)
    requires n < |keys| && Indexes(available, keys, n)
    ensures Indexes(WithPosition(available, keys[n], n), keys, n + 1)
  {
    var next := WithPosition(available, keys[n], n);
    forall k ensures Lookup(next, k) == Positions(keys, k, n + 1) {
      assert Lookup(available, k) == Positions(keys, k, n);
    }
  }

  /** Everything of the steps that is available, by key. */
  method Available(key: KeyFn, existing: seq<Step>) returns (available: map<Key, seq<nat>>)
    ensures Indexes(available, Keys(key, existing), |existing|)
  {
    available := IndexKeys(Keys(key, existing));
  }

  method IndexKeys(keys: seq<Key>) returns (available: map<Key, seq<nat>>)
    ensures Indexes(available, keys, |keys|)
  {
    available := map[];
    for j := 0 to |keys|
      invariant Indexes(available, keys, j)
    {
      IndexNext(available, keys, j);
      available := WithPosition(available, keys[j], j);
    }
  }

  /** Goes through what was recovered, and takes the first step of the same key that is not used yet. */
  method TakeOver(key: KeyFn, existing: seq<Step>, recovered: seq<Step>, available: map<Key, seq<nat>>)
      returns (merged: seq<Step>, used: set<nat>)
    requires Indexes(available, Keys(key, existing), |existing|)
    ensures merged == Front(key, existing, recovered, |recovered|)
    ensures forall j: nat :: j in used <==> InUse(Keys(key, existing), Keys(key, recovered), |recovered|, j)
  {
    var ek, rk := Keys(key, existing), Keys(key, recovered);
    used, merged := {}, [];
    for i := 0 to |recovered|
      invariant merged == Front(key, existing, recovered, i)
      invariant forall j: nat :: j in used <==> InUse(ek, rk, i, j)
    {
      var step;
      step, used := TakeNext(key, existing, recovered, Lookup(available, rk[i]), i, used);
      merged := merged + [step];
    }
  }

  method TakeNext(key: KeyFn, existing: seq<Step>, recovered: seq<Step>, candidates: seq<nat>, i: nat, before: set<nat>)
    returns (step: Step, used: set<nat>)
    requires i < |recovered| && candidates == All(Keys(key, existing), Keys(key, recovered)[i])
    requires forall j: nat :: j in before <==> InUse(Keys(key, existing), Keys(key, recovered), i, j)
    ensures step == Matched(key, existing, recovered, i)
    ensures forall j: nat :: j in used <==> InUse(Keys(key, existing), Keys(key, recovered), i + 1, j)
  {
    ghost var ek, rk := Keys(key, existing), Keys(key, recovered);
    forall n | 0 <= n < |candidates| ensures candidates[n] in before <==> n < Rank(rk, i) {
      LowerRanksInUse(ek, rk, i, n);
    }
    forall j: nat ensures InUse(ek, rk, i + 1, j) <==>
        InUse(ek, rk, i, j) || (Rank(rk, i) < |candidates| && j == candidates[Rank(rk, i)]) {
      UseNext(ek, rk, i, j);
    }
    var free := FirstUnused(candidates, before);
    if free < |candidates| {
      RankOf(ek, rk[i], free);
      used := before + {candidates[free]};
      step := existing[candidates[free]].(content := recovered[i].content);
    } else {
      used, step := before, recovered[i];
    }
  }

  method AppendUnused(key: KeyFn, existing: seq<Step>, recovered: seq<Step>, front: seq<Step>, used: set<nat>)
      returns (merged: seq<Step>)
    requires forall j: nat :: j in used <==> InUse(Keys(key, existing), Keys(key, recovered), |recovered|, j)
    ensures merged == front + Left(key, existing, recovered)
  {
    merged := front;
    ghost var flags := Flags(key, existing, recovered);
    for j := 0 to |existing|
      invariant merged == front + Select(existing, flags, j)
    {
      assert j in used <==> InUse(Keys(key, existing), Keys(key, recovered), |recovered|, j);
      if j !in used {
        merged := merged + [existing[j]];
      }
    }
  }

  function Max(a: int, b: int): int {
    if a < b then b else a
  }

  method MergeRecoveredSteps(existing: seq<Step>, recovered: seq<Step>) returns (steps: seq<Step>, recoveredCount: int)
    ensures steps == Merged(RecoveryKey, existing, recovered)
    ensures recoveredCount == |steps| - |existing|
  {
    var available := Available(RecoveryKey, existing);
    var front, used := TakeOver(RecoveryKey, existing, recovered, available);
    var merged := AppendUnused(RecoveryKey, existing, recovered, front, used);
    steps := Numbered(merged);
    MergedLength(RecoveryKey, existing, recovered);
    recoveredCount := Max(0, |merged| - |existing|);
  }

  // ---- What merging promises ----

  lemma {:induction false} SelectShrinks(steps: seq<Step>, f: seq<bool>, g: seq<bool>, n: nat)
    requires n <= |steps| == |f| == |g| && (forall j :: 0 <= j < |g| && g[j] ==> f[j])
    requires forall i, j :: 0 <= i < j < |f| && f[i] && !g[i] ==> f[j] == g[j]
    ensures |Select(steps, g, n)| + 1 >= |Select(steps, f, n)|
    ensures (forall j :: 0 <= j < n ==> f[j] == g[j]) ==> |Select(steps, g, n)| == |Select(steps, f, n)|
    decreases n
  {
    if n > 0 {
      SelectShrinks(steps, f, g, n - 1);
    }
  }

  lemma LeftShrinks(key: KeyFn, existing: seq<Step>, recovered: seq<Step>, next: Step)
    ensures |Left(key, existing, recovered + [next])| + 1 >= |Left(key, existing, recovered)|
  {
    var f, g := Flags(key, existing, recovered), Flags(key, existing, recovered + [next]);
    forall j | 0 <= j < |g| && g[j] ensures f[j] {
      if !f[j] {
        StaysTaken(key, existing, recovered, next, j);
      }
    }
    forall i, j | 0 <= i < j < |f| && f[i] && !g[i] ensures f[j] == g[j] {
      OnlyOneTaken(key, existing, recovered, next, i, j);
    }
    SelectShrinks(existing, f, g, |existing|);
  }

  lemma KeysSnoc(key: KeyFn, recovered: seq<Step>, next: Step, k: Key)
    ensures Count(Keys(key, recovered + [next]), k) ==
              Count(Keys(key, recovered), k) + (if key(next) == k then 1 else 0)
  {
    assert Keys(key, recovered + [next]) == Keys(key, recovered) + [key(next)];
    PositionsOfPrefix(Keys(key, recovered), [key(next)], k, |recovered|);
  }

  lemma StaysTaken(key: KeyFn, existing: seq<Step>, recovered: seq<Step>, next: Step, j: nat)
    requires j < |existing| && !IsLeft(key, existing, recovered, j)
    ensures !IsLeft(key, existing, recovered + [next], j)
  {
    KeysSnoc(key, recovered, next, key(existing[j]));
  }

  lemma OnlyOneTaken(key: KeyFn, existing: seq<Step>, recovered: seq<Step>, next: Step, taken: nat, j: nat)
    requires taken < |existing| && j < |existing| && j != taken
    requires IsLeft(key, existing, recovered, taken) && !IsLeft(key, existing, recovered + [next], taken)
    ensures IsLeft(key, existing, recovered + [next], j) <==> IsLeft(key, existing, recovered, j)
  {
    var ek := Keys(key, existing);
    KeysSnoc(key, recovered, next, ek[taken]);
    KeysSnoc(key, recovered, next, ek[j]);
    PositionOf(ek, j);
    PositionOf(ek, taken);
  }

  /** At least as many steps come out as there were, so the count of new ones needs no clamp. */
  lemma {:induction false} MergedLength(key: KeyFn, existing: seq<Step>, recovered: seq<Step>)
    ensures |recovered| + |Left(key, existing, recovered)| >= |existing|
    decreases |recovered|
  {
    if recovered == [] {
      SelectAll(existing, Flags(key, existing, []), |existing|);
    } else {
      var front, last := recovered[..|recovered| - 1], recovered[|recovered| - 1];
      assert front + [last] == recovered;
      MergedLength(key, existing, front);
      LeftShrinks(key, existing, front, last);
    }
  }

  lemma {:induction false} SelectAll(steps: seq<Step>, flags: seq<bool>, n: nat)
    requires n <= |steps| == |flags| && forall j :: 0 <= j < |flags| ==> flags[j]
    ensures |Select(steps, flags, n)| == n
    decreases n
  {
    if n > 0 {
      SelectAll(steps, flags, n - 1);
    }
  }

  /**
   * Steps come out numbered from one, those that were recovered first and in their order, with their keys and wording.
   */
  lemma RecoveredComeFirst(key: KeyFn, existing: seq<Step>, recovered: seq<Step>)
    requires Stable(key)
    ensures var m := Merged(key, existing, recovered);
            && |m| >= |recovered| && |m| >= |existing|
            && (forall i :: 0 <= i < |m| ==> m[i].number == i + 1)
            && (forall i :: 0 <= i < |recovered| ==>
                  key(m[i]) == key(recovered[i]) && m[i].content == recovered[i].content)
  {
    MergedLength(key, existing, recovered);
    forall i | 0 <= i < |recovered|
      ensures key(Matched(key, existing, recovered, i)) == key(recovered[i])
    {
      MatchedKey(key, existing, recovered, i);
    }
  }

  /** Taking over the wording of a step of the same key does not change the key. */
  lemma MatchedKey(key: KeyFn, existing: seq<Step>, recovered: seq<Step>, i: nat)
    requires Stable(key) && i < |recovered|
    ensures key(Matched(key, existing, recovered, i)) == key(recovered[i])
  {
    var k, n := key(recovered[i]), Rank(Keys(key, recovered), i);
    if n < Count(Keys(key, existing), k) {
      RankOf(Keys(key, existing), k, n);
    }
  }

  lemma {:induction false} LeftCount(key: KeyFn, steps: seq<Step>, flags: seq<bool>, taken: nat, n: nat, k: Key)
    requires n <= |steps| == |flags|
    requires forall j :: 0 <= j < |steps| && key(steps[j]) == k ==> (flags[j] <==> Rank(Keys(key, steps), j) >= taken)
    ensures var here := |Positions(Keys(key, steps), k, n)|;
            Count(Keys(key, Select(steps, flags, n)), k) == if here > taken then here - taken else 0
    decreases n
  {
    if n > 0 {
      LeftCount(key, steps, flags, taken, n - 1, k);
      LeftCountNext(key, steps, flags, taken, n, k, Select(steps, flags, n - 1));
    }
  }

  lemma LeftCountNext(key: KeyFn, steps: seq<Step>, flags: seq<bool>, taken: nat, n: nat, k: Key, left: seq<Step>)
    requires 0 < n <= |steps| == |flags| && left == Select(steps, flags, n - 1)
    requires key(steps[n - 1]) == k ==> (flags[n - 1] <==> Rank(Keys(key, steps), n - 1) >= taken)
    requires var before := |Positions(Keys(key, steps), k, n - 1)|;
             Count(Keys(key, left), k) == if before > taken then before - taken else 0
    ensures var here := |Positions(Keys(key, steps), k, n)|;
            Count(Keys(key, Select(steps, flags, n)), k) == if here > taken then here - taken else 0
  {
    if flags[n - 1] {
      KeysSnoc(key, left, steps[n - 1], k);
    } else {
      assert left + [] == left;
    }
  }

  /** Of every key there are as many steps as in the one of the two inputs that has more. */
  lemma CountsAreMaxima(key: KeyFn, existing: seq<Step>, recovered: seq<Step>, k: Key)
    requires Stable(key)
    ensures var here, there := Count(Keys(key, existing), k), Count(Keys(key, recovered), k);
            Count(Keys(key, Merged(key, existing, recovered)), k) == if here > there then here else there
  {
    MergedKeys(key, existing, recovered);
    CountConcat(Keys(key, recovered), Keys(key, Left(key, existing, recovered)), k);
    LeftCount(key, existing, Flags(key, existing, recovered), Count(Keys(key, recovered), k), |existing|, k);
  }

  // ---- Merging the same again ----

  lemma MergedKeys(key: KeyFn, existing: seq<Step>, recovered: seq<Step>)
    requires Stable(key)
    ensures Keys(key, Merged(key, existing, recovered)) ==
              Keys(key, recovered) + Keys(key, Left(key, existing, recovered))
  {
    forall i | 0 <= i < |recovered| ensures key(Matched(key, existing, recovered, i)) == key(recovered[i]) {
      MatchedKey(key, existing, recovered, i);
    }
  }

  lemma MatchesItself(key: KeyFn, existing: seq<Step>, recovered: seq<Step>, i: nat)
    requires Stable(key) && i < |recovered|
    ensures Matched(key, Merged(key, existing, recovered), recovered, i) == Merged(key, existing, recovered)[i]
  {
    var rk, lk := Keys(key, recovered), Keys(key, Left(key, existing, recovered));
    MergedKeys(key, existing, recovered);
    PositionOf(rk, i);
    CountConcat(rk, lk, rk[i]);
    assert All(rk + lk, rk[i])[Rank(rk, i)] == i;
    RecoveredComeFirst(key, existing, recovered);
  }

  /** In front of the keys that are left over, the recovered ones have just the ranks below their count. */
  lemma RanksAgain(rk: seq<Key>, lk: seq<Key>, j: nat)
    requires j < |rk + lk|
    ensures Rank(rk + lk, j) >= Count(rk, (rk + lk)[j]) <==> j >= |rk|
  {
    if j < |rk| {
      PositionsOfPrefix(rk, lk, rk[j], j);
      PositionOf(rk, j);
    } else {
      PositionsConcat(rk, lk, (rk + lk)[j], j - |rk|);
    }
  }

  lemma LeftAgain(key: KeyFn, existing: seq<Step>, recovered: seq<Step>, j: nat)
    requires Stable(key) && j < |Merged(key, existing, recovered)|
    ensures IsLeft(key, Merged(key, existing, recovered), recovered, j) <==> j >= |recovered|
  {
    MergedKeys(key, existing, recovered);
    IsLeftByKeys(key, Merged(key, existing, recovered), recovered, j);
    RanksAgain(Keys(key, recovered), Keys(key, Left(key, existing, recovered)), j);
  }

  lemma IsLeftByKeys(key: KeyFn, steps: seq<Step>, recovered: seq<Step>, j: nat)
    requires j < |steps|
    ensures IsLeft(key, steps, recovered, j) <==>
              Rank(Keys(key, steps), j) >= Count(Keys(key, recovered), Keys(key, steps)[j])
  {
  }

  lemma SliceSnoc(steps: seq<Step>, from: nat, n: nat)
    requires from < n <= |steps|
    ensures steps[from..n] == steps[from..n - 1] + [steps[n - 1]]
  {
  }

  lemma {:induction false} SelectTail(steps: seq<Step>, flags: seq<bool>, from: nat, n: nat)
    requires n <= |steps| == |flags| && forall j :: 0 <= j < |flags| ==> (flags[j] <==> j >= from)
    ensures Select(steps, flags, n) == if n <= from then [] else steps[from..n]
    decreases n
  {
    if n > 0 {
      SelectTail(steps, flags, from, n - 1);
      if n > from {
        SliceSnoc(steps, from, n);
      }
    }
  }

  /** Merging the same recovered steps a second time changes nothing at all. */
  lemma MergingAgainChangesNothing(key: KeyFn, existing: seq<Step>, recovered: seq<Step>)
    requires Stable(key)
    ensures Merged(key, Merged(key, existing, recovered), recovered) == Merged(key, existing, recovered)
  {
    var m := Merged(key, existing, recovered);
    RecoveredComeFirst(key, existing, recovered);
    FrontAgain(key, existing, recovered, m);
    var flags := Flags(key, m, recovered);
    forall j | 0 <= j < |flags| ensures flags[j] <==> j >= |recovered| {
      LeftAgain(key, existing, recovered, j);
    }
    SelectTail(m, flags, |recovered|, |m|);
    Renumber(m, |recovered|);
  }

  lemma FrontAgain(key: KeyFn, existing: seq<Step>, recovered: seq<Step>, m: seq<Step>)
    requires Stable(key) && m == Merged(key, existing, recovered) && |recovered| <= |m|
    ensures Front(key, m, recovered, |recovered|) == m[..|recovered|]
  {
    forall i | 0 <= i < |recovered| ensures Matched(key, m, recovered, i) == m[i] {
      MatchesItself(key, existing, recovered, i);
    }
  }

  lemma Renumber(m: seq<Step>, at: nat)
    requires at <= |m| && forall i :: 0 <= i < |m| ==> m[i].number == i + 1
    ensures Numbered(m[..at] + (if |m| <= at then [] else m[at..|m|])) == m
  {
    assert m[..at] + m[at..|m|] == m;
    assert |m| <= at ==> m[at..|m|] == [];
  }

  // ---- Where each step goes ----

  /** Where an existing step comes to stand. */
  function Place(key: KeyFn, existing: seq<Step>, recovered: seq<Step>, j: nat): nat
    requires j < |existing|
  {
    if IsLeft(key, existing, recovered, j) then |recovered| + |Select(existing, Flags(key, existing, recovered), j)|
    else All(Keys(key, recovered), key(existing[j]))[Rank(Keys(key, existing), j)]
  }

  lemma {:induction false} SelectPrefix(steps: seq<Step>, flags: seq<bool>, j: nat, n: nat)
    requires j < n <= |steps| == |flags| && flags[j]
    ensures |Select(steps, flags, j)| < |Select(steps, flags, n)|
    ensures Select(steps, flags, n)[|Select(steps, flags, j)|] == steps[j]
    decreases n
  {
    if j < n - 1 {
      SelectPrefix(steps, flags, j, n - 1);
    }
  }

  /** Every existing step is kept, with all it had but its number and, if it was recovered, its wording. */
  lemma ExistingStepsAreKept(key: KeyFn, existing: seq<Step>, recovered: seq<Step>, j: nat)
    requires j < |existing|
    ensures var p, m := Place(key, existing, recovered, j), Merged(key, existing, recovered);
            && p < |m|
            && m[p] == existing[j].(number := p + 1,
               content := if p < |recovered| then recovered[p].content else existing[j].content)
  {
    var ek, rk := Keys(key, existing), Keys(key, recovered);
    if IsLeft(key, existing, recovered, j) {
      SelectPrefix(existing, Flags(key, existing, recovered), j, |existing|);
    } else {
      RankOf(rk, ek[j], Rank(ek, j));
      PositionOf(ek, j);
    }
  }

  /** No two of them come to stand in the same place. */
  lemma PlacesAreDistinct(key: KeyFn, existing: seq<Step>, recovered: seq<Step>, i: nat, j: nat)
    requires i < j < |existing|
    ensures Place(key, existing, recovered, i) != Place(key, existing, recovered, j)
  {
    var ek, rk := Keys(key, existing), Keys(key, recovered);
    PositionOf(ek, i);
    PositionOf(ek, j);
    if IsLeft(key, existing, recovered, i) {
      SelectPrefix(existing, Flags(key, existing, recovered), i, j);
    } else {
      RankOf(rk, ek[i], Rank(ek, i));
    }
    if !IsLeft(key, existing, recovered, j) {
      RankOf(rk, ek[j], Rank(ek, j));
    }
  }

  /** Every other place has a recovered step for which there was no existing one, just as it was recovered. */
  lemma OtherPlacesAreNew(key: KeyFn, existing: seq<Step>, recovered: seq<Step>, p: nat)
    requires p < |Merged(key, existing, recovered)|
    ensures (exists j: nat :: j < |existing| && Place(key, existing, recovered, j) == p) ||
            (p < |recovered| && Rank(Keys(key, recovered), p) >= Count(Keys(key, existing), key(recovered[p])) &&
             Merged(key, existing, recovered)[p] == recovered[p].(number := p + 1))
  {
    var ek, rk := Keys(key, existing), Keys(key, recovered);
    if p >= |recovered| {
      var j := SelectSource(existing, Flags(key, existing, recovered), |existing|, p - |recovered|);
      assert Place(key, existing, recovered, j) == p;
    } else if Rank(rk, p) < Count(ek, rk[p]) {
      RankOf(ek, rk[p], Rank(rk, p));
      PositionOf(rk, p);
      assert Place(key, existing, recovered, All(ek, rk[p])[Rank(rk, p)]) == p;
    }
  }

  lemma {:induction false} SelectSource(steps: seq<Step>, flags: seq<bool>, n: nat, q: nat) returns (j: nat)
    requires n <= |steps| == |flags| && q < |Select(steps, flags, n)|
    ensures j < n && flags[j] && |Select(steps, flags, j)| == q
    decreases n
  {
    if q < |Select(steps, flags, n - 1)| {
      j := SelectSource(steps, flags, n - 1, q);
    } else {
      j := n - 1;
    }
  }

  // ---- Which steps are taken for one another ----

  /** Of the four checks a result can report at most one, by how it begins; any other result reports none. */
  lemma LabelIsTheCheck(content: string)
    ensures ResultLabel(content) == "test" <==> "test verification " <= content
    ensures ResultLabel(content) == "build" <==> "build verification " <= content
    ensures ResultLabel(content) == "lint" <==> "lint verification " <= content
    ensures ResultLabel(content) == "typecheck" <==> "typecheck verification " <= content
    ensures ResultLabel(content) in ["test", "build", "lint", "typecheck", "tool-result"]
  {
    var test, build, lint, typecheck := "test verification ", "build verification ", "lint verification ",
      "typecheck verification ";
    assert test[0] == 't' && test[1] == 'e' && build[0] == 'b' && lint[0] == 'l';
    assert typecheck[0] == 't' && typecheck[1] == 'y';
    assert "test"[1] == 'e' && "typecheck"[1] == 'y' && "tool-result"[1] == 'o';
    assert "test"[0] == 't' && "build"[0] == 'b' && "lint"[0] == 'l' && "tool-result"[0] == 't';
  }

  /** Both report the same check, or neither reports one. */
  predicate SameCheck(a: string, b: string) {
    && ("test verification " <= a <==> "test verification " <= b)
    && ("build verification " <= a <==> "build verification " <= b)
    && ("lint verification " <= a <==> "lint verification " <= b)
    && ("typecheck verification " <= a <==> "typecheck verification " <= b)
  }

  predicate IsSessionStart(s: Step) {
    s.role == Decision && s.content == "Coding-agent session started"
  }

  /** Both name the same artifact; none is as good as the empty one. */
  predicate SameName(a: Option<string>, b: Option<string>) {
    a == b || (a in {None, Some("")} && b in {None, Some("")})
  }

  /** The two steps stand for one piece of evidence. */
  predicate SameEvidence(a: Step, b: Step) {
    || (IsSessionStart(a) && IsSessionStart(b))
    || (&& !IsSessionStart(a) && !IsSessionStart(b)
        && SameName(a.artifact, b.artifact) && SameName(a.tool, b.tool)
        && a.nodeKind == b.nodeKind && a.role == b.role
        && (if a.role == ToolCallResponse then SameCheck(a.content, b.content) else a.content == b.content))
  }

  lemma SameLabel(a: string, b: string)
    ensures ResultLabel(a) == ResultLabel(b) <==> SameCheck(a, b)
  {
    LabelIsTheCheck(a);
    LabelIsTheCheck(b);
  }

  /** Two steps have the same key exactly if they stand for one piece of evidence. */
  lemma SameKeyIff(a: Step, b: Step)
    ensures RecoveryKey(a) == RecoveryKey(b) <==> SameEvidence(a, b)
  {
    SameLabel(a.content, b.content);
  }

  /** The earlier steps of the same evidence. */
  ghost function Before(steps: seq<Step>, i: nat): set<nat>
    requires i < |steps|
  {
    set m: nat | m < i && SameEvidence(steps[m], steps[i])
  }

  lemma {:induction false} RankCounts(steps: seq<Step>, i: nat, n: nat, before: set<nat>)
    requires n <= i < |steps| && before == set m: nat | m < n && SameEvidence(steps[m], steps[i])
    ensures |Positions(Keys(RecoveryKey, steps), RecoveryKey(steps[i]), n)| == |before|
    decreases n
  {
    if n > 0 {
      var last, fewer := n - 1, set m: nat | m < n - 1 && SameEvidence(steps[m], steps[i]);
      RankCounts(steps, i, last, fewer);
      SameKeyIff(steps[last], steps[i]);
      BeforeNext(steps, i, last, fewer, before);
    }
  }

  lemma BeforeNext(steps: seq<Step>, i: nat, n: nat, fewer: set<nat>, before: set<nat>)
    requires n < i < |steps| && fewer == set m: nat | m < n && SameEvidence(steps[m], steps[i])
    requires before == set m: nat | m < n + 1 && SameEvidence(steps[m], steps[i])
    ensures |before| == |fewer| + (if SameEvidence(steps[n], steps[i]) then 1 else 0)
  {
    assert n !in fewer;
    assert before == if SameEvidence(steps[n], steps[i]) then fewer + {n} else fewer;
  }

  /** An existing and a recovered step come out as one exactly if both are the n-th of the same evidence. */
  lemma PairedIff(existing: seq<Step>, recovered: seq<Step>, j: nat, i: nat)
    requires j < |existing| && i < |recovered|
    ensures Place(RecoveryKey, existing, recovered, j) == i <==>
            SameEvidence(existing[j], recovered[i]) && |Before(existing, j)| == |Before(recovered, i)|
  {
    var ek, rk := Keys(RecoveryKey, existing), Keys(RecoveryKey, recovered);
    RankCounts(existing, j, j, Before(existing, j));
    RankCounts(recovered, i, i, Before(recovered, i));
    SameKeyIff(existing[j], recovered[i]);
    PositionOf(rk, i);
    if !IsLeft(RecoveryKey, existing, recovered, j) {
      RankOf(rk, ek[j], Rank(ek, j));
    }
  }

  /**
   * Every existing step comes out, with all it had but its number and, for a result of a tool, the report on the same
   * check; no two do in one place.
   */
  lemma WordingIsKept(existing: seq<Step>, recovered: seq<Step>, j: nat)
    requires j < |existing|
    ensures var p, m := Place(RecoveryKey, existing, recovered, j), Merged(RecoveryKey, existing, recovered);
            && p < |m|
            && m[p] == existing[j].(number := p + 1, content := m[p].content)
            && (m[p].content == existing[j].content ||
                (existing[j].role == ToolCallResponse && SameEvidence(existing[j], m[p])))
    ensures forall i: nat :: i < |existing| && i != j ==>
              Place(RecoveryKey, existing, recovered, i) != Place(RecoveryKey, existing, recovered, j)
  {
    var p := Place(RecoveryKey, existing, recovered, j);
    ExistingStepsAreKept(RecoveryKey, existing, recovered, j);
    if p < |recovered| {
      PairedIff(existing, recovered, j, p);
    }
    forall i: nat | i < |existing| && i != j
      ensures Place(RecoveryKey, existing, recovered, i) != Place(RecoveryKey, existing, recovered, j)
    {
      PlacesAreDistinct(RecoveryKey, existing, recovered, if i < j then i else j, if i < j then j else i);
    }
  }

  /** Two steps of different wording, not both results of tools, come out as two steps with their wording. */
  lemma DifferentWordingBothComeOut(existing: seq<Step>, recovered: seq<Step>, j: nat, i: nat)
    requires j < |existing| && i < |recovered| && existing[j].content != recovered[i].content
    requires existing[j].role != ToolCallResponse
    ensures var p, m := Place(RecoveryKey, existing, recovered, j), Merged(RecoveryKey, existing, recovered);
            && p < |m| && i < |m| && p != i
            && m[p] == existing[j].(number := p + 1)
            && m[i].content == recovered[i].content && m[i].role == recovered[i].role
  {
    WordingIsKept(existing, recovered, j);
    PairedIff(existing, recovered, j, i);
    RecoveryKeyIsStable();
    RecoveredComeFirst(RecoveryKey, existing, recovered);
    SameKeyIff(Merged(RecoveryKey, existing, recovered)[i], recovered[i]);
  }
}
