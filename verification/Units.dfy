/** Cutting the recorded steps of a session into closed attempts, as a restart does. */
module Units {
  import opened Wrappers

  /** What the scan distinguishes: a submitted prompt, a completed (or failed) response, anything else. */
  datatype Kind = Prompt | Response | Other

  datatype Reason = Stop | PromptBoundary

  /** Steps are numbered from 1; both ends are inclusive. */
  datatype Unit = Unit(from: nat, to: nat, reason: Reason)

  /** The kind of step `n`; beyond the steps there is nothing to tell apart. */
  function KindAt(steps: seq<Kind>, n: nat): Kind {
    if 1 <= n <= |steps| then steps[n - 1] else Other
  }

  /** The scan from step `at + 1` on, with the open attempt, if any, and the last boundary found. */
  function Scan(steps: seq<Kind>, at: nat, start: Option<nat>, boundary: nat): seq<Unit>
    decreases |steps| - at
  {
    if at >= |steps| then []
    else
      var number := at + 1;
      match steps[at]
      case Prompt =>
        if start.Some? then [Unit(start.value, at, PromptBoundary)] + Scan(steps, number, Some(number), at)
        else Scan(steps, number, Some(number), boundary)
      case Response =>
        [Unit(if start.Some? then start.value else boundary + 1, number, Stop)] + Scan(steps, number, None, number)
      case Other => Scan(steps, number, start, boundary)
  }

  function ClosedUnits(steps: seq<Kind>, after: nat): seq<Unit> {
    Scan(steps, after, None, after)
  }

  method ClosedEvaluationUnits(steps: seq<Kind>, finalizedThrough: Option<nat>) returns (units: seq<Unit>)
    ensures units == ClosedUnits(steps, if finalizedThrough.Some? then finalizedThrough.value else 0)
  {
    var after := if finalizedThrough.Some? then finalizedThrough.value else 0;
    var start: Option<nat> := None;
    var lastBoundary: nat := after;
    units := [];
    for index := 0 to |steps|
      invariant lastBoundary >= 0
      invariant index <= after ==> start == None && lastBoundary == after && units == []
      invariant index > after ==> lastBoundary <= index && (start.Some? ==> start.value <= index)
      invariant units + Scan(steps, if index <= after then after else index, start, lastBoundary) ==
                  ClosedUnits(steps, after)
    {
      var number := index + 1;
      if number <= after {
        continue;
      }
      if steps[index] == Prompt {
        if start.Some? && number > start.value {
          units := units + [Unit(start.value, number - 1, PromptBoundary)];
          lastBoundary := number - 1;
        }
        start := Some(number);
        continue;
      }
      if steps[index] != Response {
        continue;
      }
      var unitStart := if start.Some? then start.value else lastBoundary + 1;
      if unitStart <= number {
        units := units + [Unit(unitStart, number, Stop)];
      }
      lastBoundary := number;
      start := None;
    }
  }

  // ---- What the cut must be ----

  function LastEnd(units: seq<Unit>, after: nat): nat {
    if units == [] then after else units[|units| - 1].to
  }

  predicate Covered(units: seq<Unit>, n: nat) {
    exists i :: 0 <= i < |units| && units[i].from <= n <= units[i].to
  }

  predicate EndsUnit(units: seq<Unit>, n: nat) {
    exists i :: 0 <= i < |units| && units[i].to == n
  }

  /** What one range of the cut promises; `before` is the end of the previous one. */
  ghost predicate GoodUnit(steps: seq<Kind>, before: nat, u: Unit) {
    && before < u.from <= u.to <= |steps|
    && (u.from == before + 1 || KindAt(steps, u.from) == Prompt)
    && (forall n :: u.from < n <= u.to ==> KindAt(steps, n) != Prompt)
    && (forall n :: u.from <= n < u.to ==> KindAt(steps, n) != Response)
    && (forall n :: before < n < u.from ==> KindAt(steps, n) == Other)
    && (u.reason == Stop ==> KindAt(steps, u.to) == Response)
    && (u.reason == PromptBoundary ==>
          KindAt(steps, u.from) == Prompt && KindAt(steps, u.to + 1) == Prompt && KindAt(steps, u.to) != Response)
  }

  /**
   * The ranges follow one another, each is good, and what is left after the last one holds no response and at
   * most one prompt.
   */
  ghost predicate Cut(steps: seq<Kind>, after: nat, units: seq<Unit>)
    decreases |units|
  {
    if units == [] then
      && (forall n :: n > after ==> KindAt(steps, n) != Response)
      && (forall m, n :: m > after && n > after && KindAt(steps, m) == Prompt && KindAt(steps, n) == Prompt ==> m == n)
    else GoodUnit(steps, after, units[0]) && Cut(steps, units[0].to, units[1..])
  }

  /** What the scan knows about the steps between the last boundary and where it is. */
  ghost predicate ScanState(steps: seq<Kind>, at: nat, start: Option<nat>, boundary: nat) {
    && boundary <= at <= |steps|
    && (start.None? ==> forall n :: boundary < n <= at ==> KindAt(steps, n) == Other)
    && (start.Some? ==>
          && boundary < start.value <= at
          && KindAt(steps, start.value) == Prompt
          && forall n :: boundary < n <= at && n != start.value ==> KindAt(steps, n) == Other)
  }

  lemma {:induction false} ScanCuts(steps: seq<Kind>, at: nat, start: Option<nat>, boundary: nat)
    requires ScanState(steps, at, start, boundary)
    ensures Cut(steps, boundary, Scan(steps, at, start, boundary))
    decreases |steps| - at
  {
    if at < |steps| {
      var number := at + 1;
      var units := Scan(steps, at, start, boundary);
      match steps[at]
      case Prompt =>
        if start.Some? {
          ScanCuts(steps, number, Some(number), at);
          assert units[1..] == Scan(steps, number, Some(number), at);
        } else {
          ScanCuts(steps, number, Some(number), boundary);
        }
      case Response =>
        ScanCuts(steps, number, None, number);
        assert units[1..] == Scan(steps, number, None, number);
      case Other =>
        ScanCuts(steps, number, start, boundary);
    }
  }

  /** Nothing else is a cut: the promises determine the ranges. */
  lemma {:induction false} CutUnique(steps: seq<Kind>, after: nat, a: seq<Unit>, b: seq<Unit>)
    requires Cut(steps, after, a) && Cut(steps, after, b)
    ensures a == b
    decreases |a|
  {
    if a != [] && b != [] {
      FirstUnitUnique(steps, after, a[0], b[0]);
      CutUnique(steps, a[0].to, a[1..], b[1..]);
      assert a == [a[0]] + a[1..] && b == [b[0]] + b[1..];
    } else if a != [] {
      FirstUnitCloses(steps, after, a[0]);
    } else if b != [] {
      FirstUnitCloses(steps, after, b[0]);
    }
  }

  /** A response, or a prompt that another follows. */
  ghost predicate Closes(steps: seq<Kind>, n: nat) {
    || KindAt(steps, n) == Response
    || (KindAt(steps, n) == Prompt && exists m :: m > n && KindAt(steps, m) == Prompt)
  }

  lemma FirstUnitCloses(steps: seq<Kind>, after: nat, u: Unit)
    requires GoodUnit(steps, after, u)
    ensures exists n :: n > after && Closes(steps, n)
  {
    if u.reason == Stop {
      assert Closes(steps, u.to);
    } else {
      assert KindAt(steps, u.from) == Prompt && KindAt(steps, u.to + 1) == Prompt;
      assert Closes(steps, u.from);
    }
  }

  lemma FirstUnitUnique(steps: seq<Kind>, after: nat, a: Unit, b: Unit)
    requires GoodUnit(steps, after, a) && GoodUnit(steps, after, b)
    ensures a == b
  {
    FromNotBefore(steps, after, a, b);
    FromNotBefore(steps, after, b, a);
    ToNotBefore(steps, after, a, b);
    ToNotBefore(steps, after, b, a);
  }

  lemma FromNotBefore(steps: seq<Kind>, after: nat, a: Unit, b: Unit)
    requires GoodUnit(steps, after, a) && GoodUnit(steps, after, b)
    ensures a.from >= b.from
  {
    var kinds := (KindAt(steps, a.from), KindAt(steps, a.to), KindAt(steps, b.from));
  }

  lemma ToNotBefore(steps: seq<Kind>, after: nat, a: Unit, b: Unit)
    requires GoodUnit(steps, after, a) && GoodUnit(steps, after, b) && a.from == b.from
    ensures a.to >= b.to
    ensures a.to == b.to ==> a.reason == b.reason
  {
    var kinds := (KindAt(steps, a.to), KindAt(steps, a.to + 1), KindAt(steps, b.to), KindAt(steps, b.to + 1));
  }

  /** The scan yields the cut, and it is the only one. */
  lemma ClosedUnitsIsTheCut(steps: seq<Kind>, after: nat, units: seq<Unit>)
    requires after <= |steps|
    ensures Cut(steps, after, units) <==> units == ClosedUnits(steps, after)
  {
    ScanCuts(steps, after, None, after);
    if Cut(steps, after, units) {
      CutUnique(steps, after, units, ClosedUnits(steps, after));
    }
  }

  lemma {:induction false} CutInOrder(steps: seq<Kind>, after: nat, units: seq<Unit>, i: nat)
    requires Cut(steps, after, units) && i < |units|
    ensures after < units[i].from <= units[i].to <= |steps|
    ensures i + 1 < |units| ==> units[i].to < units[i + 1].from
    ensures units[i].to <= LastEnd(units, after)
    decreases |units|
  {
    if i > 0 {
      CutInOrder(steps, units[0].to, units[1..], i - 1);
    } else if |units| > 1 {
      CutInOrder(steps, units[0].to, units[1..], |units| - 2);
      CutInOrder(steps, units[0].to, units[1..], 0);
    }
  }

  lemma {:induction false} CutAccounts(steps: seq<Kind>, after: nat, units: seq<Unit>, n: nat)
    requires Cut(steps, after, units) && after < n <= |steps|
    ensures KindAt(steps, n) == Response ==> EndsUnit(units, n)
    ensures n <= LastEnd(units, after) && !Covered(units, n) ==> KindAt(steps, n) == Other
    ensures forall i :: 0 <= i < |units| && units[i].from < n <= units[i].to ==> KindAt(steps, n) != Prompt
    decreases |units|
  {
    if units != [] {
      var u, rest := units[0], units[1..];
      if n <= u.to {
        assert units[0].to == u.to && EndsUnit(units, u.to);
        assert u.from <= n ==> Covered(units, n);
        forall i | 0 <= i < |units| && units[i].from < n <= units[i].to ensures KindAt(steps, n) != Prompt {
          if i > 0 {
            CutInOrder(steps, u.to, rest, i - 1);
          }
        }
      } else {
        CutAccounts(steps, u.to, rest, n);
        if EndsUnit(rest, n) {
          var i :| 0 <= i < |rest| && rest[i].to == n;
          assert units[i + 1].to == n;
        }
        if Covered(rest, n) {
          var i :| 0 <= i < |rest| && rest[i].from <= n <= rest[i].to;
          assert units[i + 1].from <= n <= units[i + 1].to;
        }
        forall i | 0 <= i < |units| && units[i].from < n <= units[i].to ensures KindAt(steps, n) != Prompt {
          assert i > 0 && units[i] == rest[i - 1];
        }
      }
    }
  }

  /**
   * What the scan promises, in terms of steps: the ranges are increasing, disjoint and beyond the finalised point;
   * every response there ends exactly one of them; a prompt is only ever the first step of a range; and whatever
   * lies between the ranges is neither.
   */
  lemma ClosedUnitsPromises(steps: seq<Kind>, after: nat)
    requires after <= |steps|
    ensures var units := ClosedUnits(steps, after);
            && (forall i :: 0 <= i < |units| ==> after < units[i].from <= units[i].to <= |steps|)
            && (forall i, j :: 0 <= i < j < |units| ==> units[i].to < units[j].from)
            && (forall n :: after < n && KindAt(steps, n) == Response ==> EndsUnit(units, n))
            && (forall i, n :: 0 <= i < |units| && units[i].from < n <= units[i].to ==> KindAt(steps, n) != Prompt)
            && (forall n :: after < n <= LastEnd(units, after) && !Covered(units, n) ==> KindAt(steps, n) == Other)
  {
    var units := ClosedUnits(steps, after);
    ScanCuts(steps, after, None, after);
    forall i | 0 <= i < |units|
      ensures after < units[i].from <= units[i].to <= |steps| && (i + 1 < |units| ==> units[i].to < units[i + 1].from)
    {
      CutInOrder(steps, after, units, i);
    }
    Increasing(units);
    forall n | after < n <= |steps|
      ensures KindAt(steps, n) == Response ==> EndsUnit(units, n)
      ensures n <= LastEnd(units, after) && !Covered(units, n) ==> KindAt(steps, n) == Other
      ensures forall i :: 0 <= i < |units| && units[i].from < n <= units[i].to ==> KindAt(steps, n) != Prompt
    {
      CutAccounts(steps, after, units, n);
    }
  }

  lemma {:induction false} Increasing(units: seq<Unit>)
    requires forall i :: 0 <= i < |units| ==> units[i].from <= units[i].to
    requires forall i :: 0 <= i && i + 1 < |units| ==> units[i].to < units[i + 1].from
    ensures forall i, j :: 0 <= i < j < |units| ==> units[i].to < units[j].from
  {
    if |units| > 1 {
      var front := units[..|units| - 1];
      forall i | 0 <= i && i + 1 < |front| ensures front[i].to < front[i + 1].from {
        assert units[i].to < units[i + 1].from;
      }
      Increasing(front);
      var last := |units| - 1;
      assert units[last - 1].to < units[last - 1 + 1].from;
      forall i, j | 0 <= i < j < |units| ensures units[i].to < units[j].from {
        if j < last {
          assert front[i].to < front[j].from;
        } else if i < last - 1 {
          assert front[i].to < front[last - 1].from;
        }
      }
    }
  }

  /** Once the last range is finalised, scanning again finds nothing. */
  lemma RescanFindsNothing(steps: seq<Kind>, after: nat)
    requires after <= |steps|
    ensures ClosedUnits(steps, LastEnd(ClosedUnits(steps, after), after)) == []
  {
    var units := ClosedUnits(steps, after);
    ScanCuts(steps, after, None, after);
    CutTail(steps, after, units);
    var end := LastEnd(units, after);
    if units != [] {
      CutInOrder(steps, after, units, |units| - 1);
    }
    ClosedUnitsIsTheCut(steps, end, []);
  }

  lemma {:induction false} CutTail(steps: seq<Kind>, after: nat, units: seq<Unit>)
    requires Cut(steps, after, units)
    ensures Cut(steps, LastEnd(units, after), [])
    decreases |units|
  {
    if units != [] {
      CutTail(steps, units[0].to, units[1..]);
    }
  }
}
