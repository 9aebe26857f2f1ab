/** Delivering a growing log to a reader that may be cut off anywhere and comes back with the cursor it last saw. */
module Stream {
  import opened Wrappers

  type Entry(!new)

  /** What a reader is authorised to see at some time, and what every request for authorisation is answered. */
  type View = Entry -> bool
  type Authority = nat -> View

  /** The positions, counted from one, of the visible entries after `from` up to and including `upto`. */
  function Allowed(log: seq<Entry>, view: View, from: nat, upto: nat): seq<nat>
    requires upto <= |log|
  {
    if upto <= from then [] else Allowed(log, view, from, upto - 1) + (if view(log[upto - 1]) then [upto] else [])
  }

  datatype Batch = Batch(positions: seq<nat>, scannedThrough: Option<nat>)

  function PageEnd(log: seq<Entry>, after: nat, limit: nat): nat {
    if after + limit < |log| then after + limit else |log|
  }

  /** One page: it is scanned whole, and only then filtered. */
  function StreamEntries(log: seq<Entry>, view: View, after: nat, limit: nat): Batch {
    var end := PageEnd(log, after, limit);
    Batch(Allowed(log, view, after, end), if end > after then Some(end) else None)
  }

  // ---- Visible positions ----

  lemma {:induction false} AllowedConcat(log: seq<Entry>, view: View, from: nat, mid: nat, upto: nat)
    requires from <= mid <= upto <= |log|
    ensures Allowed(log, view, from, upto) == Allowed(log, view, from, mid) + Allowed(log, view, mid, upto)
    decreases upto
  {
    if mid < upto {
      AllowedConcat(log, view, from, mid, upto - 1);
    }
  }

  /** Just the visible positions of the range, each once and in order. */
  lemma {:induction false} AllowedMeans(log: seq<Entry>, view: View, from: nat, upto: nat)
    requires upto <= |log|
    ensures forall p :: p in Allowed(log, view, from, upto) <==> from < p <= upto && view(log[p - 1])
    ensures forall i, j :: 0 <= i < j < |Allowed(log, view, from, upto)| ==>
              Allowed(log, view, from, upto)[i] < Allowed(log, view, from, upto)[j]
    decreases upto
  {
    if from < upto {
      AllowedMeans(log, view, from, upto - 1);
      var front := Allowed(log, view, from, upto - 1);
      assert forall i :: 0 <= i < |front| ==> front[i] in front;
    }
  }

  lemma {:induction false} AllowedGrows(log: seq<Entry>, more: seq<Entry>, view: View, from: nat, upto: nat)
    requires upto <= |log|
    ensures Allowed(log + more, view, from, upto) == Allowed(log, view, from, upto)
    decreases upto
  {
    if from < upto {
      AllowedGrows(log, more, view, from, upto - 1);
    }
  }

  /** Up to one of its own positions, the range has just what comes before. */
  lemma {:induction false} AllowedUpTo(log: seq<Entry>, view: View, from: nat, upto: nat, k: nat)
    requires upto <= |log| && k < |Allowed(log, view, from, upto)|
    ensures var p := Allowed(log, view, from, upto)[k];
            from < p <= upto && Allowed(log, view, from, p) == Allowed(log, view, from, upto)[..k + 1]
    decreases upto
  {
    var front := Allowed(log, view, from, upto - 1);
    if k < |front| {
      AllowedUpTo(log, view, from, upto - 1, k);
      assert Allowed(log, view, from, upto)[..k + 1] == front[..k + 1];
    } else {
      assert Allowed(log, view, from, upto)[..k + 1] == Allowed(log, view, from, upto);
    }
  }

  // ---- Sending a page ----

  predicate Sees(log: seq<Entry>, view: View, p: nat) {
    1 <= p <= |log| && view(log[p - 1])
  }

  /** Before each event of a page leaves, the reader is authorised again; `asked` counts the requests so far. */
  function Shown(log: seq<Entry>, authority: Authority, positions: seq<nat>, asked: nat): seq<nat> {
    if positions == [] then []
    else
      var n := |positions| - 1;
      Shown(log, authority, positions[..n], asked) +
      if Sees(log, authority(asked + n), positions[n]) then [positions[n]] else []
  }

  /** What became of an entry that the cursor has passed, and by which answer. */
  datatype Fate = Sent(at: nat) | Withheld(at: nat)

  function FateAt(log: seq<Entry>, authority: Authority, p: nat, at: nat): Fate {
    if Sees(log, authority(at), p) then Sent(at) else Withheld(at)
  }

  /** The fates of the events that a page offers. */
  function Fates(log: seq<Entry>, authority: Authority, positions: seq<nat>, asked: nat): map<nat, Fate> {
    if positions == [] then map[]
    else
      var n := |positions| - 1;
      Fates(log, authority, positions[..n], asked)[positions[n] := FateAt(log, authority, positions[n], asked + n)]
  }

  /** The first of the events that a page offers, as many as are looked at. */
  function Looked(log: seq<Entry>, view: View, from: nat, upto: nat, sent: nat): seq<nat>
    requires upto <= |log|
  {
    var offered := Allowed(log, view, from, upto);
    if sent < |offered| then offered[..sent] else offered
  }

  /** What the first answer did not allow is not even offered. */
  function Unoffered(log: seq<Entry>, authority: Authority, from: nat, upto: nat, asked: nat): map<nat, Fate> {
    map p | from < p <= upto && !Sees(log, authority(asked), p) :: Withheld(asked)
  }

  /** The fates of all entries of a page. */
  function PageFates(log: seq<Entry>, authority: Authority, from: nat, upto: nat, sent: nat, asked: nat): map<nat, Fate>
    requires upto <= |log|
  {
    Unoffered(log, authority, from, upto, asked) +
    Fates(log, authority, Looked(log, authority(asked), from, upto, sent), asked + 1)
  }

  ghost predicate Rising(positions: seq<nat>) {
    forall i, j :: 0 <= i < j < |positions| ==> positions[i] < positions[j]
  }

  lemma LookedRises(log: seq<Entry>, view: View, from: nat, upto: nat, sent: nat)
    requires upto <= |log|
    ensures Rising(Looked(log, view, from, upto, sent))
  {
    AllowedMeans(log, view, from, upto);
  }

  lemma LookedAt(log: seq<Entry>, view: View, from: nat, upto: nat, sent: nat, p: nat)
    requires upto <= |log|
    ensures p in Looked(log, view, from, upto, sent) ==> from < p <= upto && Sees(log, view, p)
    ensures sent >= |Allowed(log, view, from, upto)| && from < p <= upto && Sees(log, view, p) ==>
              p in Looked(log, view, from, upto, sent)
  {
    AllowedMeans(log, view, from, upto);
    var looked, offered := Looked(log, view, from, upto, sent), Allowed(log, view, from, upto);
    assert p in looked ==> p in offered;
  }

  /** What is looked at is looked at in order. */
  lemma LookedBefore(log: seq<Entry>, view: View, from: nat, upto: nat, sent: nat, p: nat, q: nat)
    requires upto <= |log| && p in Looked(log, view, from, upto, sent) && from < q <= p && Sees(log, view, q)
    ensures q in Looked(log, view, from, upto, sent)
  {
    AllowedMeans(log, view, from, upto);
    var looked, offered := Looked(log, view, from, upto, sent), Allowed(log, view, from, upto);
    var i :| 0 <= i < |looked| && looked[i] == p;
    assert offered[i] == p && p in offered && q in offered;
    var j :| 0 <= j < |offered| && offered[j] == q;
    assert j <= i && looked[j] == q;
  }

  /** What the answers said of one entry. */
  ghost predicate Truthful(log: seq<Entry>, authority: Authority, fates: map<nat, Fate>, asked: nat, p: nat) {
    p in fates ==> fates[p].at < asked && (fates[p].Sent? <==> Sees(log, authority(fates[p].at), p))
  }

  lemma {:induction false} FateAmong(log: seq<Entry>, authority: Authority, positions: seq<nat>, asked: nat, p: nat)
    requires Rising(positions)
    ensures var fates := Fates(log, authority, positions, asked);
            && (p in fates <==> p in positions)
            && Truthful(log, authority, fates, asked + |positions|, p)
            && (p in Shown(log, authority, positions, asked) <==> p in fates && fates[p].Sent?)
    decreases |positions|
  {
    if positions != [] {
      var n := |positions| - 1;
      var front, x := positions[..n], positions[n];
      FateAmong(log, authority, front, asked, p);
      assert positions == front + [x] && (p in front ==> p < x);
      FatesSnoc(log, authority, front, x, asked);
      FateNext(log, authority, Fates(log, authority, front, asked), Shown(log, authority, front, asked), x, asked + n,
          p);
    }
  }

  lemma FatesSnoc(log: seq<Entry>, authority: Authority, front: seq<nat>, x: nat, asked: nat)
    ensures Fates(log, authority, front + [x], asked) ==
            Fates(log, authority, front, asked)[x := FateAt(log, authority, x, asked + |front|)]
    ensures Shown(log, authority, front + [x], asked) ==
            Shown(log, authority, front, asked) + (if Sees(log, authority(asked + |front|), x) then [x] else [])
  {
    assert (front + [x])[..|front|] == front;
  }

  lemma FateNext(log: seq<Entry>, authority: Authority, fates: map<nat, Fate>, shown: seq<nat>, x: nat, at: nat, p: nat)
    requires Truthful(log, authority, fates, at, p) && (p in shown <==> p in fates && fates[p].Sent?)
    requires p in fates ==> p != x
    ensures var more := fates[x := FateAt(log, authority, x, at)];
            && Truthful(log, authority, more, at + 1, p)
            && (p in shown + (if Sees(log, authority(at), x) then [x] else []) <==> p in more && more[p].Sent?)
  {
  }

  lemma {:induction false} ShownRises(log: seq<Entry>, authority: Authority, positions: seq<nat>, asked: nat)
    requires Rising(positions)
    ensures Rising(Shown(log, authority, positions, asked))
    ensures forall p :: p in Shown(log, authority, positions, asked) ==> p in positions
    decreases |positions|
  {
    if positions != [] {
      var n := |positions| - 1;
      var front := positions[..n];
      ShownRises(log, authority, front, asked);
      var shown := Shown(log, authority, front, asked);
      forall i | 0 <= i < |shown| ensures shown[i] < positions[n] {
        assert shown[i] in shown && shown[i] in front;
      }
    }
  }

  // ---- A reader over many connections ----

  /** `cursor` is the server's, which may be ahead of the last event that was sent. */
  datatype Session = Session(log: seq<Entry>, cursor: nat, delivered: seq<nat>, asked: nat, fates: map<nat, Fate>)

  datatype Action =
    | Grow(more: seq<Entry>)
    | Poll(limit: nat)
    | Break(limit: nat, sent: nat)  // the connection is lost after so many events of a page were looked at

  function Begun(log: seq<Entry>, start: nat): Session {
    Session(log, start, [], 0, map[])
  }

  function LastSeen(start: nat, delivered: seq<nat>): nat {
    if delivered == [] then start else delivered[|delivered| - 1]
  }

  /**
   * What a page sends if the first `sent` of its events are looked at, how often authority was asked, and the cursor.
   */
  function Page(log: seq<Entry>, authority: Authority, cursor: nat, asked: nat, limit: nat, sent: nat): (seq<nat>,
      nat, nat) {
    var end := PageEnd(log, cursor, limit);
    var looked := Looked(log, authority(asked), cursor, end, sent);
    (Shown(log, authority, looked, asked + 1), asked + 1 + |looked|, if end > cursor then end else cursor)
  }

  function Paged(authority: Authority, s: Session, limit: nat, sent: nat): Session {
    var (shown, asked, cursor) := Page(s.log, authority, s.cursor, s.asked, limit, sent);
    var end := PageEnd(s.log, s.cursor, limit);
    s.(delivered := s.delivered + shown, asked := asked, cursor := cursor,
       fates := s.fates + PageFates(s.log, authority, s.cursor, end, sent, s.asked))
  }

  function UpTo(fates: map<nat, Fate>, cursor: nat): map<nat, Fate> {
    map p | p in fates && p <= cursor :: fates[p]
  }

  function Apply(authority: Authority, start: nat, s: Session, a: Action): Session {
    match a
    case Grow(more) => s.(log := s.log + more)
    case Poll(limit) => Paged(authority, s, limit, limit)
    case Break(limit, sent) =>
      var t := Paged(authority, s, limit, sent);
      var cursor := LastSeen(start, t.delivered);
      t.(cursor := cursor, fates := UpTo(t.fates, cursor))
  }

  function Run(authority: Authority, start: nat, s: Session, actions: seq<Action>): Session
    decreases |actions|
  {
    if actions == [] then s else Run(authority, start, Apply(authority, start, s, actions[0]), actions[1..])
  }

  /** An entry up to the cursor has met its fate, and is delivered just if that was to be sent. */
  ghost predicate Settled(authority: Authority, start: nat, s: Session, p: nat) {
    && (p in s.fates <==> start < p <= s.cursor)
    && Truthful(s.log, authority, s.fates, s.asked, p)
    && (p in s.delivered <==> p in s.fates && s.fates[p].Sent?)
  }

  ghost predicate UpToDate(authority: Authority, start: nat, s: Session) {
    start <= s.cursor <= |s.log| && Rising(s.delivered) && forall p: nat :: Settled(authority, start, s, p)
  }

  lemma {:induction false} AllowedBound(log: seq<Entry>, view: View, from: nat, upto: nat)
    requires upto <= |log|
    ensures |Allowed(log, view, from, upto)| <= if from < upto then upto - from else 0
    decreases upto
  {
    if from < upto {
      AllowedBound(log, view, from, upto - 1);
    }
  }

  /** What a page makes of one entry. */
  lemma PageFate(authority: Authority, s: Session, limit: nat, sent: nat, p: nat)
    requires s.cursor <= |s.log|
    ensures var t, end := Paged(authority, s, limit, sent), PageEnd(s.log, s.cursor, limit);
            var shown := Page(s.log, authority, s.cursor, s.asked, limit, sent).0;
            var fates := PageFates(s.log, authority, s.cursor, end, sent, s.asked);
            && s.cursor <= t.cursor == end <= |s.log| && t.asked > s.asked
            && Truthful(s.log, authority, fates, t.asked, p)
            && (p in fates ==> s.cursor < p <= end)
            && (p in shown <==> p in fates && fates[p].Sent?)
            && (sent >= |Allowed(s.log, authority(s.asked), s.cursor, end)| && s.cursor < p <= end ==> p in fates)
  {
    var end := PageEnd(s.log, s.cursor, limit);
    var looked := Looked(s.log, authority(s.asked), s.cursor, end, sent);
    LookedRises(s.log, authority(s.asked), s.cursor, end, sent);
    LookedAt(s.log, authority(s.asked), s.cursor, end, sent, p);
    FateAmong(s.log, authority, looked, s.asked + 1, p);
  }

  /** Up to an event that was sent, all entries of the page have met their fates. */
  lemma PageFateBefore(authority: Authority, s: Session, limit: nat, sent: nat, p: nat, q: nat)
    requires s.cursor <= |s.log| && s.cursor < q <= p
    requires p in Page(s.log, authority, s.cursor, s.asked, limit, sent).0
    ensures q in PageFates(s.log, authority, s.cursor, PageEnd(s.log, s.cursor, limit), sent, s.asked)
  {
    var view, end := authority(s.asked), PageEnd(s.log, s.cursor, limit);
    var looked := Looked(s.log, view, s.cursor, end, sent);
    LookedRises(s.log, view, s.cursor, end, sent);
    FateAmong(s.log, authority, looked, s.asked + 1, p);
    LookedAt(s.log, view, s.cursor, end, sent, p);
    if Sees(s.log, view, q) {
      LookedBefore(s.log, view, s.cursor, end, sent, p, q);
    }
    FateAmong(s.log, authority, looked, s.asked + 1, q);
  }

  lemma PageRises(authority: Authority, s: Session, limit: nat, sent: nat)
    requires s.cursor <= |s.log|
    ensures var shown := Page(s.log, authority, s.cursor, s.asked, limit, sent).0;
            Rising(shown) && forall p :: p in shown ==> s.cursor < p <= PageEnd(s.log, s.cursor, limit)
  {
    var end := PageEnd(s.log, s.cursor, limit);
    var looked := Looked(s.log, authority(s.asked), s.cursor, end, sent);
    LookedRises(s.log, authority(s.asked), s.cursor, end, sent);
    ShownRises(s.log, authority, looked, s.asked + 1);
    forall p | p in looked ensures s.cursor < p <= end {
      LookedAt(s.log, authority(s.asked), s.cursor, end, sent, p);
    }
  }

  lemma DeliveredJoin(s: Session, shown: seq<nat>)
    requires Rising(s.delivered) && Rising(shown)
    requires forall p :: p in s.delivered ==> p <= s.cursor
    requires forall p :: p in shown ==> p > s.cursor
    ensures Rising(s.delivered + shown)
  {
    var all := s.delivered + shown;
    forall i, j | 0 <= i < j < |all| ensures all[i] < all[j] {
      assert i < |s.delivered| ==> s.delivered[i] in s.delivered;
      assert j >= |s.delivered| ==> shown[j - |s.delivered|] in shown;
    }
  }

  /** A page after what has met its fate, up to a point that all entries before have met theirs. */
  lemma PageJoins(authority: Authority, start: nat, s: Session, limit: nat, sent: nat, cursor: nat, p: nat)
    requires s.cursor <= |s.log| && Settled(authority, start, s, p)
    requires var t := Paged(authority, s, limit, sent);
             var fates := PageFates(s.log, authority, s.cursor, PageEnd(s.log, s.cursor, limit), sent, s.asked);
             && start <= cursor <= t.cursor && start <= s.cursor
             && (s.cursor < p <= cursor ==> p in fates)
             && (p in t.delivered ==> p <= cursor)
    ensures var t := Paged(authority, s, limit, sent);
            Settled(authority, start, t.(cursor := cursor, fates := UpTo(t.fates, cursor)), p)
  {
    PageFate(authority, s, limit, sent, p);
  }

  lemma DeliveredRises(authority: Authority, start: nat, s: Session, limit: nat, sent: nat)
    requires UpToDate(authority, start, s)
    ensures var t := Paged(authority, s, limit, sent);
            Rising(t.delivered) && forall p :: p in t.delivered ==> p <= t.cursor
  {
    PageRises(authority, s, limit, sent);
    forall p | p in s.delivered ensures p <= s.cursor {
      assert Settled(authority, start, s, p);
    }
    DeliveredJoin(s, Page(s.log, authority, s.cursor, s.asked, limit, sent).0);
  }

  lemma PollStep(authority: Authority, start: nat, s: Session, limit: nat)
    requires UpToDate(authority, start, s)
    ensures UpToDate(authority, start, Apply(authority, start, s, Poll(limit)))
  {
    var t := Paged(authority, s, limit, limit);
    AllowedBound(s.log, authority(s.asked), s.cursor, PageEnd(s.log, s.cursor, limit));
    DeliveredRises(authority, start, s, limit, limit);
    forall p: nat ensures Settled(authority, start, t, p) {
      assert Settled(authority, start, s, p);
      PageFate(authority, s, limit, limit, p);
    }
  }

  lemma LastIsLatest(start: nat, delivered: seq<nat>)
    requires Rising(delivered)
    ensures forall p :: p in delivered ==> p <= LastSeen(start, delivered)
    ensures delivered != [] ==> LastSeen(start, delivered) in delivered
  {
  }

  lemma LastOfJoin(start: nat, before: seq<nat>, shown: seq<nat>)
    ensures LastSeen(start, before + shown) == if shown == [] then LastSeen(start, before) else LastSeen(start, shown)
  {
    assert shown == [] ==> before + shown == before;
  }

  lemma BreakStep(authority: Authority, start: nat, s: Session, limit: nat, sent: nat)
    requires UpToDate(authority, start, s)
    ensures UpToDate(authority, start, Apply(authority, start, s, Break(limit, sent)))
  {
    var t := Paged(authority, s, limit, sent);
    var cursor := LastSeen(start, t.delivered);
    BreakCursor(authority, start, s, limit, sent);
    var u := Apply(authority, start, s, Break(limit, sent));
    forall p: nat ensures Settled(authority, start, u, p) {
      assert Settled(authority, start, s, p);
      if s.cursor < p <= cursor {
        PageFateBefore(authority, s, limit, sent, cursor, p);
      }
      PageJoins(authority, start, s, limit, sent, cursor, p);
    }
  }

  /** Where a reader goes on after a broken connection: at its last event, be it of this page or of one before. */
  lemma BreakCursor(authority: Authority, start: nat, s: Session, limit: nat, sent: nat)
    requires UpToDate(authority, start, s)
    ensures var t := Paged(authority, s, limit, sent);
            var cursor := LastSeen(start, t.delivered);
            && Rising(t.delivered)
            && start <= cursor <= t.cursor <= |s.log|
            && (forall p :: p in t.delivered ==> p <= cursor)
            && (cursor > s.cursor ==> cursor in Page(s.log, authority, s.cursor, s.asked, limit, sent).0)
  {
    var t := Paged(authority, s, limit, sent);
    var shown := Page(s.log, authority, s.cursor, s.asked, limit, sent).0;
    DeliveredRises(authority, start, s, limit, sent);
    PageRises(authority, s, limit, sent);
    PageFate(authority, s, limit, sent, 0);
    LastIsLatest(start, t.delivered);
    LastIsLatest(start, s.delivered);
    LastIsLatest(start, shown);
    LastOfJoin(start, s.delivered, shown);
    assert Settled(authority, start, s, LastSeen(start, s.delivered));
  }

  lemma GrowStep(authority: Authority, start: nat, s: Session, more: seq<Entry>)
    requires UpToDate(authority, start, s)
    ensures UpToDate(authority, start, Apply(authority, start, s, Grow(more)))
  {
    forall p: nat ensures Settled(authority, start, Apply(authority, start, s, Grow(more)), p) {
      assert Settled(authority, start, s, p);
    }
  }

  lemma {:induction false} RunUpToDate(authority: Authority, start: nat, s: Session, actions: seq<Action>)
    requires UpToDate(authority, start, s)
    ensures UpToDate(authority, start, Run(authority, start, s, actions)) &&
            s.log <= Run(authority, start, s, actions).log
    decreases |actions|
  {
    if actions != [] {
      match actions[0] {
        case Grow(more) => GrowStep(authority, start, s, more);
        case Poll(limit) => PollStep(authority, start, s, limit);
        case Break(limit, sent) => BreakStep(authority, start, s, limit, sent);
      }
      RunUpToDate(authority, start, Apply(authority, start, s, actions[0]), actions[1..]);
    }
  }

  /**
   * Over any run of growth, polls and broken connections, and however authority changes meanwhile: each entry between
   * the starting point and the cursor was either sent, once and in order, under an answer that allowed it, or withheld
   * under one that did not.
   */
  lemma SentOrWithheld(authority: Authority, log: seq<Entry>, start: nat, actions: seq<Action>)
    requires start <= |log|
    ensures var s := Run(authority, start, Begun(log, start), actions);
            && start <= s.cursor <= |s.log|
            && (forall p :: p in s.fates <==> start < p <= s.cursor)
            && (forall p :: p in s.fates ==> 1 <= p <= |s.log| && s.fates[p].at < s.asked)
            && (forall p :: p in s.fates ==> (p in s.delivered <==> authority(s.fates[p].at)(s.log[p - 1])))
            && (forall p :: p in s.delivered ==> p in s.fates)
            && Rising(s.delivered)
  {
    BegunUpToDate(authority, log, start);
    RunUpToDate(authority, start, Begun(log, start), actions);
    var s := Run(authority, start, Begun(log, start), actions);
    forall p: nat
      ensures p in s.fates <==> start < p <= s.cursor
      ensures p in s.fates ==> 1 <= p <= |s.log| && s.fates[p].at < s.asked
      ensures p in s.fates ==> (p in s.delivered <==> authority(s.fates[p].at)(s.log[p - 1]))
      ensures p in s.delivered ==> p in s.fates
    {
      assert Settled(authority, start, s, p);
    }
  }

  lemma BegunUpToDate(authority: Authority, log: seq<Entry>, start: nat)
    requires start <= |log|
    ensures UpToDate(authority, start, Begun(log, start))
  {
    forall p: nat ensures Settled(authority, start, Begun(log, start), p) {
    }
  }

  /**
   * Over any run under an authority that does not change, what has been delivered and what is still to come from the
   * cursor on are together just the visible entries after the starting point, each once and in order.
   */
  lemma NothingMissedOrRepeated(view: View, log: seq<Entry>, start: nat, actions: seq<Action>)
    requires start <= |log|
    ensures var s := Run((n: nat) => view, start, Begun(log, start), actions);
            && s.cursor <= |s.log|
            && s.delivered + Allowed(s.log, view, s.cursor, |s.log|) == Allowed(s.log, view, start, |s.log|)
            && (forall p :: p in s.delivered <==> start < p <= s.cursor && view(s.log[p - 1]))
            && Rising(s.delivered)
  {
    var authority := (n: nat) => view;
    BegunUpToDate(authority, log, start);
    RunUpToDate(authority, start, Begun(log, start), actions);
    var s := Run(authority, start, Begun(log, start), actions);
    AllowedConcat(s.log, view, start, s.cursor, |s.log|);
    AllowedMeans(s.log, view, start, s.cursor);
    forall p: nat ensures p in s.delivered <==> start < p <= s.cursor && view(s.log[p - 1]) {
      assert Settled(authority, start, s, p);
    }
    SameRising(s.delivered, Allowed(s.log, view, start, s.cursor));
  }

  lemma RisingFront(a: seq<nat>)
    requires Rising(a) && a != []
    ensures var x, front := a[|a| - 1], a[..|a| - 1];
            && a == front + [x] && Rising(front)
            && (forall p :: p in a ==> p <= x)
            && (forall p :: p in front <==> p in a && p != x)
  {
  }

  lemma EmptyAlike(a: seq<nat>, b: seq<nat>)
    requires forall p :: p in a <==> p in b
    ensures a == [] <==> b == []
  {
    if a != [] {
      assert a[0] in b;
    }
    if b != [] {
      assert b[0] in a;
    }
  }

  lemma {:induction false} SameRising(a: seq<nat>, b: seq<nat>)
    requires Rising(a) && Rising(b) && forall p :: p in a <==> p in b
    ensures a == b
    decreases |a|
  {
    EmptyAlike(a, b);
    if a != [] {
      RisingFront(a);
      RisingFront(b);
      assert a[|a| - 1] in b && b[|b| - 1] in a;
      SameRising(a[..|a| - 1], b[..|b| - 1]);
    }
  }

  /** Resuming after a delivered event or after the page it was in makes no difference to what follows. */
  lemma EitherCursorResumes(view: View, log: seq<Entry>, after: nat, limit: nat, k: nat)
    requires after <= |log| && k < |StreamEntries(log, view, after, limit).positions|
    ensures var batch := StreamEntries(log, view, after, limit);
            && batch.scannedThrough.Some?
            && Allowed(log, view, batch.positions[k], |log|) ==
               batch.positions[k + 1..] + Allowed(log, view, batch.scannedThrough.value, |log|)
  {
    var end := PageEnd(log, after, limit);
    var batch := StreamEntries(log, view, after, limit);
    AllowedUpTo(log, view, after, end, k);
    var p := batch.positions[k];
    AllowedConcat(log, view, after, p, end);
    assert Allowed(log, view, p, end) == batch.positions[k + 1..];
    AllowedConcat(log, view, p, end, |log|);
  }

  // ---- One connection ----

  class EventStream {
    var cursor: nat
    var closed: bool
    var sent: seq<nat>
    var asked: nat

    constructor (initial: Option<nat>)
      ensures cursor == (if initial.Some? then initial.value else 0) && !closed && sent == [] && asked == 0
    {
      cursor := if initial.Some? then initial.value else 0;
      closed, sent, asked := false, [], 0;
    }

    /** Sends events one after another, each only if it is still allowed, until the connection breaks. */
    method Send(log: seq<Entry>, authority: Authority, positions: seq<nat>, breaksAfter: Option<nat>)
      requires !closed && forall p :: p in positions ==> 1 <= p <= |log|
      modifies `sent, `asked, `closed
      ensures closed == (breaksAfter.Some? && breaksAfter.value < |positions|)
      ensures var looked := if closed then positions[..breaksAfter.value] else positions;
              sent == old(sent) + Shown(log, authority, looked, old(asked)) && asked == old(asked) + |looked|
    {
      for i := 0 to |positions|
        invariant !closed && sent == old(sent) + Shown(log, authority, positions[..i], old(asked))
        invariant asked == old(asked) + i
        invariant breaksAfter.Some? ==> i <= breaksAfter.value
      {
        if breaksAfter == Some(i) {
          closed := true;
          return;
        }
        assert positions[i] in positions && positions[..i + 1][..i] == positions[..i];
        var allowed := authority(asked)(log[positions[i] - 1]);
        asked := asked + 1;
        if allowed {
          sent := sent + [positions[i]];
        }
      }
      assert positions[..|positions|] == positions;
    }

    /** Sends one page, unless the connection breaks on the way; the cursor moves past all that was scanned. */
    method Poll(log: seq<Entry>, authority: Authority, limit: nat, breaksAfter: Option<nat>) returns (progressed: bool)
      modifies this
      ensures old(closed) ==> closed && sent == old(sent) && cursor == old(cursor) && asked == old(asked)
      ensures !old(closed) ==>
                var offered := StreamEntries(log, authority(old(asked)), old(cursor), limit).positions;
                var looked := if closed && breaksAfter.Some? then breaksAfter.value else |offered|;
                var page := Page(log, authority, old(cursor), old(asked), limit, looked);
                && closed == (breaksAfter.Some? && breaksAfter.value < |offered|)
                && sent == old(sent) + page.0 && asked == page.1 && cursor == page.2
      ensures progressed <==> !closed && cursor > old(cursor)
    {
      if closed {
        return false;
      }
      var view := authority(asked);
      asked := asked + 1;
      var batch := StreamEntries(log, view, cursor, limit);
      AllowedMeans(log, view, cursor, PageEnd(log, cursor, limit));
      Send(log, authority, batch.positions, breaksAfter);
      progressed := !closed && batch.scannedThrough.Some? && batch.scannedThrough.value > cursor;
      if batch.scannedThrough.Some? {
        cursor := batch.scannedThrough.value;
      }
    }

    /** Goes on for as long as pages are scanned, be they all withheld, and so ends at the end of the log. */
    method Drain(log: seq<Entry>, authority: Authority, limit: nat) returns (ghost polls: nat)
      requires !closed && limit > 0
      modifies this
      ensures !closed
      ensures cursor == (if old(cursor) < |log| then |log| else old(cursor))
      ensures var s := Session(log, old(cursor), old(sent), old(asked), map[]);
              var t := Run(authority, old(cursor), s, Polls(limit, polls));
              t.log == log && sent == t.delivered && cursor == t.cursor && asked == t.asked
    {
      ghost var s := Session(log, cursor, sent, asked, map[]);
      polls := 0;
      var progressed := true;
      while progressed
        invariant !closed && s.cursor <= cursor
        invariant if s.cursor <= |log| then cursor <= |log| else cursor == s.cursor
        invariant !progressed ==> cursor >= |log|
        invariant var t := Run(authority, s.cursor, s, Polls(limit, polls));
                  t.log == log && sent == t.delivered && cursor == t.cursor && asked == t.asked
        decreases progressed, if cursor < |log| then |log| - cursor else 0
      {
        AllOfPage(log, authority, cursor, asked, limit);
        RunSnoc(authority, s.cursor, s, Polls(limit, polls), Action.Poll(limit));
        progressed := Poll(log, authority, limit, None);
        polls := polls + 1;
      }
    }
  }

  /** So many polls one after another. */
  function Polls(limit: nat, polls: nat): seq<Action> {
    if polls == 0 then [] else Polls(limit, polls - 1) + [Poll(limit)]
  }

  lemma {:induction false} RunSnoc(authority: Authority, start: nat, s: Session, actions: seq<Action>, a: Action)
    ensures Run(authority, start, s, actions + [a]) == Apply(authority, start, Run(authority, start, s, actions), a)
    decreases |actions|
  {
    var all := actions + [a];
    if actions == [] {
      assert all[1..] == [];
    } else {
      assert all[0] == actions[0] && all[1..] == actions[1..] + [a];
      RunSnoc(authority, start, Apply(authority, start, s, actions[0]), actions[1..], a);
    }
  }

  /** A limit offers no more events than it says, so looking at as many is looking at all. */
  lemma AllOfPage(log: seq<Entry>, authority: Authority, cursor: nat, asked: nat, limit: nat)
    ensures var offered := StreamEntries(log, authority(asked), cursor, limit).positions;
            Page(log, authority, cursor, asked, limit, |offered|) == Page(log, authority, cursor, asked, limit, limit)
  {
    AllowedBound(log, authority(asked), cursor, PageEnd(log, cursor, limit));
  }

  /** Drained under an authority that does not change, the stream has sent just the visible entries. */
  lemma DrainedSendsVisible(view: View, log: seq<Entry>, start: nat, limit: nat, polls: nat)
    requires start <= |log|
    ensures var t := Run((n: nat) => view, start, Begun(log, start), Polls(limit, polls));
            t.log == log && t.cursor == |log| ==> t.delivered == Allowed(log, view, start, |log|)
  {
    NothingMissedOrRepeated(view, log, start, Polls(limit, polls));
  }
}
