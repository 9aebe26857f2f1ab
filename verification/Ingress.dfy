/** The journal that keeps arriving evidence while private storage is sealed for a backup. */
module Ingress {
  // Its records live in a `pending` directory and in the directories that earlier backups renamed out of the way.

  import opened Wrappers

  type Id(==, !new)
  type Evidence(==, !new)  // source, endpoint and protected payload
  type Principal(==, !new)
  type Generation(==, !new)

  datatype Kind = Sender | Receiver
  datatype Authority = Authority(operator: bool, principal: Principal, authenticatedAt: int)
  datatype Record = Record(kind: Kind, id: Id, evidence: Evidence, authority: Option<Authority>, occurredAt: int,
      receivedAt: int)
  datatype Name = Name(kind: Kind, id: Id)

  type Directory = map<Name, Record>

  /** `pending` is missing between the two halves of a rotation, and for good if the process dies there. */
  datatype Disk = Disk(pending: Option<Directory>, sealed: map<Generation, Directory>)

  datatype Refusal = Reused | Inventory | Backlog | Occupied

  const MAX_GENERATIONS := 1_000
  const MAX_BACKLOG := 100_000

  function NameOf(r: Record): Name {
    Name(r.kind, r.id)
  }

  /** Everything but the two times has to agree when an identifier comes back. */
  predicate SameIdentity(a: Record, b: Record) {
    a.kind == b.kind && a.id == b.id && a.evidence == b.evidence && a.authority == b.authority
  }

  function Files(d: Option<Directory>): Directory {
    if d.Some? then d.value else map[]
  }

  predicate Overfull(d: Disk, g: Generation) {
    g in d.sealed && |d.sealed[g]| > MAX_BACKLOG
  }

  /** More generations, or more records in one directory, than the journal is prepared to list. */
  predicate Unreadable(d: Disk) {
    |d.sealed| > MAX_GENERATIONS || |Files(d.pending)| > MAX_BACKLOG || exists g :: g in d.sealed && Overfull(d, g)
  }

  /** The bounds are a thousand generations and a hundred thousand records in each directory. */
  lemma UnreadableIff(d: Disk)
    ensures Unreadable(d) <==>
            || |d.sealed| > 1_000
            || (d.pending.Some? && |d.pending.value| > 100_000)
            || exists g :: g in d.sealed && |d.sealed[g]| > 100_000
  {
    if g :| g in d.sealed && |d.sealed[g]| > 100_000 {
      assert Overfull(d, g);
    }
  }

  ghost function FilesOf(dir: Directory): set<Record> {
    set n | n in dir :: dir[n]
  }

  /** All records on disk, wherever they are. */
  ghost function Stored(d: Disk): set<Record> {
    FilesOf(Files(d.pending)) + (set g, n | g in d.sealed && n in d.sealed[g] :: d.sealed[g][n])
  }

  ghost predicate WellNamed(dir: Directory) {
    forall n :: n in dir ==> NameOf(dir[n]) == n
  }

  /** Every file is under its record's name, and no name is in two directories. */
  ghost predicate Valid(d: Disk) {
    && WellNamed(Files(d.pending))
    && (forall g :: g in d.sealed ==> WellNamed(d.sealed[g]))
    && (forall g, n :: g in d.sealed && n in d.sealed[g] ==> n !in Files(d.pending))
    && (forall g, h, n :: g in d.sealed && h in d.sealed && n in d.sealed[g] && n in d.sealed[h] ==> g == h)
  }

  ghost predicate Named(records: set<Record>, name: Name, r: Record) {
    r in records && NameOf(r) == name
  }

  lemma NamesAreUnique(d: Disk, a: Record, b: Record)
    requires Valid(d) && a in Stored(d) && b in Stored(d) && NameOf(a) == NameOf(b)
    ensures a == b
  {
  }

  lemma FilesAreNamed(d: Disk)
    requires Valid(d)
    ensures forall n :: n in Files(d.pending) ==> Named(Stored(d), n, Files(d.pending)[n])
    ensures forall g, n :: g in d.sealed && n in d.sealed[g] ==> Named(Stored(d), n, d.sealed[g][n])
  {
  }

  // ---- What appending and acknowledging mean for the stored records ----

  ghost predicate UniqueNames(records: set<Record>) {
    forall a, b :: a in records && b in records && NameOf(a) == NameOf(b) ==> a == b
  }

  /** The stored records by name. */
  ghost function Index(records: set<Record>): map<Name, Record>
    requires UniqueNames(records)
  {
    map r | r in records :: NameOf(r) := r
  }

  ghost function Journal(d: Disk): map<Name, Record>
    requires Valid(d)
  {
    forall a, b | a in Stored(d) && b in Stored(d) && NameOf(a) == NameOf(b) ensures a == b {
      NamesAreUnique(d, a, b);
    }
    Index(Stored(d))
  }

  /** Appending keeps the first record of a name; a second must be the same evidence under the same authority. */
  function Appended(journal: map<Name, Record>, r: Record): Result<Record, Refusal> {
    if NameOf(r) !in journal then Success(r)
    else if SameIdentity(journal[NameOf(r)], r) then Success(journal[NameOf(r)])
    else Failure(Reused)
  }

  function AfterAppend(journal: map<Name, Record>, r: Record): map<Name, Record> {
    if NameOf(r) in journal then journal else journal[NameOf(r) := r]
  }

  lemma FoundMeans(d: Disk, name: Name, found: Record)
    requires Valid(d) && Named(Stored(d), name, found)
    ensures name in Journal(d) && Journal(d)[name] == found
  {
  }

  lemma MissingMeans(d: Disk, name: Name)
    requires Valid(d) && forall e :: !Named(Stored(d), name, e)
    ensures name !in Journal(d)
  {
    if name in Journal(d) {
      assert Named(Stored(d), name, Journal(d)[name]);
    }
  }

  lemma Added(d: Disk, r: Record)
    requires Valid(d) && forall e :: !Named(Stored(d), NameOf(r), e)
    ensures var next := d.(pending := Some(Files(d.pending)[NameOf(r) := r]));
            Valid(next) && NameOf(r) !in Journal(d) && Journal(next) == Journal(d)[NameOf(r) := r]
  {
    var files, name := Files(d.pending), NameOf(r);
    var next := d.(pending := Some(files[name := r]));
    FilesAreNamed(d);
    MissingMeans(d, name);
    assert FilesOf(files[name := r]) == FilesOf(files) + {r} by {
      forall e | e in FilesOf(files) + {r} ensures e in FilesOf(files[name := r]) {
        if e == r {
          assert files[name := r][name] == e;
        } else {
          var n :| n in files && files[n] == e;
          assert files[name := r][n] == e;
        }
      }
    }
    assert Stored(next) == Stored(d) + {r};
    assert Valid(next);
  }

  /** The first half of a rotation, and the second. */
  function Renamed(d: Disk, barrier: Generation): Disk {
    Disk(None, d.sealed[barrier := Files(d.pending)])
  }

  function Recreated(d: Disk): Disk {
    d.(pending := Some(Files(d.pending)))
  }

  predicate Free(d: Disk, barrier: Generation) {
    barrier in d.sealed ==> d.sealed[barrier] == map[]
  }

  /** A rotation loses, adds and duplicates nothing, and neither does the half of it that a crash leaves behind. */
  lemma RotationKeepsRecords(d: Disk, barrier: Generation)
    requires Valid(d) && Free(d, barrier)
    ensures Valid(Renamed(d, barrier)) && Journal(Renamed(d, barrier)) == Journal(d)
    ensures Valid(Recreated(Renamed(d, barrier))) && Journal(Recreated(Renamed(d, barrier))) == Journal(d)
  {
    var half := Renamed(d, barrier);
    forall r ensures r in Stored(half) <==> r in Stored(d) {
      if r in Stored(d) {
        if n :| n in Files(d.pending) && Files(d.pending)[n] == r {
          assert half.sealed[barrier][n] == r;
        } else {
          var g, n :| g in d.sealed && n in d.sealed[g] && d.sealed[g][n] == r;
          assert g != barrier && half.sealed[g][n] == r;
        }
      }
      if r in Stored(half) {
        var g, n :| g in half.sealed && n in half.sealed[g] && half.sealed[g][n] == r;
        assert g != barrier ==> d.sealed[g][n] == r;
      }
    }
  }

  class CaptureIngressJournal {
    var pending: Option<Directory>
    var sealed: map<Generation, Directory>

    function Contents(): Disk
      reads this
    {
      Disk(pending, sealed)
    }

    constructor ()
      ensures Contents() == Disk(None, map[])
    {
      pending, sealed := None, map[];
    }

    /** Looks for the name in `pending` and then in one sealed generation after another. */
    method Find(name: Name) returns (found: Option<Record>)
      requires Valid(Contents())
      ensures found.Some? ==> Named(Stored(Contents()), name, found.value)
      ensures found.None? ==> forall r :: !Named(Stored(Contents()), name, r)
    {
      if pending.Some? && name in pending.value {
        return Some(pending.value[name]);
      }
      var rest := sealed.Keys;
      while rest != {}
        invariant rest <= sealed.Keys
        invariant forall g :: g in sealed && g !in rest ==> name !in sealed[g]
        decreases rest
      {
        var g :| g in rest;
        if name in sealed[g] {
          return Some(sealed[g][name]);
        }
        rest := rest - {g};
      }
      found := None;
    }

    method Append(record: Record) returns (r: Result<Record, Refusal>)
      requires Valid(Contents())
      modifies this
      ensures Valid(Contents()) && sealed == old(sealed)
      ensures |sealed| > MAX_GENERATIONS ==> r == Failure(Inventory) && Contents() == old(Contents())
      ensures |sealed| <= MAX_GENERATIONS ==>
                && r == Appended(Journal(old(Contents())), record)
                && Journal(Contents()) == AfterAppend(Journal(old(Contents())), record)
    {
      if |sealed| > MAX_GENERATIONS {
        return Failure(Inventory);
      }
      ghost var was := Contents();
      var existing := Find(NameOf(record));
      if existing.Some? {
        FoundMeans(was, NameOf(record), existing.value);
        return if SameIdentity(existing.value, record) then Success(existing.value) else Failure(Reused);
      }
      assert Contents() == was;
      Added(was, record);
      pending := Some((if pending.Some? then pending.value else map[])[NameOf(record) := record]);
      r := Success(record);
    }

    /**
     * Renames `pending` to a new generation and makes an empty one. A crash may come in between. Too many generations
     * are only noticed, and reported, after the rename.
     */
    method Rotate(barrier: Generation, crash: bool) returns (r: Result<set<Generation>, Refusal>)
      requires Valid(Contents())
      modifies this
      ensures Valid(Contents()) && Journal(Contents()) == Journal(old(Contents()))
      ensures r == Failure(Occupied) <==> barrier in old(sealed) && old(sealed)[barrier] != map[]
      ensures r == Failure(Occupied) ==> sealed == old(sealed) && pending == Some(Files(old(pending)))
      ensures r != Failure(Occupied) ==>
                && sealed == old(sealed)[barrier := Files(old(pending))]
                && pending == (if crash then None else Some(map[]))
                && r == (if |sealed| > MAX_GENERATIONS then Failure(Inventory) else Success(sealed.Keys))
    {
      pending := Some(if pending.Some? then pending.value else map[]);
      if barrier in sealed && sealed[barrier] != map[] {
        return Failure(Occupied);
      }
      RotationKeepsRecords(old(Contents()), barrier);
      sealed := sealed[barrier := pending.value];
      pending := None;
      assert Contents() == Renamed(old(Contents()), barrier);
      if !crash {
        pending := Some(map[]);
      }
      r := if |sealed| > MAX_GENERATIONS then Failure(Inventory) else Success(sealed.Keys);
    }

    /** Removes the record's file wherever it is, provided it is still the record the caller has dealt with. */
    method Acknowledge(record: Record) returns (refused: Option<Refusal>)
      requires Valid(Contents())
      modifies this
      ensures Valid(Contents()) && sealed.Keys == old(sealed).Keys
      ensures |sealed| > MAX_GENERATIONS ==> refused == Some(Inventory)
      ensures |sealed| <= MAX_GENERATIONS ==>
                (refused == Some(Reused) <==> Appended(Journal(old(Contents())), record).Failure?)
      ensures refused.Some? ==> Contents() == old(Contents())
      ensures refused.None? ==> Journal(Contents()) == Journal(old(Contents())) - {NameOf(record)}
    {
      if |sealed| > MAX_GENERATIONS {
        return Some(Inventory);
      }
      ghost var was := Contents();
      var current := Find(NameOf(record));
      if current.Some? {
        FoundMeans(was, NameOf(record), current.value);
        if !SameIdentity(current.value, record) {
          return Some(Reused);
        }
      } else {
        assert Contents() == was;
        MissingMeans(was, NameOf(record));
      }
      Unlink(NameOf(record));
      refused := None;
    }

    method Unlink(name: Name)
      requires Valid(Contents())
      modifies this
      ensures Valid(Contents()) && sealed.Keys == old(sealed).Keys
      ensures Journal(Contents()) == Journal(old(Contents())) - {name}
    {
      ghost var was := Contents();
      if pending.Some? {
        pending := Some(pending.value - {name});
      }
      UnlinkSealed(name);
      Removed(was, Contents(), name);
    }

    method UnlinkSealed(name: Name)
      modifies `sealed
      ensures sealed == map g | g in old(sealed) :: old(sealed)[g] - {name}
    {
      var rest := sealed.Keys;
      while rest != {}
        invariant rest <= sealed.Keys == old(sealed).Keys
        invariant forall g :: g in sealed ==> sealed[g] == if g in rest then old(sealed)[g] else old(sealed)[g] - {name}
        decreases rest
      {
        var g :| g in rest;
        sealed := sealed[g := sealed[g] - {name}];
        rest := rest - {g};
      }
    }

    /** The records of one kind in the order in which they occurred. */
    method Pending(kind: Kind) returns (r: Result<seq<Record>, Refusal>)
      requires Valid(Contents())
      ensures r.Failure? <==> Unreadable(Contents())
      ensures r.Success? ==>
                && (forall e :: e in r.value <==> e in Journal(Contents()).Values && e.kind == kind)
                && (forall i, j :: 0 <= i < j < |r.value| ==>
                      r.value[i] != r.value[j] && r.value[i].occurredAt <= r.value[j].occurredAt)
    {
      r := ReadDirectories(Contents(), kind);
      if r.Success? {
        ListedMeans(Contents(), r.value, kind);
      }
    }
  }

  method ReadDirectories(d: Disk, kind: Kind) returns (r: Result<seq<Record>, Refusal>)
    requires Valid(d)
    ensures r.Failure? <==> Unreadable(d)
    ensures r.Success? ==> Listed(r.value, Stored(d), kind)
  {
    if |d.sealed| > MAX_GENERATIONS {
      return Failure(Inventory);
    }
    var here := if d.pending.Some? then d.pending.value else map[];
    if |here| > MAX_BACKLOG {
      return Failure(Backlog);
    }
    ReadAll(d);
    var output := ReadDirectory(here, kind, [], {});
    r := ReadSealed(d, kind, output);
  }

  method ReadSealed(d: Disk, kind: Kind, before: seq<Record>) returns (r: Result<seq<Record>, Refusal>)
    requires Valid(d) && Listed(before, ReadSoFar(d, d.sealed.Keys), kind)
    ensures r.Failure? <==> exists g :: g in d.sealed && Overfull(d, g)
    ensures r.Success? ==> Listed(r.value, ReadSoFar(d, {}), kind)
  {
    var output, rest := before, d.sealed.Keys;
    while rest != {}
      invariant rest <= d.sealed.Keys
      invariant forall g :: g in d.sealed && g !in rest ==> !Overfull(d, g)
      invariant Listed(output, ReadSoFar(d, rest), kind)
      decreases rest
    {
      var g :| g in rest;
      if |d.sealed[g]| > MAX_BACKLOG {
        assert Overfull(d, g);
        return Failure(Backlog);
      }
      output := ReadGeneration(d, g, kind, output, rest);
      rest := rest - {g};
    }
    r := Success(output);
  }

  method ReadGeneration(d: Disk, g: Generation, kind: Kind, before: seq<Record>, ghost unread: set<Generation>)
      returns (output: seq<Record>)
    requires Valid(d) && g in unread && unread <= d.sealed.Keys
    requires Listed(before, ReadSoFar(d, unread), kind)
    ensures Listed(output, ReadSoFar(d, unread - {g}), kind)
  {
    ReadSoFarStep(d, unread, g);
    output := ReadDirectory(d.sealed[g], kind, before, ReadSoFar(d, unread));
  }

  lemma ListedMeans(d: Disk, output: seq<Record>, kind: Kind)
    requires Valid(d) && Listed(output, Stored(d), kind)
    ensures forall e :: e in output <==> e in Journal(d).Values && e.kind == kind
  {
    forall e ensures e in Journal(d).Values <==> e in Stored(d) {
      if e in Stored(d) {
        assert Journal(d)[NameOf(e)] == e;
      }
    }
  }

  lemma ReadAll(d: Disk)
    ensures ReadSoFar(d, {}) == Stored(d)
    ensures ReadSoFar(d, d.sealed.Keys) == {} + FilesOf(Files(d.pending))
  {
  }

  /** The records of `pending` and of all generations but the `unread` ones. */
  ghost function ReadSoFar(d: Disk, unread: set<Generation>): set<Record> {
    FilesOf(Files(d.pending)) + (set g, n | g in d.sealed && g !in unread && n in d.sealed[g] :: d.sealed[g][n])
  }

  lemma ReadSoFarStep(d: Disk, unread: set<Generation>, g: Generation)
    requires Valid(d) && g in unread && unread <= d.sealed.Keys
    ensures WellNamed(d.sealed[g])
    ensures forall n :: n in d.sealed[g] ==> d.sealed[g][n] !in ReadSoFar(d, unread)
    ensures ReadSoFar(d, unread - {g}) == ReadSoFar(d, unread) + FilesOf(d.sealed[g])
  {
    forall r | r in ReadSoFar(d, unread) ensures NameOf(r) !in d.sealed[g] {
      if !(exists m :: m in Files(d.pending) && Files(d.pending)[m] == r) {
        var h, m :| h in d.sealed && h !in unread && m in d.sealed[h] && d.sealed[h][m] == r;
        assert NameOf(d.sealed[h][m]) == m;
      }
    }
    var more := FilesOf(d.sealed[g]);
    forall r ensures r in ReadSoFar(d, unread - {g}) <==> r in ReadSoFar(d, unread) + more {
      if h, n :| h in d.sealed && h !in unread - {g} && n in d.sealed[h] && d.sealed[h][n] == r {
        if h == g {
          assert d.sealed[g][n] in more;
        }
      }
    }
  }

  lemma Removed(was: Disk, d: Disk, name: Name)
    requires Valid(was) && d.sealed.Keys == was.sealed.Keys
    requires Files(d.pending) == Files(was.pending) - {name}
    requires forall g :: g in d.sealed ==> d.sealed[g] == was.sealed[g] - {name}
    ensures Valid(d) && Journal(d) == Journal(was) - {name}
  {
    StillValid(was, d, name);
    forall e | e in Stored(d) ensures e in Stored(was) && NameOf(e) != name {
      RemovedFrom(was, d, name, e);
    }
    forall e | e in Stored(was) && NameOf(e) != name ensures e in Stored(d) {
      KeptIn(was, d, name, e);
    }
    SameJournal(was, d, name);
  }

  lemma StillValid(was: Disk, d: Disk, name: Name)
    requires Valid(was) && d.sealed.Keys == was.sealed.Keys
    requires Files(d.pending) == Files(was.pending) - {name}
    requires forall g :: g in d.sealed ==> d.sealed[g] == was.sealed[g] - {name}
    ensures Valid(d)
  {
    forall g, n | g in d.sealed && n in d.sealed[g] ensures n !in Files(d.pending) {
      assert n in was.sealed[g];
    }
    forall g, h, n | g in d.sealed && h in d.sealed && n in d.sealed[g] && n in d.sealed[h] ensures g == h {
      assert n in was.sealed[g] && n in was.sealed[h];
    }
  }

  lemma RemovedFrom(was: Disk, d: Disk, name: Name, e: Record)
    requires Valid(was) && d.sealed.Keys == was.sealed.Keys
    requires Files(d.pending) == Files(was.pending) - {name}
    requires forall g :: g in d.sealed ==> d.sealed[g] == was.sealed[g] - {name}
    requires e in Stored(d)
    ensures e in Stored(was) && NameOf(e) != name
  {
    if n :| n in Files(d.pending) && Files(d.pending)[n] == e {
      assert Files(was.pending)[n] == e;
    } else {
      var g, n :| g in d.sealed && n in d.sealed[g] && d.sealed[g][n] == e;
      assert was.sealed[g][n] == e;
    }
  }

  lemma KeptIn(was: Disk, d: Disk, name: Name, e: Record)
    requires Valid(was) && d.sealed.Keys == was.sealed.Keys
    requires Files(d.pending) == Files(was.pending) - {name}
    requires forall g :: g in d.sealed ==> d.sealed[g] == was.sealed[g] - {name}
    requires e in Stored(was) && NameOf(e) != name
    ensures e in Stored(d)
  {
    if n :| n in Files(was.pending) && Files(was.pending)[n] == e {
      assert Files(d.pending)[n] == e;
    } else {
      var g, n :| g in was.sealed && n in was.sealed[g] && was.sealed[g][n] == e;
      assert d.sealed[g][n] == e;
    }
  }

  lemma IndexWithout(records: set<Record>, name: Name)
    requires UniqueNames(records)
    ensures var fewer := set r | r in records && NameOf(r) != name;
            UniqueNames(fewer) && Index(fewer) == Index(records) - {name}
  {
  }

  lemma SameJournal(was: Disk, d: Disk, name: Name)
    requires Valid(was) && Valid(d) && Stored(d) == set e | e in Stored(was) && NameOf(e) != name
    ensures Journal(d) == Journal(was) - {name}
  {
    assert Journal(was) == Index(Stored(was));
    IndexWithout(Stored(was), name);
  }

  predicate Precedes(a: Record, b: Record) {
    a != b && a.occurredAt <= b.occurredAt
  }

  ghost predicate Sorted(list: seq<Record>) {
    forall i, j :: 0 <= i < j < |list| ==> Precedes(list[i], list[j])
  }

  /** The sorted, duplicate-free list of the records of one kind. */
  ghost predicate Listed(output: seq<Record>, records: set<Record>, kind: Kind) {
    Sorted(output) && forall e :: e in output <==> e in records && e.kind == kind
  }

  method ReadDirectory(dir: Directory, kind: Kind, before: seq<Record>, ghost records: set<Record>)
      returns (output: seq<Record>)
    requires WellNamed(dir) && Listed(before, records, kind)
    requires forall n :: n in dir ==> dir[n] !in records
    ensures Listed(output, records + FilesOf(dir), kind)
  {
    output := before;
    var names := dir.Keys;
    assert records + (set n | n in dir && n !in names :: dir[n]) == records;
    while names != {}
      invariant names <= dir.Keys
      invariant Listed(output, records + (set n | n in dir && n !in names :: dir[n]), kind)
      decreases names
    {
      var name :| name in names;
      ghost var done := records + (set n | n in dir && n !in names :: dir[n]);
      assert dir[name] !in done;
      if name.kind == kind {
        output := Insert(output, dir[name], done, kind);
      }
      names := names - {name};
      assert records + (set n | n in dir && n !in names :: dir[n]) == done + {dir[name]};
    }
  }

  method Insert(list: seq<Record>, e: Record, ghost records: set<Record>, kind: Kind) returns (output: seq<Record>)
    requires Listed(list, records, kind) && e !in records && e.kind == kind
    ensures Listed(output, records + {e}, kind)
  {
    var i := 0;
    while i < |list| && list[i].occurredAt <= e.occurredAt
      invariant 0 <= i <= |list|
      invariant forall j :: 0 <= j < i ==> list[j].occurredAt <= e.occurredAt
    {
      i := i + 1;
    }
    output := list[..i] + [e] + list[i..];
    InsertedSorted(list, e, i);
    assert list == list[..i] + list[i..];
    forall r ensures r in output <==> r in records + {e} && r.kind == kind {
      assert r in output <==> r in list || r == e;
    }
  }

  lemma InsertedSorted(list: seq<Record>, e: Record, at: nat)
    requires Sorted(list) && e !in list && at <= |list|
    requires forall j :: 0 <= j < at ==> list[j].occurredAt <= e.occurredAt
    requires at < |list| ==> e.occurredAt <= list[at].occurredAt
    ensures Sorted(list[..at] + [e] + list[at..])
  {
    var output := list[..at] + [e] + list[at..];
    forall i, j | 0 <= i < j < |output| ensures Precedes(output[i], output[j]) {
      var k, l := if i < at then i else i - 1, if j < at then j else j - 1;
      if i == at {
        assert output[j] == list[l];
        assert l > at ==> Precedes(list[at], list[l]);
      } else if j == at {
        assert output[i] == list[k];
      } else {
        assert output[i] == list[k] && output[j] == list[l];
        assert Precedes(list[k], list[l]);
      }
    }
  }
}
