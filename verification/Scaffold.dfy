/** The pre-mount walk: a destination may be mounted over only when it holds
    nothing but directories (`ensureMountpointShadowsNoContent`). */
module Scaffold {
  import opened Wrappers
  import opened Paths

  const WALK_ENTRY_CEILING: nat := 4096

  datatype ReadError = NotExist | NotConnected | OtherError(text: string)

  /** What reading a directory gives: its entries in order, or a failure. */
  datatype Dir = Unreadable(error: ReadError) | Readable(entries: seq<Entry>)

  datatype Entry = NonDir(name: string) | SubDir(name: string, dir: Dir)

  datatype WalkError =
    | TooManyEntries(dir: string)
    | NotADirectory(path: string)
    | DestinationMissing(dest: string)
    | StaleMount(dir: string)
    | InspectFailed(dest: string, error: ReadError)

  function ClassifyDestReadError(dest: string, dir: string, e: ReadError): WalkError {
    if dir == dest && e == NotExist then DestinationMissing(dest)
    else if e == NotConnected then StaleMount(dir)
    else InspectFailed(dest, e)
  }

  // ---------------------------------------------------------------------
  // The tree as a list of visits, in pre-order
  // ---------------------------------------------------------------------

  datatype Visit =
    | Counted(dir: string, path: string, isDir: bool)
    | FailedRead(dir: string, error: ReadError)

  function Visits(at: string, d: Dir): seq<Visit>
    decreases d, 0
  {
    match d
    case Unreadable(e) => [FailedRead(at, e)]
    case Readable(es) => EntryVisits(at, es)
  }

  function EntryVisits(at: string, es: seq<Entry>): seq<Visit>
    decreases es, 1
  {
    if es == [] then [] else OneEntry(at, es[0]) + EntryVisits(at, es[1..])
  }

  function OneEntry(at: string, e: Entry): seq<Visit>
    decreases e, 2
  {
    var p := JoinTwo(at, e.name);
    match e
    case NonDir(_) => [Counted(at, p, false)]
    case SubDir(_, d) => [Counted(at, p, true)] + Visits(p, d)
  }

  /** The verdict on one visit when `seen` entries were counted before it. */
  function Offence(dest: string, v: Visit, seen: nat): Option<WalkError> {
    match v
    case FailedRead(dir, e) => Some(ClassifyDestReadError(dest, dir, e))
    case Counted(dir, path, isDir) =>
      if seen + 1 > WALK_ENTRY_CEILING then Some(TooManyEntries(dir))
      else if !isDir then Some(NotADirectory(path))
      else None
  }

  function Bump(v: Visit, seen: nat): nat { if v.Counted? then seen + 1 else seen }

  /** Scanning visits up to and including the first offence: the error, if any,
      and the count reached. */
  function Scan(dest: string, vs: seq<Visit>, seen: nat): (Option<WalkError>, nat) {
    if vs == [] then (None, seen)
    else
      var o := Offence(dest, vs[0], seen);
      if o.Some? then (o, Bump(vs[0], seen))
      else Scan(dest, vs[1..], Bump(vs[0], seen))
  }

  lemma {:induction false} ScanConcat(dest: string, a: seq<Visit>, b: seq<Visit>, seen: nat)
    ensures var (err, n) := Scan(dest, a, seen);
            Scan(dest, a + b, seen) == if err.Some? then (err, n) else Scan(dest, b, n)
    decreases |a|
  {
    if a == [] {
      assert a + b == b;
    } else {
      assert (a + b)[1..] == a[1..] + b;
      if Offence(dest, a[0], seen).None? {
        ScanConcat(dest, a[1..], b, Bump(a[0], seen));
      }
    }
  }

  /** The order of the visits: every entry is visited once, under its own path, after
      all that comes from earlier entries; what is inside a directory follows right
      after it, before any later entry. */
  lemma {:induction false} VisitsInOrder(at: string, es: seq<Entry>, i: nat)
    requires i < |es|
    ensures var p := JoinTwo(at, es[i].name);
            var inside := if es[i].SubDir? then Visits(p, es[i].dir) else [];
            Visits(at, Readable(es)) ==
            EntryVisits(at, es[..i]) + (([Counted(at, p, es[i].SubDir?)] + inside) + EntryVisits(at, es[i + 1..]))
  {
    EntryVisitsConcat(at, es[..i], es[i..]);
    assert es == es[..i] + es[i..];
    assert es[i..][1..] == es[i + 1..];
    OneEntryVisits(at, es[i]);
  }

  lemma OneEntryVisits(at: string, e: Entry)
    ensures var p := JoinTwo(at, e.name);
            OneEntry(at, e) == [Counted(at, p, e.SubDir?)] + if e.SubDir? then Visits(p, e.dir) else []
  {
  }

  lemma {:induction false} EntryVisitsConcat(at: string, a: seq<Entry>, b: seq<Entry>)
    ensures EntryVisits(at, a + b) == EntryVisits(at, a) + EntryVisits(at, b)
    decreases |a|
  {
    if a == [] {
      assert a + b == b;
    } else {
      EntryVisitsConcat(at, a[1..], b);
      FirstEntry(at, a, b);
    }
  }

  lemma FirstEntry(at: string, a: seq<Entry>, b: seq<Entry>)
    requires a != [] && EntryVisits(at, a[1..] + b) == EntryVisits(at, a[1..]) + EntryVisits(at, b)
    ensures EntryVisits(at, a + b) == EntryVisits(at, a) + EntryVisits(at, b)
  {
    UnfoldEntries(at, a, b);
    UnfoldEntries(at, a, []);
    assert a + [] == a && a[1..] + [] == a[1..];
    Regroup(OneEntry(at, a[0]), EntryVisits(at, a[1..]), EntryVisits(at, b));
  }

  lemma UnfoldEntries(at: string, a: seq<Entry>, b: seq<Entry>)
    requires a != []
    ensures EntryVisits(at, a + b) == OneEntry(at, a[0]) + EntryVisits(at, a[1..] + b)
  {
    assert (a + b)[1..] == a[1..] + b;
  }

  lemma Regroup(x: seq<Visit>, y: seq<Visit>, z: seq<Visit>)
    ensures x + (y + z) == (x + y) + z
  {
  }

  // ---------------------------------------------------------------------
  // The walk
  // ---------------------------------------------------------------------

  /** The recursive closure with its shared counter. */
  class Walker {
    const dest: string
    var seen: nat

    constructor (dest: string)
      ensures this.dest == dest && seen == 0
    {
      this.dest, seen := dest, 0;
    }

    /** The walk is the scan of the pre-order visits. */
    method Walk(at: string, d: Dir) returns (err: Option<WalkError>)
      modifies this
      ensures (err, seen) == Scan(dest, Visits(at, d), old(seen))
      decreases d
    {
      if d.Unreadable? {
        return Some(ClassifyDestReadError(dest, at, d.error));
      }
      var es := d.entries;
      for i := 0 to |es|
        invariant Scan(dest, EntryVisits(at, es), old(seen)) == Scan(dest, EntryVisits(at, es[i..]), seen)
      {
        assert es[i..][1..] == es[i + 1..];
        assert EntryVisits(at, es[i..]) == OneEntry(at, es[i]) + EntryVisits(at, es[i + 1..]);
        ScanConcat(dest, OneEntry(at, es[i]), EntryVisits(at, es[i + 1..]), seen);
        ghost var before := seen;
        seen := seen + 1;
        var p := JoinTwo(at, es[i].name);
        ghost var v := Counted(at, p, es[i].SubDir?);
        assert OneEntry(at, es[i])[0] == v;
        if seen > WALK_ENTRY_CEILING {
          return Some(TooManyEntries(at));
        }
        if es[i].NonDir? {
          return Some(NotADirectory(p));
        }
        assert OneEntry(at, es[i])[1..] == Visits(p, es[i].dir);
        var sub := Walk(p, es[i].dir);
        if sub.Some? {
          return sub;
        }
      }
      assert es[|es|..] == [];
      return None;
    }
  }

  /** Refuses to mount over real content. */
  method EnsureMountpointShadowsNoContent(dest: string, d: Dir) returns (err: Option<WalkError>, counted: nat)
    ensures err.None? <==> AllReadable(d) && AllDirectories(d) && Size(d) <= 4096
    ensures err.None? ==> counted == Size(d)
    ensures counted <= 4097
    ensures err.Some? ==> FirstOffence(dest, Visits(dest, d), err.value, counted)
  {
    var w := new Walker(dest);
    err := w.Walk(dest, d);
    counted := w.seen;
    ScanVerdict(dest, Visits(dest, d));
    VisitsMeasure(dest, d);
  }

  // ---------------------------------------------------------------------
  // What the scan decides
  // ---------------------------------------------------------------------

  predicate Harmless(vs: seq<Visit>) {
    forall i :: 0 <= i < |vs| ==> vs[i].Counted? && vs[i].isDir
  }

  /** The error is about the first offending visit: everything before it is a
      directory that was read and counted within the ceiling. */
  predicate FirstOffence(dest: string, vs: seq<Visit>, e: WalkError, counted: nat) {
    exists k :: 0 <= k < |vs| && Harmless(vs[..k]) && k <= WALK_ENTRY_CEILING
      && Explains(dest, vs[k], k, e) && counted == if vs[k].Counted? then k + 1 else k
  }

  /** What each error says about the visit that raised it, after `seen` entries: the
      destination itself is missing, a stale mount sits there, the directory cannot be
      read otherwise, the entry exceeds the ceiling, or it is not a directory. */
  predicate Explains(dest: string, v: Visit, seen: nat, e: WalkError) {
    match e
    case DestinationMissing(d) => d == dest && v == FailedRead(dest, NotExist)
    case StaleMount(dir) => v == FailedRead(dir, NotConnected)
    case InspectFailed(d, err) =>
      d == dest && v.FailedRead? && v.error == err && err != NotConnected && !(err == NotExist && v.dir == dest)
    case TooManyEntries(dir) => v.Counted? && v.dir == dir && seen == WALK_ENTRY_CEILING
    case NotADirectory(path) => v.Counted? && v.path == path && !v.isDir && seen < WALK_ENTRY_CEILING
  }

  lemma {:induction false} ScanFrom(dest: string, vs: seq<Visit>, k: nat)
    requires k <= |vs| && Harmless(vs[..k]) && k <= WALK_ENTRY_CEILING
    ensures var (err, n) := Scan(dest, vs[k..], k);
            && (err.None? <==> Harmless(vs) && |vs| <= WALK_ENTRY_CEILING)
            && (err.None? ==> n == |vs|)
            && n <= WALK_ENTRY_CEILING + 1
            && (err.Some? ==> FirstOffence(dest, vs, err.value, n))
    decreases |vs| - k
  {
    if k == |vs| {
      assert vs[..k] == vs;
    } else {
      var v := vs[k];
      assert vs[k..][0] == v && vs[k..][1..] == vs[k + 1..];
      if Offence(dest, v, k).None? {
        assert Harmless(vs[..k + 1]);
        ScanFrom(dest, vs, k + 1);
      } else {
        assert k < WALK_ENTRY_CEILING ==> !Harmless(vs);
      }
    }
  }

  lemma ScanVerdict(dest: string, vs: seq<Visit>)
    ensures var (err, n) := Scan(dest, vs, 0);
            && (err.None? <==> Harmless(vs) && |vs| <= WALK_ENTRY_CEILING)
            && (err.None? ==> n == |vs|)
            && n <= WALK_ENTRY_CEILING + 1
            && (err.Some? ==> FirstOffence(dest, vs, err.value, n))
  {
    ScanFrom(dest, vs, 0);
    assert vs[0..] == vs;
  }

  /** Every directory in the tree can be read. */
  predicate AllReadable(d: Dir) {
    d.Readable? && forall i :: 0 <= i < |d.entries| ==> d.entries[i].SubDir? ==> AllReadable(d.entries[i].dir)
  }

  /** Every entry of every readable directory is a directory. */
  predicate AllDirectories(d: Dir) {
    d.Readable? ==> forall i :: 0 <= i < |d.entries| ==> d.entries[i].SubDir? && AllDirectories(d.entries[i].dir)
  }

  /** The number of entries in the tree. */
  function Size(d: Dir): nat
    decreases d, 0
  {
    match d case Unreadable(_) => 0 case Readable(es) => SizeAll(es)
  }

  function SizeAll(es: seq<Entry>): nat
    decreases es, 1
  {
    if es == [] then 0
    else 1 + (if es[0].SubDir? then Size(es[0].dir) else 0) + SizeAll(es[1..])
  }

  lemma HarmlessConcat(a: seq<Visit>, b: seq<Visit>)
    ensures Harmless(a + b) <==> Harmless(a) && Harmless(b)
  {
    if Harmless(a + b) {
      forall i | 0 <= i < |a| ensures a[i].Counted? && a[i].isDir { assert (a + b)[i] == a[i]; }
      forall i | 0 <= i < |b| ensures b[i].Counted? && b[i].isDir { assert (a + b)[|a| + i] == b[i]; }
    }
  }

  /** Harmless visits are exactly the visits of a readable directories-only tree,
      and then there is one visit per entry. */
  lemma {:induction false} VisitsMeasure(at: string, d: Dir)
    ensures Harmless(Visits(at, d)) <==> AllReadable(d) && AllDirectories(d)
    ensures Harmless(Visits(at, d)) ==> |Visits(at, d)| == Size(d)
    decreases d, 0
  {
    if d.Unreadable? {
      assert !Harmless(Visits(at, d)) by { assert Visits(at, d)[0].FailedRead?; }
    } else {
      EntriesMeasure(at, d.entries);
    }
  }

  predicate GoodEntry(e: Entry) { e.SubDir? && AllReadable(e.dir) && AllDirectories(e.dir) }

  lemma {:induction false} EntriesMeasure(at: string, es: seq<Entry>)
    ensures Harmless(EntryVisits(at, es)) <==> forall i :: 0 <= i < |es| ==> GoodEntry(es[i])
    ensures Harmless(EntryVisits(at, es)) ==> |EntryVisits(at, es)| == SizeAll(es)
    decreases es, 1
  {
    if es != [] {
      var e, p := es[0], JoinTwo(at, es[0].name);
      HarmlessConcat(OneEntry(at, e), EntryVisits(at, es[1..]));
      EntriesMeasure(at, es[1..]);
      if e.SubDir? {
        VisitsMeasure(p, e.dir);
        HarmlessConcat([Counted(at, p, true)], Visits(p, e.dir));
      } else {
        assert !OneEntry(at, e)[0].isDir;
      }
      assert forall i :: 1 <= i < |es| ==> es[i] == es[1..][i - 1];
      if forall i :: 0 <= i < |es| ==> GoodEntry(es[i]) {
        assert forall i :: 0 <= i < |es[1..]| ==> es[1..][i] == es[i + 1];
      }
    }
  }
}
