/** The destination planner: `buildSpecs` turns the configured mounts into ordered
    specs, or refuses the whole plan before anything is mounted. */
module Planner {
  import opened Wrappers
  import opened Paths

  datatype Mount = Mount(destination: string, readonly: Option<bool>, memoryStoreId: Option<string>, authToken: string)

  datatype Spec = Spec(mount: Mount, readOnly: bool, serviceURL: string, caCertPEM: string)

  datatype PlanError =
    | MemoryStore(destination: string)
    | Duplicate(destination: string)
    | Nested(destination: string, prior: string)

  function SpecOf(m: Mount, serviceURL: string, caCertPEM: string): Spec {
    Spec(m, m.readonly == Some(true), serviceURL, caCertPEM)
  }

  // ---------------------------------------------------------------------
  // What the plan is meant to exclude, on segment lists
  // ---------------------------------------------------------------------

  /** `x` is a proper ancestor of `y` and is not the root itself. */
  predicate Above(x: Parsed, y: Parsed) {
    x.rooted == y.rooted && x.segs != [] && x.segs < y.segs
  }

  predicate Conflict(a: Mount, b: Mount) {
    var x, y := Parse(a.destination), Parse(b.destination);
    x == y || Above(x, y) || Above(y, x)
  }

  predicate Acceptable(ms: seq<Mount>) {
    && (forall i :: 0 <= i < |ms| ==> ms[i].memoryStoreId.None?)
    && (forall i, j :: 0 <= i < j < |ms| ==> !Conflict(ms[i], ms[j]))
  }

  // ---------------------------------------------------------------------
  // The string tests decide exactly those relations
  // ---------------------------------------------------------------------

  lemma CleanEqualIsSame(a: string, b: string)
    ensures Clean(a) == Clean(b) <==> Parse(a) == Parse(b)
  {
    ParseCanonical(a);
    ParseCanonical(b);
    ParseRender(Parse(a));
    ParseRender(Parse(b));
  }

  lemma PrefixTestIsAbove(a: string, b: string)
    ensures HasPrefix(Clean(a), Clean(b) + "/") <==> Above(Parse(b), Parse(a))
  {
    var x, y := Parse(b), Parse(a);
    ParseCanonical(a);
    ParseCanonical(b);
    SplitRender(x);
    SplitRender(y);
    PrefixIsSegmentPrefix(Clean(a), Clean(b));
    PiecesAbove(x, y);
  }

  /** The pieces of a rendered canonical path. */
  function Pieces(q: Parsed): seq<string> {
    if q.segs == [] then (if q.rooted then ["", ""] else ["."])
    else if q.rooted then [""] + q.segs
    else q.segs
  }

  lemma PiecesAbove(x: Parsed, y: Parsed)
    requires Canonical(x) && Canonical(y)
    ensures Pieces(x) < Pieces(y) <==> Above(x, y)
  {
    var s, t := Pieces(x), Pieces(y);
    if Above(x, y) {
      assert s <= t;
      assert |s| < |t|;
    }
    if s < t {
      assert s[0] == t[0] && s[|s| - 1] == t[|s| - 1];
      if x.segs != [] && x.rooted {
        assert y.rooted && t == [""] + y.segs;
        assert s[1..] == x.segs && t[1..] == y.segs;
        assert t[..|s|] == s;
        assert y.segs[..|x.segs|] == t[1..|s|];
        assert x.segs <= y.segs;
      }
    }
  }

  // ---------------------------------------------------------------------
  // The operation
  // ---------------------------------------------------------------------

  /** The cleaned destinations recorded so far. */
  function Seen(ms: seq<Mount>): set<string> {
    set i | 0 <= i < |ms| :: Clean(ms[i].destination)
  }

  /** Why mount `m` is refused after the accepted mounts `before`. */
  predicate Refuses(before: seq<Mount>, m: Mount, e: PlanError) {
    match e
    case MemoryStore(d) => d == m.destination && m.memoryStoreId.Some?
    case Duplicate(d) =>
      && d == m.destination && m.memoryStoreId.None?
      && exists j :: 0 <= j < |before| && Parse(before[j].destination) == Parse(m.destination)
    case Nested(d, prior) =>
      && d == m.destination && m.memoryStoreId.None?
      && (forall j :: 0 <= j < |before| ==> Parse(before[j].destination) != Parse(m.destination))
      && exists j :: 0 <= j < |before| && Clean(before[j].destination) == prior && Conflict(before[j], m)
  }

  /** The first mount that spoils its prefix, and why. */
  ghost predicate Blamed(ms: seq<Mount>, e: PlanError) {
    exists i :: 0 <= i < |ms| && Acceptable(ms[..i]) && Refuses(ms[..i], ms[i], e)
  }

  /** Said on the cleaned strings: the blamed mount is the first that cannot join those
      before it, it is named by its own destination, and the reason is a memory store
      if it has one, else a duplicate if an earlier destination cleans to the same
      string, else an earlier one it is nested with, which is named. */
  lemma {:induction false} BlameMeans(ms: seq<Mount>, e: PlanError) returns (i: nat)
    requires Blamed(ms, e)
    ensures i < |ms| && Acceptable(ms[..i]) && !Acceptable(ms[..i + 1]) && e.destination == ms[i].destination
    ensures e.MemoryStore? <==> ms[i].memoryStoreId.Some?
    ensures e.Duplicate? <==> ms[i].memoryStoreId.None? && exists j :: 0 <= j < i && Clean(ms[j].destination) == Clean(ms[i].destination)
    ensures e.Nested? ==> !Unrelated(Clean(ms[i].destination), e.prior) && exists j :: 0 <= j < i && Clean(ms[j].destination) == e.prior
  {
    i :| 0 <= i < |ms| && Acceptable(ms[..i]) && Refuses(ms[..i], ms[i], e);
    var before, m := ms[..i], ms[i];
    assert forall j :: 0 <= j < i ==> before[j] == ms[j];
    Spoils(ms, i, e);
    forall j | 0 <= j < i ensures Clean(ms[j].destination) == Clean(m.destination) <==> Parse(ms[j].destination) == Parse(m.destination) {
      CleanEqualIsSame(ms[j].destination, m.destination);
    }
    if e.Duplicate? {
      var j :| 0 <= j < |before| && Parse(before[j].destination) == Parse(m.destination);
      assert Clean(ms[j].destination) == Clean(m.destination);
    } else if e.Nested? {
      var j :| 0 <= j < |before| && Clean(before[j].destination) == e.prior && Conflict(before[j], m);
      assert Clean(ms[j].destination) == e.prior;
      PrefixTestIsAbove(m.destination, ms[j].destination);
      PrefixTestIsAbove(ms[j].destination, m.destination);
    }
  }

  lemma Spoils(ms: seq<Mount>, i: nat, e: PlanError)
    requires i < |ms| && Refuses(ms[..i], ms[i], e)
    ensures !Acceptable(ms[..i + 1])
  {
    var after := ms[..i + 1];
    assert after[i] == ms[i];
    if !e.MemoryStore? {
      var j :| 0 <= j < i && Conflict(ms[..i][j], ms[i]);
      assert after[j] == ms[..i][j] && Conflict(after[j], after[i]);
    }
  }

  /** The nesting check, visiting the seen destinations in an arbitrary order, as a
      Go map range does. */
  method FindNested(cleaned: string, seen: set<string>) returns (found: Option<string>)
    ensures found.Some? ==> found.value in seen && !Unrelated(cleaned, found.value)
    ensures found.None? ==> forall p :: p in seen ==> Unrelated(cleaned, p)
  {
    var pending := seen;
    while pending != {}
      invariant pending <= seen
      invariant forall p :: p in seen && p !in pending ==> Unrelated(cleaned, p)
      decreases |pending|
    {
      var prior :| prior in pending;
      if HasPrefix(cleaned, prior + "/") || HasPrefix(prior, cleaned + "/") {
        return Some(prior);
      }
      pending := pending - {prior};
    }
    return None;
  }

  /** Accepts exactly the acceptable plans, keeps the configured order, and
      otherwise blames the first mount that spoils its prefix. */
  method BuildSpecs(ms: seq<Mount>, serviceURL: string, caCertPEM: string) returns (r: Result<seq<Spec>, PlanError>)
    ensures r.Ok? <==> Acceptable(ms)
    ensures r.Ok? ==> |r.value| == |ms| &&
                      forall i :: 0 <= i < |ms| ==>
                        && r.value[i].mount == ms[i] && (r.value[i].readOnly <==> ms[i].readonly == Some(true))
                        && r.value[i].serviceURL == serviceURL && r.value[i].caCertPEM == caCertPEM
    ensures r.Err? ==> Blamed(ms, r.error)
  {
    var specs: seq<Spec> := [];
    var seen: set<string> := {};
    for i := 0 to |ms|
      invariant Acceptable(ms[..i])
      invariant seen == Seen(ms[..i])
      invariant |specs| == i
      invariant forall k :: 0 <= k < i ==> specs[k] == SpecOf(ms[k], serviceURL, caCertPEM)
    {
      var m := ms[i];
      if m.memoryStoreId.Some? {
        assert Refuses(ms[..i], m, MemoryStore(m.destination));
        return Err(MemoryStore(m.destination));
      }
      var cleaned := Clean(m.destination);
      if cleaned in seen {
        BlameDuplicate(ms, i);
        return Err(Duplicate(m.destination));
      }
      var prior := FindNested(cleaned, seen);
      if prior.Some? {
        BlameNested(ms, i, prior.value);
        return Err(Nested(m.destination, prior.value));
      }
      Extends(ms, i);
      seen := seen + {cleaned};
      specs := specs + [SpecOf(m, serviceURL, caCertPEM)];
    }
    assert ms[..|ms|] == ms;
    return Ok(specs);
  }

  /** Neither cleaned destination passes the nesting test against the other. */
  predicate Unrelated(cleaned: string, prior: string) {
    !HasPrefix(cleaned, prior + "/") && !HasPrefix(prior, cleaned + "/")
  }

  lemma {:induction false} BlameDuplicate(ms: seq<Mount>, i: nat)
    requires i < |ms| && Acceptable(ms[..i]) && ms[i].memoryStoreId.None?
    requires Clean(ms[i].destination) in Seen(ms[..i])
    ensures !Acceptable(ms) && Blamed(ms, Duplicate(ms[i].destination))
  {
    var j :| 0 <= j < i && Clean(ms[..i][j].destination) == Clean(ms[i].destination);
    CleanEqualIsSame(ms[j].destination, ms[i].destination);
    assert Conflict(ms[j], ms[i]);
    assert Parse(ms[..i][j].destination) == Parse(ms[i].destination);
    assert Refuses(ms[..i], ms[i], Duplicate(ms[i].destination));
  }

  lemma {:induction false} BlameNested(ms: seq<Mount>, i: nat, prior: string)
    requires i < |ms| && Acceptable(ms[..i]) && ms[i].memoryStoreId.None?
    requires Clean(ms[i].destination) !in Seen(ms[..i]) && prior in Seen(ms[..i])
    requires !Unrelated(Clean(ms[i].destination), prior)
    ensures !Acceptable(ms) && Blamed(ms, Nested(ms[i].destination, prior))
  {
    FreshIsDistinct(ms[..i], ms[i]);
    var j :| 0 <= j < i && Clean(ms[..i][j].destination) == prior;
    PrefixTestIsAbove(ms[i].destination, ms[j].destination);
    PrefixTestIsAbove(ms[j].destination, ms[i].destination);
    assert Conflict(ms[j], ms[i]);
    assert Conflict(ms[..i][j], ms[i]);
    assert Refuses(ms[..i], ms[i], Nested(ms[i].destination, prior));
  }

  lemma FreshIsDistinct(before: seq<Mount>, m: Mount)
    requires Clean(m.destination) !in Seen(before)
    ensures forall j :: 0 <= j < |before| ==> Parse(before[j].destination) != Parse(m.destination)
  {
  }

  lemma Extends(ms: seq<Mount>, i: nat)
    requires i < |ms| && Acceptable(ms[..i]) && ms[i].memoryStoreId.None?
    requires Clean(ms[i].destination) !in Seen(ms[..i])
    requires forall p :: p in Seen(ms[..i]) ==> Unrelated(Clean(ms[i].destination), p)
    ensures Acceptable(ms[..i + 1])
    ensures Seen(ms[..i + 1]) == Seen(ms[..i]) + {Clean(ms[i].destination)}
  {
    FreshIsDistinct(ms[..i], ms[i]);
    forall j | 0 <= j < i ensures !Conflict(ms[j], ms[i]) {
      PrefixTestIsAbove(ms[i].destination, ms[j].destination);
      PrefixTestIsAbove(ms[j].destination, ms[i].destination);
      assert ms[..i][j] == ms[j];
      assert Clean(ms[..i][j].destination) in Seen(ms[..i]);
    }
    var before, after := ms[..i], ms[..i + 1];
    forall j, k | 0 <= j < k < |after| ensures !Conflict(after[j], after[k]) {
      assert k < i ==> !Conflict(before[j], before[k]);
    }
    forall j | 0 <= j < |after| ensures after[j].memoryStoreId.None? {
      assert j < i ==> before[j].memoryStoreId.None?;
    }
    SeenExtends(ms, i);
  }

  lemma SeenExtends(ms: seq<Mount>, i: nat)
    requires i < |ms|
    ensures Seen(ms[..i + 1]) == Seen(ms[..i]) + {Clean(ms[i].destination)}
  {
  }

  // ---------------------------------------------------------------------
  // The verdict is about the mounts, not their order
  // ---------------------------------------------------------------------

  /** Acceptability said without positions: no mount occurs twice, and no two
      different mounts conflict. */
  predicate AcceptableBag(b: multiset<Mount>) {
    && (forall m :: m in b ==> m.memoryStoreId.None? && b[m] == 1)
    && (forall m, n :: m in b && n in b && m != n ==> !Conflict(m, n))
  }

  lemma {:induction false} TwoPlaces(ms: seq<Mount>, m: Mount) returns (i: nat, j: nat)
    requires multiset(ms)[m] >= 2
    ensures i < j < |ms| && ms[i] == m && ms[j] == m
  {
    var n := |ms| - 1;
    assert ms == ms[..n] + [ms[n]];
    if ms[n] == m {
      assert m in multiset(ms[..n]);
      i :| 0 <= i < n && ms[..n][i] == m;
      j := n;
    } else {
      i, j := TwoPlaces(ms[..n], m);
    }
  }

  lemma TwoOccurrences(ms: seq<Mount>, i: nat, j: nat)
    requires i < j < |ms| && ms[i] == ms[j]
    ensures multiset(ms)[ms[i]] >= 2
  {
    assert ms == ms[..j] + [ms[j]] + ms[j + 1..];
    assert ms[..j][i] in multiset(ms[..j]);
  }

  lemma AcceptableIsBag(ms: seq<Mount>)
    ensures Acceptable(ms) <==> AcceptableBag(multiset(ms))
  {
    var b := multiset(ms);
    if Acceptable(ms) {
      forall m | m in b ensures m.memoryStoreId.None? && b[m] == 1 {
        var k :| 0 <= k < |ms| && ms[k] == m;
        if b[m] >= 2 {
          var i, j := TwoPlaces(ms, m);
          assert false;
        }
      }
      forall m, n | m in b && n in b && m != n ensures !Conflict(m, n) {
        var i :| 0 <= i < |ms| && ms[i] == m;
        var j :| 0 <= j < |ms| && ms[j] == n;
        assert Conflict(m, n) == Conflict(n, m);
      }
    }
    if AcceptableBag(b) {
      forall i | 0 <= i < |ms| ensures ms[i].memoryStoreId.None? {
        assert ms[i] in b;
      }
      forall i, j | 0 <= i < j < |ms| ensures !Conflict(ms[i], ms[j]) {
        assert ms[i] in b && ms[j] in b;
        if ms[i] == ms[j] { TwoOccurrences(ms, i, j); }
      }
    }
  }

  /** Reordering the mounts never changes the verdict. */
  lemma VerdictIgnoresOrder(ms: seq<Mount>, ns: seq<Mount>)
    requires multiset(ms) == multiset(ns)
    ensures Acceptable(ms) <==> Acceptable(ns)
  {
    AcceptableIsBag(ms);
    AcceptableIsBag(ns);
  }

  // ---------------------------------------------------------------------
  // The hole at the root
  // ---------------------------------------------------------------------

  /** The full rule: the root counts as an ancestor too. */
  predicate Apart(a: Mount, b: Mount) {
    var x, y := Parse(a.destination), Parse(b.destination);
    x.rooted == y.rooted ==> !(x.segs <= y.segs) && !(y.segs <= x.segs)
  }

  predicate PairwiseApart(ms: seq<Mount>) {
    forall i, j :: 0 <= i < j < |ms| ==> Apart(ms[i], ms[j])
  }

  /** Some mount sits on the root ("/" or ".") while another one is below it. */
  predicate RootBesideOther(ms: seq<Mount>) {
    exists i, j :: 0 <= i < |ms| && 0 <= j < |ms| && i != j
      && Parse(ms[i].destination).segs == []
      && Parse(ms[i].destination).rooted == Parse(ms[j].destination).rooted
  }

  /** An accepted plan is free of every ancestor pair exactly when no mount sits
      on the root beside another. */
  lemma AcceptedIsApartUnlessRoot(ms: seq<Mount>)
    requires Acceptable(ms)
    ensures PairwiseApart(ms) <==> !RootBesideOther(ms)
  {
  }

  /** A witness: "/." together with "/a" is accepted, and both are destinations the
      configuration admits (a slash and at least one more character). */
  lemma RootNotSeenAsAncestor()
    ensures var ms := [Mount("/.", None, None, "t"), Mount("/a", None, None, "t")];
            Acceptable(ms) && !PairwiseApart(ms)
  {
    var ms := [Mount("/.", None, None, "t"), Mount("/a", None, None, "t")];
    SplitConcat("", ".");
    SplitSlashFree(".");
    assert "" + "/" + "." == "/.";
    assert Split("/.") == ["", "."];
    assert Parse("/.") == Parsed(true, []);
    ParseRender(Parsed(true, ["a"]));
    assert Abs([]) == "/";
    assert Abs(["a"]) == "/a";
    assert Acceptable(ms);
    assert RootBesideOther(ms) by {
      assert Parse(ms[0].destination).segs == [] && Parse(ms[1].destination).rooted;
    }
    AcceptedIsApartUnlessRoot(ms);
  }
}
