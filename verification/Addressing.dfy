/** Addressing: how the backend turns an rclone-relative path into the canonical wire
    path the broker knows (`absPath`).

    The path encoder is any per-segment map to wire names and back. Results that need
    it to behave say so for the very segments they are about. */
module Addressing {
  import opened Paths
  import opened Wire

  datatype Fs = Fs(root: string, enc: string -> string, dec: string -> string, parseMtime: string -> Time)

  /** One piece of a path, between separators. */
  predicate Segment(s: string) { s != "" && '/' !in s }

  function Map(g: string -> string, segs: seq<string>): (r: seq<string>)
    ensures |r| == |segs|
    ensures forall i :: 0 <= i < |segs| ==> r[i] == g(segs[i])
  {
    if segs == [] then [] else [g(segs[0])] + Map(g, segs[1..])
  }

  /** `FromStandardPath`: encode segment by segment. */
  function FromStandardPath(f: Fs, p: string): string { Join(Map(f.enc, Split(p))) }

  /** The standard path an rclone-relative path stands for. */
  function Standard(f: Fs, rel: string): string {
    if rel != "" then JoinTwo(f.root, rel) else f.root
  }

  function AbsPath(f: Fs, rel: string): string {
    CleanPath(FromStandardPath(f, Standard(f, rel)))
  }

  // ---------------------------------------------------------------------
  // Segments that survive
  // ---------------------------------------------------------------------

  /** The non-empty pieces. */
  function Keep(parts: seq<string>): (r: seq<string>)
    ensures forall i :: 0 <= i < |r| ==> r[i] != "" && r[i] in parts
  {
    if parts == [] then []
    else if parts[0] == "" then Keep(parts[1..])
    else [parts[0]] + Keep(parts[1..])
  }

  predicate NoneEmpty(segs: seq<string>) {
    forall i :: 0 <= i < |segs| ==> segs[i] != ""
  }

  lemma {:induction false} KeepAll(segs: seq<string>)
    requires NoneEmpty(segs)
    ensures Keep(segs) == segs
  {
    if segs != [] {
      KeepAll(segs[1..]);
      assert [segs[0]] + segs[1..] == segs;
    }
  }

  /** Names and empty pieces only: nothing is popped. */
  predicate Plain(parts: seq<string>) {
    forall i :: 0 <= i < |parts| ==> parts[i] == "" || IsName(parts[i])
  }

  lemma {:induction false} PushAllKeep(rooted: bool, stack: seq<string>, parts: seq<string>)
    requires Plain(parts)
    ensures PushAll(rooted, stack, parts) == stack + Keep(parts)
    decreases |parts|
  {
    if parts == [] {
      assert stack + [] == stack;
    } else {
      PlainTail(parts);
      PushAllKeep(rooted, Push(rooted, stack, parts[0]), parts[1..]);
      PushName(rooted, stack, parts[0], Keep(parts[1..]));
    }
  }

  lemma PlainTail(parts: seq<string>)
    requires Plain(parts) && parts != []
    ensures Plain(parts[1..]) && (parts[0] == "" || IsName(parts[0]))
  {
  }

  lemma PushName(rooted: bool, stack: seq<string>, s: string, kept: seq<string>)
    requires s == "" || IsName(s)
    ensures Push(rooted, stack, s) + kept == stack + if s == "" then kept else [s] + kept
  {
  }

  /** Whatever the encoder does, every address is canonical, and cleaning it again
      changes nothing. */
  lemma {:induction false} AbsPathCanonical(f: Fs, rel: string)
    ensures AllNames(WireSegs(AbsPath(f, rel)))
    ensures AbsPath(f, rel) == Abs(WireSegs(AbsPath(f, rel)))
    ensures CleanPath(AbsPath(f, rel)) == AbsPath(f, rel)
  {
    var p := FromStandardPath(f, Standard(f, rel));
    CleanPathCanonical(p);
    AbsCleanPath(WireSegs(p));
  }

  // ---------------------------------------------------------------------
  // The address of every path, under every root
  // ---------------------------------------------------------------------

  /** The root's segments as they stand, and as cleaning leaves them. The empty path
      is addressed by the first, every other path by the second. */
  function RootSegs(f: Fs): seq<string> { Keep(Split(f.root)) }

  function CleanRoot(f: Fs): seq<string> { Parse(f.root).segs }

  predicate RootIsAbsolute(f: Fs) { f.root != "" && f.root[0] == '/' }

  /** What splitting a rendered path keeps: its segments, or the lone dot that stands
      for an empty relative path. */
  function Kept(q: Parsed): seq<string> {
    if q.rooted || q.segs != [] then q.segs else ["."]
  }

  lemma KeepRender(q: Parsed)
    requires Canonical(q)
    ensures Keep(Split(Render(q))) == Kept(q)
  {
    SplitRender(q);
    KeepAll(q.segs);
    KeepAll(["."]);
    KeepSkips(q.segs);
    KeepSkips([""]);
    KeepSkips([]);
  }

  lemma KeepSkips(segs: seq<string>)
    ensures Keep([""] + segs) == Keep(segs)
  {
    assert ([""] + segs)[1..] == segs;
  }

  /** The joined path: the cleaned root with the relative path's pieces pushed on. */
  function Joined(f: Fs, rel: string): Parsed
    requires rel != ""
  {
    var rooted := if f.root == "" then rel[0] == '/' else f.root[0] == '/';
    Parsed(rooted, PushAll(rooted, CleanRoot(f), Split(rel)))
  }

  lemma JoinedIsStandard(f: Fs, rel: string)
    requires rel != ""
    ensures Standard(f, rel) == Render(Joined(f, rel)) && Canonical(Joined(f, rel))
  {
    if f.root == "" {
      assert CleanRoot(f) == [] by { assert Split("") == [""]; }
      ParseCanonical(rel);
    } else {
      var p := f.root + "/" + rel;
      assert p[0] == f.root[0];
      SplitConcat(f.root, rel);
      PushAllConcat(p[0] == '/', [], Split(f.root), Split(rel));
      ParseCanonical(p);
    }
  }

  /** The standard segments a relative path stands for. */
  function Segs(f: Fs, rel: string): seq<string> {
    if rel == "" then RootSegs(f) else Kept(Joined(f, rel))
  }

  lemma {:induction false} SegsOfStandard(f: Fs, rel: string)
    ensures Keep(Split(Standard(f, rel))) == Segs(f, rel)
  {
    if rel != "" {
      JoinedIsStandard(f, rel);
      KeepRender(Joined(f, rel));
    }
  }

  /** The encoder turns each of the path's segments into one wire name. */
  predicate Intact(f: Fs, rel: string) { AllNames(Map(f.enc, Segs(f, rel))) }

  lemma {:induction false} KeepMap(g: string -> string, parts: seq<string>)
    requires g("") == "" && AllNames(Map(g, Keep(parts)))
    ensures Keep(Map(g, parts)) == Map(g, Keep(parts))
    ensures Plain(Map(g, parts))
  {
    if parts != [] {
      var k, m := Keep(parts), Map(g, parts);
      assert parts[0] != "" ==> k[1..] == Keep(parts[1..]) && Map(g, k)[1..] == Map(g, k[1..]) && IsName(Map(g, k)[0]);
      KeepMap(g, parts[1..]);
      assert m[1..] == Map(g, parts[1..]);
      assert m == [m[0]] + m[1..];
    }
  }

  /** For any root, any path and any encoder that leaves the empty piece empty: the
      address is the encoding of the path, segment by segment, exactly when each
      segment is encoded as one wire name. */
  lemma {:induction false} AddressSegsIff(f: Fs, rel: string)
    requires f.enc("") == ""
    ensures WireSegs(AbsPath(f, rel)) == Map(f.enc, Segs(f, rel)) <==> Intact(f, rel)
  {
    AbsPathCanonical(f, rel);
    if Intact(f, rel) {
      SegsOfStandard(f, rel);
      EncodedSegs(f.enc, Split(Standard(f, rel)));
    }
  }

  lemma {:induction false} EncodedSegs(g: string -> string, parts: seq<string>)
    requires g("") == "" && parts != [] && AllNames(Map(g, Keep(parts)))
    ensures WireSegs(CleanPath(Join(Map(g, parts)))) == Map(g, Keep(parts))
  {
    var m := Map(g, parts);
    KeepMap(g, parts);
    assert m != [] && SlashFree(m);
    SplitJoin(m);
    PushAllKeep(true, [], m);
    assert [] + Keep(m) == Keep(m);
    CleanPathCanonical(Join(m));
    AbsCleanPath(Keep(m));
  }

  /** An encoder without exceptions: every piece becomes one wire name, names come back
      from their encoding, and decoding a name gives one piece. */
  ghost predicate Codec(f: Fs) {
    && f.enc("") == ""
    && (forall s {:trigger f.enc(s)} :: Segment(s) ==> IsName(f.enc(s)))
    && (forall s {:trigger f.dec(s)} :: Segment(s) ==> Segment(f.dec(s)))
    && (forall s {:trigger f.enc(s)} :: IsName(s) ==> f.dec(f.enc(s)) == s)
  }

  /** Such encoders exist, among them encoders that are lossless on every segment,
      the dot segments included. */
  lemma CodecExists(root: string, parse: string -> Time)
    ensures exists f :: Codec(f) && f.root == root && forall s :: s != "" ==> f.dec(f.enc(s)) == s
  {
    var enc := (s: string) => if s == "" then "" else "x" + s;
    var dec := (s: string) => if |s| > 1 && s[0] == 'x' then s[1..] else s;
    var f := Fs(root, enc, dec, parse);
    forall s | s != "" ensures f.dec(f.enc(s)) == s {
      assert ("x" + s)[0] == 'x' && ("x" + s)[1..] == s;
    }
    assert Codec(f);
  }

  /** Under such an encoder every path is intact. */
  lemma {:induction false} CodecIntact(f: Fs, rel: string)
    requires Codec(f)
    ensures Intact(f, rel)
  {
    SegsOfStandard(f, rel);
    var parts := Split(Standard(f, rel));
    forall i | 0 <= i < |Segs(f, rel)| ensures IsName(f.enc(Segs(f, rel)[i])) {
      assert Segs(f, rel)[i] in parts;
    }
  }

  /** Cleaning the root can only shorten it, and shortens it unless it changes
      nothing. */
  lemma {:induction false} CleaningShortens(rooted: bool, stack: seq<string>, parts: seq<string>)
    ensures var r := PushAll(rooted, stack, parts);
            |r| < |stack| + |Keep(parts)| || r == stack + Keep(parts)
    decreases |parts|
  {
    if parts != [] {
      CleaningShortens(rooted, Push(rooted, stack, parts[0]), parts[1..]);
      PushShortens(rooted, stack, parts[0], Keep(parts[1..]));
    }
  }

  lemma PushShortens(rooted: bool, stack: seq<string>, seg: string, kept: seq<string>)
    ensures var next := Push(rooted, stack, seg);
            if seg == "" then next == stack
            else |next| <= |stack| || next + kept == stack + ([seg] + kept)
  {
  }

  lemma CleanRootShorter(f: Fs)
    ensures |CleanRoot(f)| <= |RootSegs(f)|
    ensures |CleanRoot(f)| == |RootSegs(f)| ==> CleanRoot(f) == RootSegs(f)
    ensures f.root != "" && !RootIsAbsolute(f) ==> RootSegs(f) != []
  {
    CleaningShortens(RootIsAbsolute(f), [], Split(f.root));
    assert [] + Keep(Split(f.root)) == Keep(Split(f.root));
  }

  /** The standard segments a clean relative directory stands for. */
  function Base(f: Fs, d: seq<string>): seq<string> {
    if d == [] then RootSegs(f) else CleanRoot(f) + d
  }

  /** What a clean relative path stands for: the root as it stands, or the cleaned
      root followed by the names; its address encodes exactly that when it is intact. */
  lemma {:induction false} AbsPathOfNames(f: Fs, d: seq<string>)
    requires AllNames(d) && f.enc("") == ""
    ensures Segs(f, Join(d)) == Base(f, d)
    ensures WireSegs(AbsPath(f, Join(d))) == Map(f.enc, Base(f, d)) <==> AllNames(Map(f.enc, Base(f, d)))
  {
    AddressSegsIff(f, Join(d));
    if d != [] {
      JoinHead(d);
      SplitJoin(d);
      KeepAll(d);
      PushAllKeep(Joined(f, Join(d)).rooted, CleanRoot(f), d);
    }
  }

  // ---------------------------------------------------------------------
  // Addressing an address
  // ---------------------------------------------------------------------

  /** The segments an address stands for when it is taken for a relative path. */
  lemma {:induction false} SegsOfAddress(f: Fs, segs: seq<string>)
    requires AllNames(segs) && (f.root == "" || RootIsAbsolute(f) || segs != [])
    ensures Segs(f, Abs(segs)) == CleanRoot(f) + segs
  {
    var a := Abs(segs);
    SplitRender(Parsed(true, segs));
    assert Plain(Split(a)) && a[0] == '/';
    KeepRender(Parsed(true, segs));
    PushAllKeep(Joined(f, a).rooted, CleanRoot(f), Split(a));
  }

  lemma MapIsSuffix(g: string -> string, pre: seq<string>, segs: seq<string>)
    ensures Map(g, pre + segs) == segs <==> pre == [] && forall s :: s in segs ==> g(s) == s
  {
    var m := Map(g, pre + segs);
    if m == segs {
      assert |m| == |pre| + |segs|;
      assert pre + segs == segs;
      forall s | s in segs ensures g(s) == s {
        var i :| 0 <= i < |segs| && segs[i] == s;
        assert m[i] == g(segs[i]);
      }
    }
    if pre == [] && forall s :: s in segs ==> g(s) == s {
      assert pre + segs == segs;
      assert m == segs;
    }
  }

  /** Addressing is not idempotent: for any root and any path, both intact when
      addressed, addressing the address gives it back exactly when the root cleans to
      nothing and the encoder leaves the address's names alone. */
  lemma {:induction false} AbsPathIdempotentIff(f: Fs, rel: string)
    requires f.enc("") == "" && Intact(f, rel) && Intact(f, AbsPath(f, rel))
    ensures var a := AbsPath(f, rel);
            AbsPath(f, a) == a <==>
            CleanRoot(f) == [] && forall s :: s in WireSegs(a) ==> f.enc(s) == s
  {
    var a := AbsPath(f, rel);
    var segs := WireSegs(a);
    AbsPathCanonical(f, rel);
    AddressSegsIff(f, rel);
    CleanRootShorter(f);
    SegsOfAddress(f, segs);
    AbsPathCanonical(f, a);
    AddressSegsIff(f, a);
    AbsInjective(Map(f.enc, CleanRoot(f) + segs), segs);
    MapIsSuffix(f.enc, CleanRoot(f), segs);
  }

  /** A witness: a non-empty root is joined in again. */
  lemma {:induction false} AbsPathNotIdempotent(f: Fs)
    requires f.enc("") == "" && f.root == "r" && Intact(f, "a") && Intact(f, AbsPath(f, "a"))
    ensures AbsPath(f, AbsPath(f, "a")) != AbsPath(f, "a")
  {
    SplitSlashFree("r");
    assert PushAll(false, [], ["r"]) == ["r"];
    AbsPathIdempotentIff(f, "a");
  }
}
