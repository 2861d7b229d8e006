/** Slash-separated paths as Go's `path` and `path/filepath` packages treat them
    on Unix: splitting, joining, lexical cleaning, and the string tests
    (`HasPrefix`, `TrimPrefix`, `Contains`, `Count`) the mount builds on.

    The central facts: splitting and joining are inverse; cleaning is a fold over
    a segment stack whose results are exactly the canonical paths; and the string
    prefix test "a begins with b followed by a slash" is a statement about
    segment lists. */
module Paths {

  // ---------------------------------------------------------------------
  // String tests
  // ---------------------------------------------------------------------

  predicate HasPrefix(s: string, p: string) { p <= s }

  function TrimPrefix(s: string, p: string): string {
    if HasPrefix(s, p) then s[|p|..] else s
  }

  predicate Contains(s: string, c: char) { c in s }

  function Count(s: string, c: char): nat {
    if s == "" then 0 else (if s[0] == c then 1 else 0) + Count(s[1..], c)
  }

  // ---------------------------------------------------------------------
  // Splitting and joining
  // ---------------------------------------------------------------------

  /** All pieces between slashes, empty pieces included. */
  function Split(s: string): (parts: seq<string>)
    ensures |parts| >= 1
    ensures forall i :: 0 <= i < |parts| ==> '/' !in parts[i]
  {
    if s == "" then [""]
    else
      var rest := Split(s[1..]);
      if s[0] == '/' then [""] + rest
      else [[s[0]] + rest[0]] + rest[1..]
  }

  function Join(parts: seq<string>): string {
    if |parts| == 0 then ""
    else if |parts| == 1 then parts[0]
    else parts[0] + "/" + Join(parts[1..])
  }

  /** No piece holds a separator. */
  predicate SlashFree(parts: seq<string>) {
    forall i :: 0 <= i < |parts| ==> '/' !in parts[i]
  }

  lemma {:induction false} SplitSlashFree(s: string)
    requires '/' !in s
    ensures Split(s) == [s]
  {
    if s != "" {
      SplitSlashFree(s[1..]);
      assert [s[0]] + s[1..] == s;
    }
  }

  /** How one more leading character changes the pieces. */
  function Cons(c: char, parts: seq<string>): seq<string>
    requires parts != []
  {
    if c == '/' then [""] + parts else [[c] + parts[0]] + parts[1..]
  }

  lemma SplitCons(c: char, s: string)
    ensures Split([c] + s) == Cons(c, Split(s))
  {
  }

  lemma ConsConcat(c: char, p: seq<string>, q: seq<string>)
    requires p != []
    ensures Cons(c, p + q) == Cons(c, p) + q
  {
  }

  lemma {:induction false} SplitConcat(a: string, b: string)
    ensures Split(a + "/" + b) == Split(a) + Split(b)
  {
    if a == "" {
      SplitCons('/', b);
      assert a + "/" + b == ['/'] + b;
    } else {
      var c, t := a[0], a[1..];
      SplitConcat(t, b);
      calc {
        Split(a + "/" + b);
        { assert a + "/" + b == [c] + (t + "/" + b); }
        Split([c] + (t + "/" + b));
        { SplitCons(c, t + "/" + b); }
        Cons(c, Split(t) + Split(b));
        { ConsConcat(c, Split(t), Split(b)); }
        Cons(c, Split(t)) + Split(b);
        { SplitCons(c, t); assert a == [c] + t; }
        Split(a) + Split(b);
      }
    }
  }

  lemma {:induction false} JoinSplit(s: string)
    ensures Join(Split(s)) == s
  {
    if s != "" {
      JoinSplit(s[1..]);
      var rest := Split(s[1..]);
      if s[0] == '/' {
        assert ([""] + rest)[1..] == rest;
        assert "" + "/" + s[1..] == s;
      } else {
        var parts := [[s[0]] + rest[0]] + rest[1..];
        assert parts[1..] == rest[1..];
        assert [s[0]] + s[1..] == s;
      }
    }
  }

  lemma {:induction false} SplitJoin(parts: seq<string>)
    requires parts != [] && SlashFree(parts)
    ensures Split(Join(parts)) == parts
  {
    SplitSlashFree(parts[0]);
    if |parts| == 1 {
      assert parts == [parts[0]];
    } else {
      SplitJoin(parts[1..]);
      SplitConcat(parts[0], Join(parts[1..]));
      assert [parts[0]] + parts[1..] == parts;
    }
  }

  lemma {:induction false} JoinConcat(a: seq<string>, b: seq<string>)
    requires a != [] && b != []
    ensures Join(a + b) == Join(a) + "/" + Join(b)
  {
    if |a| == 1 {
      assert (a + b)[1..] == b;
    } else {
      JoinConcat(a[1..], b);
      assert (a + b)[1..] == a[1..] + b;
    }
  }

  /** The separator-boundary prefix test used throughout the mount, for any two
      strings: `b/` begins `a` exactly when `b`'s pieces strictly begin `a`'s. */
  lemma {:induction false} PrefixIsSegmentPrefix(a: string, b: string)
    ensures HasPrefix(a, b + "/") <==> Split(b) < Split(a)
  {
    if HasPrefix(a, b + "/") {
      var t := a[|b| + 1..];
      assert a == b + "/" + t;
      SplitConcat(b, t);
    }
    if Split(b) < Split(a) {
      var t := Split(a)[|Split(b)|..];
      assert Split(a) == Split(b) + t;
      JoinConcat(Split(b), t);
      JoinSplit(a);
      JoinSplit(b);
    }
  }

  lemma {:induction false} SlashCount(s: string)
    ensures Count(s, '/') == |Split(s)| - 1
    ensures Contains(s, '/') <==> |Split(s)| > 1
  {
    if s != "" {
      SlashCount(s[1..]);
      assert s == [s[0]] + s[1..];
    }
  }

  // ---------------------------------------------------------------------
  // Lexical cleaning
  // ---------------------------------------------------------------------

  /** A segment that names something: not empty, not a dot segment. */
  predicate IsName(s: string) {
    s != "" && s != "." && s != ".." && '/' !in s
  }

  predicate AllNames(segs: seq<string>) {
    forall i :: 0 <= i < |segs| ==> IsName(segs[i])
  }

  /** One step of lexical cleaning over the stack of kept segments. */
  function Push(rooted: bool, stack: seq<string>, seg: string): seq<string> {
    if seg == "" || seg == "." then stack
    else if seg == ".." then
      if stack != [] && stack[|stack| - 1] != ".." then stack[..|stack| - 1]
      else if rooted then stack
      else stack + [".."]
    else stack + [seg]
  }

  function PushAll(rooted: bool, stack: seq<string>, segs: seq<string>): seq<string>
    decreases |segs|
  {
    if segs == [] then stack
    else PushAll(rooted, Push(rooted, stack, segs[0]), segs[1..])
  }

  /** The parsed form of a path: absolute or relative, and its segments. */
  datatype Parsed = Parsed(rooted: bool, segs: seq<string>)

  function Parse(p: string): Parsed {
    var rooted := p != "" && p[0] == '/';
    Parsed(rooted, PushAll(rooted, [], Split(p)))
  }

  function Render(q: Parsed): string {
    if q.rooted then "/" + Join(q.segs)
    else if q.segs == [] then "."
    else Join(q.segs)
  }

  /** Go's `path.Clean` / `filepath.Clean`. */
  function Clean(p: string): string { Render(Parse(p)) }

  /** What a cleaned path may look like: names only, except that a relative path
      may begin with `..` segments that had nothing to cancel. */
  predicate Canonical(q: Parsed) {
    && (q.rooted ==> AllNames(q.segs))
    && (forall i :: 0 <= i < |q.segs| ==>
          && (IsName(q.segs[i]) || q.segs[i] == "..")
          && (q.segs[i] == ".." ==> forall j :: 0 <= j < i ==> q.segs[j] == ".."))
  }

  lemma {:induction false} PushAllCanonical(rooted: bool, stack: seq<string>, segs: seq<string>)
    requires Canonical(Parsed(rooted, stack)) && SlashFree(segs)
    ensures Canonical(Parsed(rooted, PushAll(rooted, stack, segs)))
    decreases |segs|
  {
    if segs != [] {
      PushAllCanonical(rooted, Push(rooted, stack, segs[0]), segs[1..]);
    }
  }

  lemma ParseCanonical(p: string)
    ensures Canonical(Parse(p))
  {
    PushAllCanonical(p != "" && p[0] == '/', [], Split(p));
  }

  /** Cleaning keeps an already clean segment list as it is. */
  lemma {:induction false} PushAllClean(rooted: bool, stack: seq<string>, segs: seq<string>)
    requires Canonical(Parsed(rooted, stack + segs))
    ensures PushAll(rooted, stack, segs) == stack + segs
    decreases |segs|
  {
    if segs == [] {
      assert stack + segs == stack;
    } else {
      var k := |stack|;
      assert (stack + segs)[k] == segs[0];
      assert stack != [] ==> (stack + segs)[k - 1] == stack[k - 1];
      assert Push(rooted, stack, segs[0]) == stack + [segs[0]];
      assert stack + [segs[0]] + segs[1..] == stack + segs;
      PushAllClean(rooted, stack + [segs[0]], segs[1..]);
    }
  }

  lemma {:induction false} PushAllConcat(rooted: bool, stack: seq<string>, a: seq<string>, b: seq<string>)
    ensures PushAll(rooted, stack, a + b) == PushAll(rooted, PushAll(rooted, stack, a), b)
    decreases |a|
  {
    if a == [] {
      assert a + b == b;
    } else {
      assert (a + b)[1..] == a[1..] + b;
      PushAllConcat(rooted, Push(rooted, stack, a[0]), a[1..], b);
    }
  }

  /** The pieces of a rendered canonical path. */
  lemma SplitRender(q: Parsed)
    requires Canonical(q)
    ensures Split(Render(q)) ==
            if q.segs == [] then (if q.rooted then ["", ""] else ["."])
            else if q.rooted then [""] + q.segs
            else q.segs
  {
    if q.segs != [] {
      SplitJoin(q.segs);
      assert "" + "/" + Join(q.segs) == "/" + Join(q.segs);
      SplitConcat("", Join(q.segs));
      assert Split("") == [""];
    } else {
      SplitConcat("", "");
      assert "" + "/" + "" == "/";
      assert Split("") == [""];
      SplitSlashFree(".");
    }
  }

  /** Rendering a canonical path and parsing it again loses nothing, so a
      canonical path is determined by its text. */
  lemma ParseRender(q: Parsed)
    requires Canonical(q)
    ensures Parse(Render(q)) == q
  {
    SplitRender(q);
    PushAllClean(q.rooted, [], q.segs);
    assert [] + q.segs == q.segs;
    var s, parts := Render(q), Split(Render(q));
    if q.rooted {
      assert s[0] == '/';
      assert PushAll(true, [], parts) == PushAll(true, [], parts[1..]);
      if q.segs == [] {
        assert parts[1..] == [""];
        assert PushAll(true, [], [""]) == [];
      } else {
        assert parts[1..] == q.segs;
      }
    } else if q.segs == [] {
      assert PushAll(false, [], ["."]) == [];
    } else {
      var t := q.segs[0];
      assert t != "" && t[0] in t;
      JoinHead(q.segs);
    }
  }

  lemma JoinHead(parts: seq<string>)
    requires parts != [] && parts[0] != ""
    ensures Join(parts) != "" && Join(parts)[0] == parts[0][0]
  {
  }

  /** Cleaning is idempotent, on every string. */
  lemma CleanIdempotent(p: string)
    ensures Clean(Clean(p)) == Clean(p)
  {
    ParseCanonical(p);
    ParseRender(Parse(p));
  }

  // ---------------------------------------------------------------------
  // Wire paths: absolute canonical paths
  // ---------------------------------------------------------------------

  /** The absolute path with these segments. */
  function Abs(segs: seq<string>): string { Render(Parsed(true, segs)) }

  /** `cleanPath` of the backend: anchor at the root, then clean. */
  function CleanPath(p: string): string { Clean("/" + p) }

  /** The segments `CleanPath` keeps. */
  function WireSegs(p: string): seq<string> { PushAll(true, [], Split(p)) }

  lemma AnchoredParse(p: string)
    ensures Parse("/" + p) == Parsed(true, WireSegs(p))
  {
  }

  lemma CleanPathCanonical(p: string)
    ensures CleanPath(p) == Abs(WireSegs(p))
    ensures AllNames(WireSegs(p))
    ensures CleanPath(CleanPath(p)) == CleanPath(p)
  {
    AnchoredParse(p);
    PushAllCanonical(true, [], Split(p));
    AbsCleanPath(WireSegs(p));
  }

  lemma AbsCleanPath(segs: seq<string>)
    requires AllNames(segs)
    ensures WireSegs(Abs(segs)) == segs
    ensures CleanPath(Abs(segs)) == Abs(segs)
  {
    ParseRender(Parsed(true, segs));
    AnchoredParse(Abs(segs));
  }

  lemma AbsInjective(a: seq<string>, b: seq<string>)
    requires AllNames(a) && AllNames(b)
    ensures Abs(a) == Abs(b) <==> a == b
  {
    ParseRender(Parsed(true, a));
    ParseRender(Parsed(true, b));
  }

  /** Go's two-element `path.Join` (empty elements are skipped). */
  function JoinTwo(a: string, b: string): string {
    if a == "" && b == "" then ""
    else if a == "" then Clean(b)
    else Clean(a + "/" + b)
  }

  // ---------------------------------------------------------------------
  // What cleaning does
  // ---------------------------------------------------------------------

  /** Pieces that leave what is before them as it is may be left out. */
  lemma {:induction false} CleanWithout(a: string, mid: seq<string>, b: string)
    requires mid != [] && SlashFree(mid)
    requires var rooted := a == "" || a[0] == '/';
             var before := PushAll(rooted, [], Split(a)); PushAll(rooted, before, mid) == before
    ensures Clean(a + "/" + (Join(mid) + "/" + b)) == Clean(a + "/" + b)
  {
    var rooted := a == "" || a[0] == '/';
    SplitConcat(a, Join(mid) + "/" + b);
    SplitConcat(Join(mid), b);
    SplitJoin(mid);
    SplitConcat(a, b);
    PushAllConcat(rooted, [], Split(a), mid + Split(b));
    PushAllConcat(rooted, PushAll(rooted, [], Split(a)), mid, Split(b));
    PushAllConcat(rooted, [], Split(a), Split(b));
    assert (a + "/" + b)[0] == (a + "/" + (Join(mid) + "/" + b))[0];
  }

  /** The rules of lexical cleaning, in any surroundings: doubled separators and "."
      elements go; a ".." goes together with the name before it, and alone right after
      a leading slash. */
  lemma {:induction false} CleanRules(a: string, name: string, b: string)
    requires IsName(name)
    ensures Clean(a + "/" + ("" + "/" + b)) == Clean(a + "/" + b)
    ensures Clean(a + "/" + ("." + "/" + b)) == Clean(a + "/" + b)
    ensures Clean(a + "/" + (name + "/.." + "/" + b)) == Clean(a + "/" + b)
    ensures Clean("" + "/" + (".." + "/" + b)) == Clean("" + "/" + b)
  {
    var rooted := a == "" || a[0] == '/';
    var before := PushAll(rooted, [], Split(a));
    assert Join([""]) == "" && Join(["."]) == "." && Join([".."]) == "..";
    CleanWithout(a, [""], b);
    CleanWithout(a, ["."], b);
    PushAndPop(rooted, before, name);
    assert [name, ".."][1..] == [".."] && Join([name, ".."]) == name + "/" + "..";
    assert name + "/" + ".." == name + "/..";
    CleanWithout(a, [name, ".."], b);
    assert PushAll(true, [], Split("")) == [] by { assert Split("") == [""]; }
    CleanWithout("", [".."], b);
  }

  lemma PushAndPop(rooted: bool, stack: seq<string>, name: string)
    requires IsName(name)
    ensures PushAll(rooted, stack, [name, ".."]) == stack
  {
    assert [name, ".."][1..] == [".."];
    assert PushAll(rooted, stack, [name, ".."]) == PushAll(rooted, stack + [name], [".."]);
    assert (stack + [name])[..|stack|] == stack;
  }
}
