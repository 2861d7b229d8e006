/** Sequential histories over many handles against an honest broker that other clients
    also write to: what `Size` reports against the bytes actually stored. */
module ObjectHistory {
  import opened Wrappers
  import opened Wire
  import opened ObjectHandle

  datatype Handle = Handle(path: string, held: Meta)

  /** The broker's files by path, the handles given out, and the handles whose path
      changed otherwise than through them since their own last write (or that were
      copied or moved from such a handle). */
  datatype State = State(broker: map<string, File>, handles: seq<Handle>, behind: set<nat>)

  /** How the broker's lookup goes, when one is made. */
  datatype Luck = Answered | Broken(error: Error)

  datatype Read = ReadModTime | ReadSize | ReadMimeType | ReadOpen

  datatype Op =
    | Put(path: string, file: File)
    | Find(path: string)
    | Update(h: nat, file: File)
    | Copy(h: nat, dst: string, file: File, luck: Luck)
    | Move(h: nat, dst: string, file: File, luck: Luck)
    | Remove(h: nat)
    | Look(h: nat, what: Read, luck: Luck)
    // a write or removal no handle learns of: another client's, or an upload whose
    // acknowledgement was lost
    | Unseen(path: string, change: Option<File>)

  /** An honest answer to a metadata lookup. */
  function LookupAt(broker: map<string, File>, path: string, luck: Luck): Lookup {
    match luck
    case Broken(e) => LookupFailed(e)
    case Answered => if path in broker then Answer(broker[path], "") else LookupFailed(NotFound)
  }

  /** Files are stored under their own path. */
  predicate Sane(broker: map<string, File>) {
    forall p :: p in broker ==> p != "" && broker[p].path == p
  }

  /** Everyone but `h` at one of `paths` falls behind. */
  function Overtaken(s: State, h: nat, paths: set<string>): set<nat> {
    set i | 0 <= i < |s.handles| && i != h && s.handles[i].path in paths
  }

  /** Which operations the broker carries out: the handle exists, uploaded and
      transferred files keep their byte count. */
  predicate Allowed(s: State, op: Op) {
    match op
    case Put(path, file) => path != "" && file.path == path
    case Find(path) => path in s.broker
    case Update(h, file) => h < |s.handles| && s.handles[h].path != "" && file.path == s.handles[h].path
    case Copy(h, dst, file, _) =>
      && h < |s.handles| && s.handles[h].path in s.broker
      && dst != "" && file.path == dst && file.size == s.broker[s.handles[h].path].size
    case Move(h, dst, file, _) =>
      && h < |s.handles| && s.handles[h].path in s.broker
      && dst != "" && file.path == dst && file.size == s.broker[s.handles[h].path].size
    case Remove(h) => h < |s.handles| && s.handles[h].path in s.broker
    case Look(h, _, _) => h < |s.handles|
    case Unseen(path, change) => change.Some? ==> path != "" && change.value.path == path
  }

  function Looked(parse: string -> Time, held: Meta, what: Read, l: Lookup): Meta {
    match what
    case ReadSize => Sized(parse, held, l)
    case ReadMimeType => if held.uuid == "" && held.mime == "" then Resolved(parse, held, l) else held
    case ReadModTime => Resolved(parse, held, l)
    case ReadOpen => Resolved(parse, held, l)
  }

  /** The broker after a copy or move of handle h's file. */
  function Transferred(s: State, op: Op): map<string, File>
    requires (op.Copy? || op.Move?) && Allowed(s, op)
  {
    if op.Copy? then s.broker[op.dst := op.file]
    else (s.broker - {s.handles[op.h].path})[op.dst := op.file]
  }

  function Transfer(parse: string -> Time, s: State, op: Op): State
    requires (op.Copy? || op.Move?) && Allowed(s, op)
  {
    var src := s.handles[op.h];
    var broker := Transferred(s, op);
    var held := Sized(parse, src.held, LookupAt(broker, src.path, op.luck));
    var handles := s.handles[op.h := Handle(src.path, held)] + [Handle(op.dst, AckOnly(held.size))];
    var touched := if op.Copy? then {op.dst} else {op.dst, src.path};
    var behind := s.behind + Overtaken(s, |s.handles|, touched);
    State(broker, handles, if op.h in s.behind then behind + {|s.handles|} else behind)
  }

  function Apply(parse: string -> Time, s: State, op: Op): State
    requires Allowed(s, op)
  {
    match op
    case Put(path, file) =>
      State(s.broker[path := file], s.handles + [Handle(path, AckOnly(file.size))],
            s.behind + Overtaken(s, |s.handles|, {path}))
    case Find(path) =>
      s.(handles := s.handles + [Handle(path, MetaOf(parse, s.broker[path]))])
    case Update(h, file) =>
      var o := s.handles[h];
      State(s.broker[o.path := file], s.handles[h := Handle(o.path, o.held.(uuid := "", size := file.size))],
            (s.behind - {h}) + Overtaken(s, h, {o.path}))
    case Copy(_, _, _, _) => Transfer(parse, s, op)
    case Move(_, _, _, _) => Transfer(parse, s, op)
    case Remove(h) =>
      State(s.broker - {s.handles[h].path}, s.handles, s.behind + Overtaken(s, h, {s.handles[h].path}))
    case Look(h, what, luck) =>
      var o := s.handles[h];
      s.(handles := s.handles[h := Handle(o.path, Looked(parse, o.held, what, LookupAt(s.broker, o.path, luck)))])
    case Unseen(path, change) =>
      s.(broker := match change case Some(file) => s.broker[path := file] case None => s.broker - {path},
         behind := s.behind + Overtaken(s, |s.handles|, {path}))
  }

  predicate History(parse: string -> Time, s: State, ops: seq<Op>, s': State)
    decreases |ops|
  {
    if ops == [] then s' == s
    else Allowed(s, ops[0]) && History(parse, Apply(parse, s, ops[0]), ops[1..], s')
  }

  /** The paths whose file an operation replaces or removes. */
  predicate Touches(s: State, op: Op, path: string)
    requires Allowed(s, op)
  {
    match op
    case Put(p, _) => path == p
    case Find(_) => false
    case Update(h, _) => path == s.handles[h].path
    case Copy(_, dst, _, _) => path == dst
    case Move(h, dst, _, _) => path == dst || path == s.handles[h].path
    case Remove(h) => path == s.handles[h].path
    case Look(_, _, _) => false
    case Unseen(p, _) => path == p
  }

  /** No handle is behind without reason: an existing one exactly when it was and did
      not just write, or when its path was touched otherwise than by its own write or
      removal; a new one exactly when it was copied or moved from one behind. The
      stored files change at the touched paths only. */
  lemma BehindMeans(parse: string -> Time, s: State, op: Op)
    requires Allowed(s, op)
    ensures var s' := Apply(parse, s, op);
            && (forall i :: 0 <= i < |s.handles| ==>
                  (i in s'.behind <==>
                     || (i in s.behind && !(op.Update? && op.h == i))
                     || (Touches(s, op, s.handles[i].path) && !((op.Update? || op.Remove?) && op.h == i))))
            && (forall i :: |s.handles| <= i < |s'.handles| && i !in s.behind ==>
                  (i in s'.behind <==> (op.Copy? || op.Move?) && op.h in s.behind))
            && (forall p :: !Touches(s, op, p) ==> (p in s'.broker <==> p in s.broker) && (p in s.broker ==> s'.broker[p] == s.broker[p]))
  {
  }

  /** What the broker stores afterwards at the touched paths. */
  lemma StoredMeans(parse: string -> Time, s: State, op: Op)
    requires Allowed(s, op)
    ensures var b := Apply(parse, s, op).broker;
            && (op.Put? ==> op.path in b && b[op.path] == op.file)
            && (op.Update? ==> s.handles[op.h].path in b && b[s.handles[op.h].path] == op.file)
            && (op.Copy? || op.Move? ==> op.dst in b && b[op.dst] == op.file)
            && (op.Move? && op.dst != s.handles[op.h].path ==> s.handles[op.h].path !in b)
            && (op.Remove? ==> s.handles[op.h].path !in b)
            && (op.Unseen? && op.change.Some? ==> op.path in b && b[op.path] == op.change.value)
            && (op.Unseen? && op.change.None? ==> op.path !in b)
  {
  }

  /** The size a copy or move carries: the source handle's own if it holds anything; for
      one that holds nothing, what a lookup after the transfer finds, so nothing once
      the file was moved away. */
  lemma CarriedSize(parse: string -> Time, s: State, op: Op)
    requires Sane(s.broker) && (op.Copy? || op.Move?) && Allowed(s, op)
    ensures var src := s.handles[op.h];
            var carried := Apply(parse, s, op).handles[|s.handles|].held.size;
            var blank := src.held.uuid == "" && src.held.size == 0;
            && (!blank ==> carried == src.held.size)
            && (blank && op.luck.Broken? ==> carried == 0)
            && (blank && op.Copy? && op.luck.Answered? ==> carried == s.broker[src.path].size)
            && (blank && op.Move? && op.dst != src.path ==> carried == 0)
  {
  }

  // ---------------------------------------------------------------------
  // The invariant
  // ---------------------------------------------------------------------

  /** The handle's size is the stored one, or it holds nothing and will ask. */
  predicate Truthful(broker: map<string, File>, o: Handle) {
    o.path in broker ==>
      o.held.size == broker[o.path].size || (o.held.uuid == "" && o.held.size == 0)
  }

  predicate Sound(s: State) {
    && Sane(s.broker)
    && (forall i :: i in s.behind ==> i < |s.handles|)
    && (forall i :: 0 <= i < |s.handles| && i !in s.behind ==> Truthful(s.broker, s.handles[i]))
  }

  /** Any look at a truthful handle leaves it truthful. */
  lemma LookTruthful(parse: string -> Time, broker: map<string, File>, o: Handle, luck: Luck)
    requires Sane(broker) && Truthful(broker, o)
    ensures Truthful(broker, Handle(o.path, Resolved(parse, o.held, LookupAt(broker, o.path, luck))))
    ensures Truthful(broker, Handle(o.path, Sized(parse, o.held, LookupAt(broker, o.path, luck))))
  {
  }

  /** What `Size` reports for a handle of a stored file, its lookup answered, is the
      stored byte count exactly when the handle is truthful; a failed lookup can only
      make a truthful handle report 0 instead. */
  lemma SizeIsStored(parse: string -> Time, broker: map<string, File>, o: Handle, luck: Luck)
    requires Sane(broker) && o.path in broker
    ensures var n := Sized(parse, o.held, LookupAt(broker, o.path, luck)).size;
            && (luck.Answered? ==> (n == broker[o.path].size <==> Truthful(broker, o)))
            && (Truthful(broker, o) ==> n == broker[o.path].size || (n == 0 && luck.Broken?))
  {
  }

  lemma TransferSound(parse: string -> Time, s: State, op: Op)
    requires Sound(s) && (op.Copy? || op.Move?) && Allowed(s, op)
    ensures Sound(Transfer(parse, s, op))
  {
  }

  /** The new handle is truthful when its source is not behind. */
  lemma CarriedTruthful(parse: string -> Time, s: State, op: Op)
    requires Sound(s) && (op.Copy? || op.Move?) && Allowed(s, op) && op.h !in s.behind
    ensures var s' := Transfer(parse, s, op);
            Truthful(s'.broker, s'.handles[|s.handles|])
  {
  }

  lemma ApplySound(parse: string -> Time, s: State, op: Op)
    requires Sound(s) && Allowed(s, op)
    ensures Sound(Apply(parse, s, op))
  {
    if op.Copy? || op.Move? {
      TransferSound(parse, s, op);
    } else if op.Look? {
      var o := s.handles[op.h];
      if op.h !in s.behind {
        LookTruthful(parse, s.broker, o, op.luck);
      }
    }
  }

  /** In every history, a handle that is not behind reports the stored byte count of
      its path, unless its own metadata lookup failed (then possibly 0). */
  lemma {:induction false} SizeHonestInEveryHistory(parse: string -> Time, s: State, ops: seq<Op>, s': State, i: nat, luck: Luck)
    requires Sound(s) && History(parse, s, ops, s')
    requires i < |s'.handles| && i !in s'.behind && s'.handles[i].path in s'.broker
    ensures var o := s'.handles[i];
            var n := Sized(parse, o.held, LookupAt(s'.broker, o.path, luck)).size;
            n == s'.broker[o.path].size || (n == 0 && luck.Broken?)
    decreases |ops|
  {
    if ops == [] {
      SizeIsStored(parse, s.broker, s.handles[i], luck);
    } else {
      ApplySound(parse, s, ops[0]);
      SizeHonestInEveryHistory(parse, Apply(parse, s, ops[0]), ops[1..], s', i, luck);
    }
  }

  // ---------------------------------------------------------------------
  // What an open works with
  // ---------------------------------------------------------------------

  /** A held uuid comes with exactly the stored file's metadata. */
  predicate Current(parse: string -> Time, broker: map<string, File>, o: Handle) {
    o.path in broker && o.held.uuid != "" ==> o.held == MetaOf(parse, broker[o.path])
  }

  predicate Synced(parse: string -> Time, s: State) {
    && Sane(s.broker)
    && (forall i :: 0 <= i < |s.handles| && i !in s.behind ==> Current(parse, s.broker, s.handles[i]))
  }

  lemma ResolveCurrent(parse: string -> Time, broker: map<string, File>, o: Handle, luck: Luck)
    requires Sane(broker) && Current(parse, broker, o)
    ensures Current(parse, broker, Handle(o.path, Resolved(parse, o.held, LookupAt(broker, o.path, luck))))
  {
  }

  lemma TransferSynced(parse: string -> Time, s: State, op: Op)
    requires Synced(parse, s) && (op.Copy? || op.Move?) && Allowed(s, op)
    ensures Synced(parse, Transfer(parse, s, op))
  {
    if op.h !in s.behind {
      ResolveCurrent(parse, s.broker, s.handles[op.h], op.luck);
    }
  }

  lemma ApplySynced(parse: string -> Time, s: State, op: Op)
    requires Synced(parse, s) && Allowed(s, op)
    ensures Synced(parse, Apply(parse, s, op))
  {
    if op.Copy? || op.Move? {
      TransferSynced(parse, s, op);
    } else if op.Look? && op.h !in s.behind {
      ResolveCurrent(parse, s.broker, s.handles[op.h], op.luck);
    }
  }

  /** In every history, what a handle that is not behind holds after resolving for an
      open is the stored file's own metadata, if it holds a uuid at all; and it lacks
      one exactly when the file has none or the lookup it needed failed. */
  lemma {:induction false} OpenWorksWithStored(parse: string -> Time, s: State, ops: seq<Op>, s': State, i: nat, luck: Luck)
    requires Synced(parse, s) && History(parse, s, ops, s')
    requires i < |s'.handles| && i !in s'.behind && s'.handles[i].path in s'.broker
    ensures var o := s'.handles[i];
            var held := Resolved(parse, o.held, LookupAt(s'.broker, o.path, luck));
            && (held.uuid != "" ==> held == MetaOf(parse, s'.broker[o.path]))
            && (held.uuid == "" <==> o.held.uuid == "" && (luck.Broken? || s'.broker[o.path].uuid == ""))
    decreases |ops|
  {
    if ops != [] {
      ApplySynced(parse, s, ops[0]);
      OpenWorksWithStored(parse, Apply(parse, s, ops[0]), ops[1..], s', i, luck);
    }
  }

  // ---------------------------------------------------------------------
  // Being behind is inherited
  // ---------------------------------------------------------------------

  /** Whatever the source's state, the destination of a copy or move starts truthful
      exactly when the source handle, before the call, held size 0 or the byte count
      then stored at its path. */
  lemma CarriedTruthfulIff(parse: string -> Time, s: State, op: Op)
    requires Sane(s.broker) && (op.Copy? || op.Move?) && Allowed(s, op)
    ensures var s' := Transfer(parse, s, op);
            var src := s.handles[op.h];
            Truthful(s'.broker, s'.handles[|s.handles|]) <==>
            src.held.size == 0 || src.held.size == s.broker[src.path].size
  {
  }

  /** A witness: a copy made through a handle whose file was meanwhile replaced
      reports the old size, although nobody else ever touched the copy. */
  lemma CopyFromBehindMisreports(parse: string -> Time)
    ensures var empty := State(map[], [], {});
            var f5 := File("/p", 5, "", "", "", "", "u1");
            var f7 := File("/p", 7, "", "", "", "", "u2");
            var c7 := File("/q", 7, "", "", "", "", "u3");
            exists s' :: History(parse, empty, [Put("/p", f5), Put("/p", f7), Copy(0, "/q", c7, Answered)], s')
              && |s'.handles| == 3 && s'.handles[2].path == "/q" && s'.broker["/q" := c7] == s'.broker
              && Sized(parse, s'.handles[2].held, LookupAt(s'.broker, "/q", Answered)).size == 5
  {
    var f5 := File("/p", 5, "", "", "", "", "u1");
    var f7 := File("/p", 7, "", "", "", "", "u2");
    var c7 := File("/q", 7, "", "", "", "", "u3");
    var ops := [Put("/p", f5), Put("/p", f7), Copy(0, "/q", c7, Answered)];
    var s0 := State(map[], [], {});
    var s1 := Apply(parse, s0, ops[0]);
    assert s1.handles == [Handle("/p", AckOnly(5))];
    var s2 := Apply(parse, s1, ops[1]);
    assert s2.handles == [Handle("/p", AckOnly(5)), Handle("/p", AckOnly(7))];
    var s3 := Apply(parse, s2, ops[2]);
    assert s3.handles[2] == Handle("/q", AckOnly(5));
    assert s3.broker["/q" := c7] == s3.broker;
    Prepend(parse, s2, ops[2], [], s3);
    Prepend(parse, s1, ops[1], [ops[2]], s3);
    Prepend(parse, s0, ops[0], [ops[1], ops[2]], s3);
  }

  lemma Prepend(parse: string -> Time, s: State, op: Op, ops: seq<Op>, s': State)
    requires Allowed(s, op) && History(parse, Apply(parse, s, op), ops, s')
    ensures History(parse, s, [op] + ops, s')
  {
    assert ([op] + ops)[1..] == ops;
  }
}
