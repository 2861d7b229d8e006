/** Histories performed on real handles: a session of `Object`s against one broker
    carries out every operation exactly as ObjectHistory describes it, so what is
    proved of histories holds of the methods that update the objects in place. */
module ObjectSession {
  import opened Wrappers
  import opened Wire
  import opened ObjectHandle
  import opened ObjectHistory
  import D = Download
  import R = Reading

  class Session {
    var broker: map<string, File>
    var objects: seq<Object>

    constructor ()
      ensures broker == map[] && objects == []
    {
      broker, objects := map[], [];
    }

    /** The objects are the handles of `s`, no two of them the same, over its broker. */
    ghost predicate Represents(s: State)
      reads this, objects
    {
      && broker == s.broker && Sane(broker)
      && |objects| == |s.handles|
      && (forall i, j :: 0 <= i < j < |objects| ==> objects[i] != objects[j])
      && (forall i :: 0 <= i < |objects| ==> Stands(objects[i], s.handles[i]))
    }

    ghost predicate Stands(o: Object, h: Handle)
      reads o
    {
      !o.readOnly && o.path == h.path && o.Held() == h.held
    }

    /** Carries out one operation with the objects' own methods. */
    method Do(parse: string -> Time, op: Op, ghost s: State)
      requires Represents(s) && Allowed(s, op)
      modifies this, objects
      ensures Represents(Apply(parse, s, op))
      ensures forall i :: 0 <= i < |objects| ==> objects[i] in old(objects) || fresh(objects[i])
    {
      match op
      case Put(path, file) => Create(parse, op, s);
      case Find(path) => Create(parse, op, s);
      case Update(h, file) => Rewrite(parse, h, file, s);
      case Copy(h, dst, file, luck) => Transfer(parse, op, s);
      case Move(h, dst, file, luck) => Transfer(parse, op, s);
      case Remove(h) => broker := broker - {objects[h].path};
      case Look(h, what, luck) => Inspect(parse, h, what, luck, s);
      case Unseen(path, change) =>
        broker := match change case Some(file) => broker[path := file] case None => broker - {path};
    }

    /** An uploaded or a looked-up object joins the session. */
    method Create(parse: string -> Time, op: Op, ghost s: State)
      requires Represents(s) && Allowed(s, op) && (op.Put? || op.Find?)
      modifies this
      ensures Represents(Apply(parse, s, op))
      ensures forall i :: 0 <= i < |objects| ==> objects[i] in old(objects) || fresh(objects[i])
    {
      var o: Object;
      if op.Put? {
        broker := broker[op.path := op.file];
        o := new Object(op.path, op.path, false, AckOnly(op.file.size));
      } else {
        var l := LookupAt(broker, op.path, Answered);
        var r := NewObject(op.path, op.path, false, parse, l);
        assert ResolveOutcome(AckOnly(0), l) == None;
        o := r.value;
      }
      objects := objects + [o];
    }

    method Rewrite(parse: string -> Time, h: nat, file: File, ghost s: State)
      requires Represents(s) && Allowed(s, Op.Update(h, file))
      modifies this`broker, objects[h]
      ensures Represents(Apply(parse, s, Op.Update(h, file)))
    {
      broker := broker[objects[h].path := file];
      var _ := objects[h].Update(file.size, None);
    }

    method Transfer(parse: string -> Time, op: Op, ghost s: State)
      requires Represents(s) && Allowed(s, op) && (op.Copy? || op.Move?)
      modifies this, objects[op.h]
      ensures Represents(Apply(parse, s, op))
      ensures forall i :: 0 <= i < |objects| ==> objects[i] in old(objects) || fresh(objects[i])
    {
      TransferShape(parse, s, op);
      var src := objects[op.h];
      broker := (if op.Copy? then broker else broker - {src.path})[op.dst := op.file];
      var r := TransferFile(false, src, true, op.dst, op.dst, None, parse, LookupAt(broker, src.path, op.luck));
      objects := objects + [r.value];
    }

    method Inspect(parse: string -> Time, h: nat, what: Read, luck: Luck, ghost s: State)
      requires Represents(s) && Allowed(s, Look(h, what, luck))
      modifies objects[h]
      ensures Represents(Apply(parse, s, Look(h, what, luck)))
    {
      var o := objects[h];
      var l := LookupAt(broker, o.path, luck);
      match what
      case ReadModTime => var _ := o.ModTime(parse, l);
      case ReadSize => var _, _ := o.Size(parse, l);
      case ReadMimeType => var _ := o.MimeType(parse, l);
      case ReadOpen => var _ := o.Snapshot(parse, l);
    }

    /** Carries out a whole history. */
    method Perform(parse: string -> Time, ops: seq<Op>, ghost s: State, ghost s': State)
      requires Represents(s) && History(parse, s, ops, s')
      modifies this, objects
      ensures Represents(s')
      ensures forall i :: 0 <= i < |objects| ==> objects[i] in old(objects) || fresh(objects[i])
      decreases |ops|
    {
      if ops != [] {
        Do(parse, ops[0], s);
        Perform(parse, ops[1..], Apply(parse, s, ops[0]), s');
      }
    }
  }

  /** Which handles a copy or move leaves as they were, and which it changes. */
  lemma TransferShape(parse: string -> Time, s: State, op: Op)
    requires Sane(s.broker) && Allowed(s, op) && (op.Copy? || op.Move?)
    ensures var s' := Apply(parse, s, op);
            var held := Sized(parse, s.handles[op.h].held, LookupAt(s'.broker, s.handles[op.h].path, op.luck));
            && Sane(s'.broker) && |s'.handles| == |s.handles| + 1
            && s'.handles[op.h] == Handle(s.handles[op.h].path, held)
            && s'.handles[|s.handles|] == Handle(op.dst, AckOnly(held.size))
            && forall i :: 0 <= i < |s.handles| && i != op.h ==> s'.handles[i] == s.handles[i]
  {
  }

  /** From nothing, through any history: `Size` of an object that is not behind
      returns the byte count stored at its path, or 0 when its own lookup failed. */
  method SizeAfter(parse: string -> Time, ops: seq<Op>, i: nat, luck: Luck, ghost s': State) returns (n: int, stored: int)
    requires History(parse, State(map[], [], {}), ops, s')
    requires i < |s'.handles| && i !in s'.behind && s'.handles[i].path in s'.broker
    ensures stored == s'.broker[s'.handles[i].path].size
    ensures n == stored || (n == 0 && luck.Broken?)
  {
    var session := new Session();
    session.Perform(parse, ops, State(map[], [], {}), s');
    SizeHonestInEveryHistory(parse, State(map[], [], {}), ops, s', i, luck);
    var o := session.objects[i];
    stored := session.broker[o.path].size;
    var size, _ := o.Size(parse, LookupAt(session.broker, o.path, luck));
    n := size;
  }

  /** From nothing, through any history, to the bytes: opening an object that is not
      behind and reading it delivers what its options mean of the content stored at its
      path, or reports an unsupported mandatory option; it fails exactly when the object
      holds no handle and the lookup failed or the file carries none. */
  method OpenAfter(parse: string -> Time, ops: seq<Op>, i: nat, luck: Luck, options: seq<R.OpenOption>, max: int,
                   server: string -> D.Request -> D.Response, stalls: nat, ghost content: seq<D.byte>, ghost s': State)
    returns (r: Result<R.OpenResult, ObjectError>)
    requires History(parse, State(map[], [], {}), ops, s')
    requires i < |s'.handles| && i !in s'.behind && s'.handles[i].path in s'.broker
    requires var file := s'.broker[s'.handles[i].path];
             file.size == |content| < R.TWO63 && R.Honest(server(file.uuid), content)
    requires max > 0 && forall k :: 0 <= k < |options| ==> R.Representable(options[k])
    ensures r.Ok? ==> if R.Unknown(true) in options then r.value == R.UnsupportedOption
                      else r.value.Opened? && R.Delivers(options, content, max, r.value.observed)
    ensures r.Err? <==> s'.handles[i].held.uuid == "" && (luck.Broken? || s'.broker[s'.handles[i].path].uuid == "")
  {
    var session := new Session();
    session.Perform(parse, ops, State(map[], [], {}), s');
    OpenWorksWithStored(parse, State(map[], [], {}), ops, s', i, luck);
    var o := session.objects[i];
    var snapshot := o.Snapshot(parse, LookupAt(session.broker, o.path, luck));
    if snapshot.Err? {
      return Err(snapshot.error);
    }
    var (uuid, size) := snapshot.value;
    var outcome, _ := R.OpenHonest(uuid, size, content, options, max, server(uuid), stalls);
    return Ok(outcome);
  }
}
