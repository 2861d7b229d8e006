/** The backend's `Object`: metadata held by the handle, filled lazily from the
    broker and cleared by writes. Each method is one caller at a time here; the
    interleavings are in ObjectRace, whole histories in ObjectHistory and, performed on
    these objects, in ObjectSession. */
module ObjectHandle {
  import opened Wrappers
  import opened Wire

  /** A `readMetadata` call: it fails, or answers both union arms. */
  datatype Lookup = LookupFailed(error: Error) | Answer(file: File, dirPath: string)

  datatype ObjectError = ObjectNotFound | IsDir | ResolveFailed(error: Error) | NoHandle | PermissionDenied | UploadFailed(error: Error)

  /** The file a lookup reports, or why there is none. */
  function FileOf(l: Lookup): Result<File, ObjectError> {
    match l
    case LookupFailed(NotFound) => Err(ObjectNotFound)
    case LookupFailed(e) => Err(ResolveFailed(e))
    case Answer(file, dirPath) =>
      match Classify(file, dirPath)
      case FileArm => Ok(file)
      case DirectoryArm => Err(IsDir)
      case Absent => Err(ObjectNotFound)
  }

  /** The held metadata after a resolve that the broker would answer with `l`. */
  function Resolved(parseMtime: string -> Time, held: Meta, l: Lookup): Meta {
    if held.uuid != "" then held
    else match FileOf(l) case Ok(file) => MetaOf(parseMtime, file) case Err(_) => held
  }

  function ResolveOutcome(held: Meta, l: Lookup): Option<ObjectError> {
    if held.uuid != "" then None
    else match FileOf(l) case Ok(_) => None case Err(e) => Some(e)
  }

  /** What each answer means to a handle without a uuid. A failed lookup is a missing
      object exactly when it says not-found. An answer is a directory when it names
      one and the file part carries at most a uuid; it is a missing object when nothing
      is present; else it is a file, and every held field is the file's own. */
  lemma AnswerMeans(parseMtime: string -> Time, held: Meta, l: Lookup)
    requires held.uuid == ""
    ensures l.LookupFailed? ==>
              && ResolveOutcome(held, l) == Some(if l.error.NotFound? then ObjectNotFound else ResolveFailed(l.error))
              && Resolved(parseMtime, held, l) == held
    ensures l.Answer? ==>
              var bare := l.file.path == "" && l.file.mtime == "" && l.file.size == 0;
              var m := Resolved(parseMtime, held, l);
              && (bare && l.dirPath != "" ==> ResolveOutcome(held, l) == Some(IsDir) && m == held)
              && (bare && l.dirPath == "" && l.file.uuid == "" ==> ResolveOutcome(held, l) == Some(ObjectNotFound) && m == held)
              && (!bare || (l.dirPath == "" && l.file.uuid != "") ==>
                    && ResolveOutcome(held, l) == None
                    && m.uuid == l.file.uuid && m.size == l.file.size && m.mtime == parseMtime(l.file.mtime)
                    && m.mode == l.file.mode && m.sha == l.file.sha && m.mime == l.file.mime)
  {
  }

  class Object {
    const path: string
    const remote: string
    const readOnly: bool
    var uuid: string
    var size: int
    var mtime: Time
    var mode: string
    var sha: string
    var mime: string

    /** The metadata the handle holds. */
    function Held(): Meta reads this { Meta(uuid, size, mtime, mode, sha, mime) }

    constructor (path: string, remote: string, readOnly: bool, m: Meta)
      ensures this.path == path && this.remote == remote && this.readOnly == readOnly && Held() == m
    {
      this.path, this.remote, this.readOnly := path, remote, readOnly;
      uuid, size, mtime, mode, sha, mime := m.uuid, m.size, m.mtime, m.mode, m.sha, m.mime;
    }

    /** Fills every held field from one response, or none of them. */
    method Resolve(parseMtime: string -> Time, l: Lookup) returns (err: Option<ObjectError>, asked: bool)
      modifies this
      ensures Held() == Resolved(parseMtime, old(Held()), l)
      ensures err == ResolveOutcome(old(Held()), l)
      ensures asked <==> old(uuid) == ""
    {
      if uuid != "" {
        return None, false;
      }
      if l.LookupFailed? {
        return Some(if l.error.NotFound? then ObjectNotFound else ResolveFailed(l.error)), true;
      }
      match Classify(l.file, l.dirPath)
      case DirectoryArm => return Some(IsDir), true;
      case Absent => return Some(ObjectNotFound), true;
      case FileArm =>
      uuid := l.file.uuid;
      size := l.file.size;
      mtime := parseMtime(l.file.mtime);
      mode := l.file.mode;
      sha := l.file.sha;
      mime := l.file.mime;
      return None, true;
    }

    method ModTime(parseMtime: string -> Time, l: Lookup) returns (t: Time)
      modifies this
      ensures Held() == Resolved(parseMtime, old(Held()), l)
      ensures t == Held().mtime
    {
      if uuid == "" {
        var _, _ := Resolve(parseMtime, l);
      }
      return mtime;
    }

    /** A held zero without a handle is never reported unasked. */
    method Size(parseMtime: string -> Time, l: Lookup) returns (n: int, asked: bool)
      modifies this
      ensures asked <==> old(uuid) == "" && old(size) == 0
      ensures Held() == if asked then Resolved(parseMtime, old(Held()), l) else old(Held())
      ensures n == Held().size
    {
      asked := uuid == "" && size == 0;
      if asked {
        var _, _ := Resolve(parseMtime, l);
      }
      return size, asked;
    }

    method MimeType(parseMtime: string -> Time, l: Lookup) returns (t: string)
      modifies this
      ensures Held() == if old(uuid) == "" && old(mime) == "" then Resolved(parseMtime, old(Held()), l) else old(Held())
      ensures t == Held().mime
    {
      if uuid == "" && mime == "" {
        var _, _ := Resolve(parseMtime, l);
      }
      return mime;
    }

    /** A committed write drops the handle and takes over the written size; a
        refused or failed one changes nothing. */
    method Update(written: int, upload: Option<Error>) returns (err: Option<ObjectError>)
      modifies this
      ensures err == if readOnly then Some(PermissionDenied)
                     else match upload case Some(e) => Some(UploadFailed(e)) case None => None
      ensures Held() == if err.None? then old(Held()).(uuid := "", size := written) else old(Held())
    {
      if readOnly {
        return Some(PermissionDenied);
      }
      if upload.Some? {
        return Some(UploadFailed(upload.value));
      }
      uuid := "";
      size := written;
      return None;
    }

    /** The handle and size an open works with: both from the metadata held after
        resolving, never without a handle. */
    method Snapshot(parseMtime: string -> Time, l: Lookup) returns (r: Result<(string, int), ObjectError>)
      modifies this
      ensures Held() == Resolved(parseMtime, old(Held()), l)
      ensures r == match ResolveOutcome(old(Held()), l)
                   case Some(e) => Err(e)
                   case None => if Held().uuid == "" then Err(NoHandle) else Ok((Held().uuid, Held().size))
    {
      var err, _ := Resolve(parseMtime, l);
      if err.Some? {
        return Err(err.value);
      }
      if uuid == "" {
        return Err(NoHandle);
      }
      return Ok((uuid, size));
    }
  }

  /** The metadata `Size` leaves behind; its size field is the reported size. */
  function Sized(parseMtime: string -> Time, held: Meta, l: Lookup): Meta {
    if held.uuid == "" && held.size == 0 then Resolved(parseMtime, held, l) else held
  }

  /** A handle that carries nothing but a size: what an acknowledged write, copy or
      move returns. */
  function AckOnly(size: int): Meta { Meta("", size, 0, "", "", "") }

  /** `NewObject`: a point lookup that builds a handle. It fails exactly as resolving
      an unresolved handle on the same answer would, and otherwise holds exactly what
      that resolve would leave behind, under the path and remote asked for. */
  method NewObject(path: string, remote: string, readOnly: bool, parseMtime: string -> Time, l: Lookup)
    returns (r: Result<Object, ObjectError>)
    ensures forall held: Meta :: held.uuid == "" ==>
              match ResolveOutcome(held, l)
              case Some(e) => r == Err(e)
              case None => r.Ok? && r.value.Held() == Resolved(parseMtime, held, l)
    ensures r.Ok? ==> fresh(r.value) && r.value.path == path && r.value.remote == remote && r.value.readOnly == readOnly
  {
    if l.LookupFailed? {
      return Err(if l.error.NotFound? then ObjectNotFound else ResolveFailed(l.error));
    }
    match Classify(l.file, l.dirPath)
    case DirectoryArm => return Err(IsDir);
    case Absent => return Err(ObjectNotFound);
    case FileArm =>
    var o := new Object(path, remote, readOnly, MetaOf(parseMtime, l.file));
    return Ok(o);
  }

  datatype TransferError = TransferDenied | Foreign | BrokerRefused(error: Error)

  /** `transferFile`, shared by Copy and Move: refused on a read-only Fs, for a
      source of another Fs, or by the broker; otherwise the destination carries the
      source's size, read after the broker acted. */
  method TransferFile(readOnly: bool, src: Object, sameFs: bool, dstPath: string, dstRemote: string,
                      call: Option<Error>, parseMtime: string -> Time, l: Lookup)
    returns (r: Result<Object, TransferError>)
    modifies src
    ensures readOnly ==> r == Err(TransferDenied)
    ensures !readOnly && !sameFs ==> r == Err(Foreign)
    ensures !readOnly && sameFs && call.Some? ==> r == Err(BrokerRefused(call.value))
    ensures r.Ok? <==> !readOnly && sameFs && call.None?
    ensures src.Held() == if r.Ok? then Sized(parseMtime, old(src.Held()), l) else old(src.Held())
    ensures r.Ok? ==> fresh(r.value) && r.value.path == dstPath && r.value.remote == dstRemote
                      && r.value.readOnly == readOnly && r.value.Held() == AckOnly(src.Held().size)
                      && r.value.uuid == "" && r.value.size == src.size && r.value.mime == ""
  {
    if readOnly {
      return Err(TransferDenied);
    }
    if !sameFs {
      return Err(Foreign);
    }
    if call.Some? {
      return Err(BrokerRefused(call.value));
    }
    var size, _ := src.Size(parseMtime, l);
    var dst := new Object(dstPath, dstRemote, readOnly, AckOnly(size));
    return Ok(dst);
  }
}
