/** The broker's message shapes the model needs, and the rule that decides which
    arm of a metadata response is present. */
module Wire {

  /** A failed broker call: not-found is told apart from everything else. */
  datatype Error = NotFound | Failed(message: string)

  datatype File = File(path: string, size: int, mtime: string, mode: string, sha: string, mime: string, uuid: string)

  datatype Directory = Directory(path: string, mode: string, mtime: string)

  /** A parsed modification time. */
  type Time = int

  /** The lazily held metadata of one object. */
  datatype Meta = Meta(uuid: string, size: int, mtime: Time, mode: string, sha: string, mime: string)

  function MetaOf(parseMtime: string -> Time, f: File): Meta {
    Meta(f.uuid, f.size, parseMtime(f.mtime), f.mode, f.sha, f.mime)
  }

  datatype Arm = Absent | FileArm | DirectoryArm

  /** `classifyMetaArms`: a stamped file is a file even when empty and without a
      uuid; a stray uuid never hides a directory; nothing at all is absent. */
  function Classify(file: File, dirPath: string): Arm {
    var substantive := file.path != "" || file.mtime != "" || file.size != 0;
    if dirPath != "" && !substantive then DirectoryArm
    else if substantive || file.uuid != "" then FileArm
    else Absent
  }
}
