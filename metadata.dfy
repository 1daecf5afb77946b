/** Best-effort metadata (gparch.py:216-254). After a download, when the item
    has a truthy description or a creation time, the archiver builds an XMP
    packet and writes it into the file when libxmp lets it, and otherwise into
    a sidecar file `path + ".xmp"`. Every failure is only logged: the download
    is reported as a success either way.

    libxmp and the ISO-8601 parser are foreign code; their answers are the
    booleans of XmpEnv. */
module Metadata {
  import opened Text

  /** What the foreign calls do for one file.
      fileOpened:  `XMPFiles(file_path=path, open_forupdate=True)` succeeded, so
                   `xmpfile` is not None (whether get_xmp parsed anything only
                   decides whether the packet starts empty);
      canPut:      `xmpfile.can_put_xmp(xmp)` answered true;
      putOk:       `put_xmp` and `close_file(XMP_CLOSE_SAFEUPDATE)` did not raise;
      timeParses:  `datetime.fromisoformat` accepted the creation time;
      serializeOk: `xmp.serialize_to_str()` and the sidecar write did not raise;
                   the sidecar is opened for writing before the packet is
                   serialized, so when this fails the file is left behind. */
  datatype XmpEnv = XmpEnv(fileOpened: bool, canPut: bool, putOk: bool, timeParses: bool, serializeOk: bool)

  /** Which of the paths of the metadata block was taken. */
  datatype MetadataOutcome =
    | NotAttempted               // neither a truthy description nor a creation time
    | InPlace                    // written into the media file itself
    | Sidecar(file: string)      // written to the sidecar file
    | EmptySidecar(file: string) // the sidecar was created, then serializing or
                                 // writing the packet raised (caught at line 250)
    | MetadataFailed             // an exception was caught and logged at line 250
                                 // before any file was opened

  /** Python truthiness of the description: None and "" are falsy. */
  predicate Truthy(description: Option<string>) {
    description.Some? && description.value != ""
  }

  /** The files the metadata block leaves on disk: the sidecar whenever it
      was opened, with or without its packet. */
  function SidecarFiles(m: MetadataOutcome): (f: set<string>)
    ensures f == {} <==> !(m.Sidecar? || m.EmptySidecar?)
  {
    match m
    case Sidecar(file) => {file}
    case EmptySidecar(file) => {file}
    case _ => {}
  }

  function SidecarPath(path: string): (p: string)
    ensures |p| == |path| + 4 && p[..|path|] == path && p[|path|..] == ".xmp"
  {
    path + ".xmp"
  }

  /** The metadata block for the file just written at `path`; `dirs` are the
      existing directories (opening a directory for writing raises). */
  function Embed(path: string, description: Option<string>, creationTime: Option<string>,
                 dirs: set<string>, env: XmpEnv): (m: MetadataOutcome)
    // attempted only when there is something to write
    ensures m.NotAttempted? <==> !Truthy(description) && creationTime.None?
    // written in place only when the file opened and libxmp accepts the packet
    ensures m.InPlace? ==> env.fileOpened && env.canPut && env.putOk
    // the sidecar is the fallback when the in-place write did not happen
    ensures m.Sidecar? ==> m.file == SidecarPath(path) && !(env.fileOpened && env.canPut && env.putOk)
    // a sidecar left without its packet is the one at SidecarPath
    ensures m.EmptySidecar? ==>
              m.file == SidecarPath(path) && !env.serializeOk && SidecarPath(path) !in dirs
    // an attempt fails without a file only through the date parser or a
    // sidecar path that cannot be opened
    ensures m.MetadataFailed? ==>
              (creationTime.Some? && !env.timeParses) || SidecarPath(path) in dirs
    // an unparsable creation time raises before either write
    ensures creationTime.Some? && !env.timeParses ==> m.MetadataFailed?
    // with a parsable date, a successful in-place write is what happens
    ensures (!m.NotAttempted? && (creationTime.None? || env.timeParses) &&
             env.fileOpened && env.canPut && env.putOk) ==> m.InPlace?
    // with a parsable date and no in-place write, the sidecar is created
    // exactly when its path is not a directory, and gets the packet exactly
    // when serializing succeeds
    ensures (!m.NotAttempted? && (creationTime.None? || env.timeParses) &&
             !(env.fileOpened && env.canPut && env.putOk)) ==>
              && (m == Sidecar(SidecarPath(path)) <==> env.serializeOk && SidecarPath(path) !in dirs)
              && (m == EmptySidecar(SidecarPath(path)) <==> !env.serializeOk && SidecarPath(path) !in dirs)
              && (m.MetadataFailed? <==> SidecarPath(path) in dirs)
  {
    if !Truthy(description) && creationTime.None? then NotAttempted
    else if creationTime.Some? && !env.timeParses then MetadataFailed
    else if env.fileOpened && env.canPut && env.putOk then InPlace
    else if SidecarPath(path) in dirs then MetadataFailed
    else if env.serializeOk then Sidecar(SidecarPath(path))
    else EmptySidecar(SidecarPath(path))
  }
}
