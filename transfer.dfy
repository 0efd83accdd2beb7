/** What one run of the capture handler `PhotoCaptured` (lines 340-523) does,
    for a non-null event, as a function of the state it starts from and of
    the outcomes of the foreign calls it makes. This is the specification
    the `MainWindow.PhotoCaptured` method is proved against. */
module PhotoTransfer {
  import opened Wrappers
  import opened Text
  import opened Paths
  import opened Model
  import opened PluginChain
  import opened Preview
  import opened ExternalViewer

  /** `session.CopyBackUp`: the path of the backup copy, null, or a fault. */
  datatype Backup = BackedUp(path: string) | NoBackupPath | BackupThrows(message: string)

  /** The Exiv2 calls succeed, or the call at position `at` (counting from 0
      among the calls actually made) throws. */
  datatype Tagging = TaggingOk | TaggingThrows(at: nat, message: string)

  /** The outcomes of the calls into code this model does not contain. */
  datatype Foreign = Foreign(
    nextFileName: string,                              // session.GetNextFileName
    uniqueFilename: (string, int, string) -> string,   // StaticHelper.GetUniqueFilename
    nameFault: Option<string>,                         // either of the two above throws
    deleteFault: Option<string>,                       // File.Delete of an existing target throws
    tempFile: string,                                  // Path.GetTempFileName
    tempFault: Option<string>,                         // Path.GetTempFileName throws
    transferFault: Option<string>,                     // CameraDevice.TransferFile
    copyFault: Option<string>,                         // File.Copy, other than an existing target
    backup: Backup,                                    // session.CopyBackUp
    tagging: Tagging,                                  // Exiv2Helper.SaveComment / AddKeyword
    pluginRun: nat -> PluginRun,                       // lookup and Execute, by config position
    viewerFault: Option<string>)                       // PhotoUtils.Run

  /** One capture event with everything the handler reads: the camera's
      file name, the device's `CaptureInSdRam` and `NoDownload`, the
      session in use (the device's attached session, else the default
      one), the settings, the windows on screen, the foreign outcomes and
      the clock reading in milliseconds. */
  datatype Capture = Capture(
    fileName: string,
    inSdRam: bool,
    noDownload: bool,
    session: SessionFlags,
    app: AppSettings,
    screen: Screen,
    foreign: Foreign,
    now: int)

  /** The state the handler changes: the device's `IsBusy`, the existing
      files (by case-folded path), the session's items, the default
      session's plugin configs, `_selectedItem`, `_lastLoadTime`, whether
      the selection timer is armed, the status message, and the effects
      so far. */
  datatype World = World(
    busy: bool,
    files: set<string>,
    items: seq<FileItem>,
    configs: seq<PluginConfig>,
    selected: Option<FileItem>,
    lastLoad: int,
    armed: bool,
    status: Status,
    effects: seq<Effect>)

  /** The state after a stage: carry on, or an exception was raised. */
  datatype Step = Go(w: World) | Fault(w: World, message: string)

  predicate Exists(files: set<string>, p: string) {
    Fold(p) in files
  }

  /** The message of the `IOException` `File.Copy` raises for an existing target. */
  function TargetExistsMessage(dest: string): string {
    "The file '" + dest + "' already exists."
  }

  /** Lines 353-366: the capture is downloaded unless it is not in SD RAM
      and either `NoDownload` is set or only JPG files are wanted and this
      is not one. */
  predicate Eligible(c: Capture) {
    c.inSdRam ||
    (!c.noDownload && !(c.session.downloadOnlyJpg && LowerStr(Ext(c.fileName)) != ".jpg"))
  }

  /** Where the destination name comes from. */
  datatype NameSource = Template | Original | Unique

  /** Lines 369-383. */
  function NameSourceOf(c: Capture, files: set<string>): NameSource {
    if !c.session.useOriginalFilename || c.inSdRam then Template
    else if Exists(files, Combine(c.session.folder, c.fileName)) && !c.session.allowOverWrite then Unique
    else Original
  }

  function BaseName(c: Capture, files: set<string>): string {
    var f := Combine(c.session.folder, c.fileName);
    match NameSourceOf(c, files)
    case Template => c.foreign.nextFileName
    case Original => f
    case Unique => c.foreign.uniqueFilename(DirName(f) + [Sep] + Stem(f) + "_", 0, Ext(f))
  }

  /** Lines 371-372 and 377-380: the call that makes up the name throws. The
      original path (line 375) is built without a foreign call. */
  predicate NameThrows(c: Capture, files: set<string>) {
    NameSourceOf(c, files) != Original && c.foreign.nameFault.Some?
  }

  /** Lines 369-395: the name the image is copied to. */
  function Destination(c: Capture, files: set<string>): string {
    ApplyLowerCase(c.session.lowerCaseExtension, BaseName(c, files))
  }

  /** Lines 413-414: `CopyBackUp` is called only with `BackUp` set. */
  function BackupName(c: Capture): Option<string> {
    if c.session.backUp && c.foreign.backup.BackedUp? then Some(c.foreign.backup.path) else None
  }

  /** Lines 440-442: the item the catalog gets. */
  function ItemOf(c: Capture, dest: string): FileItem {
    FileItem(dest, BackupName(c), c.session.series)
  }

  /** Lines 385-418: delete the target when overwriting, stage the image in
      a fresh temporary file, copy it to its destination (which fails when
      the destination exists), back it up, and remove the temporary file. */
  function StageAndCommit(w: World, c: Capture): Step {
    if NameThrows(c, w.files) then Fault(w, c.foreign.nameFault.value)
    else
      var base := BaseName(c, w.files);
      Commit(w, c, base, ApplyLowerCase(c.session.lowerCaseExtension, base))
  }

  /** The outcome of the file operations: the files afterwards, and the
      message of the exception that stopped them, if any. */
  datatype FileStep = FilesDone(files: set<string>) | FilesFault(files: set<string>, message: string)

  /** The file operations of `StageAndCommit` for a given first name
      (`base`) and final name (`dest`). */
  function CommitFiles(files: set<string>, c: Capture, base: string, dest: string): FileStep {
    var temp := Fold(c.foreign.tempFile);
    var delete := c.session.allowOverWrite && Exists(files, base);
    if delete && c.foreign.deleteFault.Some? then FilesFault(files, c.foreign.deleteFault.value)
    else
    var f1 := if delete then files - {Fold(base)} else files;
    if c.foreign.tempFault.Some? then FilesFault(f1, c.foreign.tempFault.value)
    else
    var f2 := f1 - {temp};
    if c.foreign.transferFault.Some? then FilesFault(f2, c.foreign.transferFault.value)
    else
      var f3 := f2 + {temp};
      if Fold(dest) in f3 then FilesFault(f3, TargetExistsMessage(dest))
      else if c.foreign.copyFault.Some? then FilesFault(f3, c.foreign.copyFault.value)
      else
        var f4 := f3 + {Fold(dest)};
        if c.session.backUp && c.foreign.backup.BackupThrows? then FilesFault(f4, c.foreign.backup.message)
        else
          var f5 := if BackupName(c).Some? then f4 + {Fold(BackupName(c).value)} else f4;
          FilesDone(f5 - {temp})
  }

  function Commit(w: World, c: Capture, base: string, dest: string): Step {
    match CommitFiles(w.files, c, base, dest)
    case FilesDone(f) => Go(w.(files := f))
    case FilesFault(f, m) => Fault(w.(files := f), m)
  }

  /** Lines 424-431, one tag: selected and with a non-empty value. */
  function KeywordOp(tag: Option<string>, file: string): seq<Effect> {
    if tag.Some? && tag.value != "" then [AddKeyword(file, tag.value)] else []
  }

  /** Lines 422-431: the Exiv2 calls, in the order they are made. */
  function TagOps(s: SessionFlags, file: string): seq<Effect> {
    (if s.comment != "" then [SaveComment(file, s.comment)] else []) +
    KeywordOp(s.tag1, file) + KeywordOp(s.tag2, file) + KeywordOp(s.tag3, file) + KeywordOp(s.tag4, file)
  }

  /** The Exiv2 calls the handler makes with these settings. */
  function StampOps(c: Capture, dest: string): seq<Effect> {
    if c.session.writeComment then TagOps(c.session, dest) else []
  }

  /** The Exiv2 calls made, and the message of the one that threw. */
  datatype TagRun = TagRun(made: seq<Effect>, fault: Option<string>)

  /** Lines 420-432: the calls before a throwing one have happened. */
  function TagCalls(c: Capture, dest: string): TagRun {
    var ops := StampOps(c, dest);
    match c.foreign.tagging
    case TaggingThrows(at, m) => if at < |ops| then TagRun(ops[..at], Some(m)) else TagRun(ops, None)
    case TaggingOk => TagRun(ops, None)
  }

  function Stamp(w: World, c: Capture, dest: string): Step {
    var t := TagCalls(c, dest);
    var w1 := w.(effects := w.effects + t.made);
    if t.fault.Some? then Fault(w1, t.fault.value) else Go(w1)
  }

  /** Lines 438-463: append the item, select it, and run the default
      session's plugins on it. */
  function Catalog(w: World, c: Capture, dest: string): World {
    var item := ItemOf(c, dest);
    w.(items := w.items + [item], selected := Some(item),
       configs := Chain(w.configs, c.foreign.pluginRun),
       effects := w.effects + ChainLog(w.configs, c.foreign.pluginRun, item, |w.configs|))
  }

  /** Lines 466-470. */
  function BalloonOps(c: Capture, dest: string): seq<Effect> {
    if c.app.minimizeToTrayIcon && !c.screen.mainWindowVisible then [BalloonTip(dest)] else []
  }

  /** Lines 473-495: the preview decision, then the clock, the status and
      the busy flag. */
  function Announce(w: World, c: Capture, dest: string): World {
    var d := Decide(c.app, c.screen, dest, c.now - w.lastLoad);
    var shown := if d == SelectNow then [SelectImage(ItemOf(c, dest))] else [];
    w.(effects := w.effects + BalloonOps(c, dest) + shown,
       armed := w.armed || d == Deferred,
       lastLoad := c.now, status := TransferDone, busy := false)
  }

  /** Lines 497-500. */
  function FullScreenOps(c: Capture): seq<Effect> {
    if c.app.preview && !c.screen.multipleCameraWindowVisible && !c.app.useExternalViewer
    then [ShowFullScreenTimed] else []
  }

  /** Lines 512-515. */
  function SoundOps(c: Capture): seq<Effect> {
    if c.app.playSound then [PlayCaptureSound] else []
  }

  /** Lines 497-515: full screen, the external viewer, the capture sound. */
  function Finish(w: World, c: Capture, dest: string): Step {
    var w1 := w.(effects := w.effects + FullScreenOps(c));
    if c.app.useExternalViewer && Exists(w1.files, c.app.externalViewerPath) then
      if c.foreign.viewerFault.Some? then Fault(w1, c.foreign.viewerFault.value)
      else
        var args := ViewerArgs(c.app.externalViewerArgs, dest);
        Go(w1.(effects := w1.effects + [RunViewer(c.app.externalViewerPath, args)] + SoundOps(c)))
    else Go(w1.(effects := w1.effects + SoundOps(c)))
  }

  /** Lines 348 and 367: the device is busy and the transfer has begun. */
  function Begin(w: World): World {
    w.(busy := true, status := TransferBegin)
  }

  /** The stages after the eligibility test, from a started world. */
  function Pipeline(w: World, c: Capture): Step {
    var dest := Destination(c, w.files);
    match StageAndCommit(w, c)
    case Fault(w1, m) => Fault(w1, m)
    case Go(w1) =>
      match Stamp(w1, c, dest)
      case Fault(w2, m) => Fault(w2, m)
      case Go(w2) => Finish(Announce(Catalog(w2, c, dest), c, dest), c, dest)
  }

  /** The handler for a non-null event: an ineligible capture leaves the
      device idle and the status blank; a fault anywhere is caught, clears
      the busy flag and shows the error (lines 517-519). */
  function Transfer(w: World, c: Capture): World {
    if !Eligible(c) then w.(busy := false, status := Blank)
    else match Pipeline(Begin(w), c)
      case Go(w1) => w1
      case Fault(w1, m) => w1.(busy := false, status := TransferError(m))
  }

  /** Lines 227-231: the selection timer fires once (it does not restart
      itself) and shows whatever item is selected by then. */
  function Elapsed(w: World): World {
    w.(armed := false, effects := w.effects + (if w.selected.Some? then [SelectImage(w.selected.value)] else []))
  }

  /** The handler got as far as cataloging the image. */
  predicate Cataloged(w: World, c: Capture) {
    Eligible(c) &&
    var s := StageAndCommit(Begin(w), c);
    s.Go? && Stamp(s.w, c, Destination(c, w.files)).Go?
  }
}
