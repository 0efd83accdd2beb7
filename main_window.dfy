/** The main window (`MainWindow.xaml.cs`): the capture handler, the
    selection timer, the camera sort, the preset batches and the preset
    save, and the deletion of the default session. Each method that changes
    state is proved against the specification functions of the modules it
    imports. */
module Window {
  import opened Wrappers
  import opened Text
  import opened Paths
  import opened Model
  import opened PluginChain
  import opened Preview
  import opened ExternalViewer
  import opened PhotoTransfer
  import opened Devices
  import opened CameraOrder
  import opened Presets

  /** `PhotoCapturedEventArgs`: the camera that took the picture and the
      name of the file on it. */
  datatype PhotoCapturedEventArgs = PhotoCapturedEventArgs(cameraDevice: CameraDevice, fileName: string)

  /** How `btn_del_Sesion_Click` ends: the last session is kept, the user
      said no, the default session was deleted, or deleting its config file
      threw (the message box shows the message). */
  datatype SessionDeletion = LastSessionKept | Declined | Deleted | DeleteFailed(message: string)

  /** `List.Remove`: drop the first occurrence of `x`, if there is one. */
  function RemoveFirst<T(==)>(s: seq<T>, x: T): (r: seq<T>)
    ensures x !in s ==> r == s
    ensures x in s ==> |r| == |s| - 1 && multiset(r) == multiset(s) - multiset{x}
    ensures forall y :: y in r ==> y in s
    decreases |s|
  {
    if s == [] then []
    else
      assert s == [s[0]] + s[1..];
      if s[0] == x then s[1..] else [s[0]] + RemoveFirst(s[1..], x)
  }

  /** Removing `x` where it first occurs at `i` cuts out position `i`. */
  lemma {:induction false} RemoveAt<T>(s: seq<T>, x: T, i: nat)
    requires i < |s| && s[i] == x && x !in s[..i]
    ensures RemoveFirst(s, x) == s[..i] + s[i + 1..]
  {
    if i > 0 {
      AbsentFromTail(s, x, i);
      RemoveAt(s[1..], x, i - 1);
      SplitAfterHead(s, i);
    }
  }

  lemma AbsentFromTail<T>(s: seq<T>, x: T, i: nat)
    requires 0 < i < |s| && x !in s[..i]
    ensures s[0] != x && x !in s[1..][..i - 1] && s[1..][i - 1] == s[i]
  {
    assert s[0] == s[..i][0];
    assert s[1..][..i - 1] == s[..i][1..];
  }

  lemma SplitAfterHead<T>(s: seq<T>, i: nat)
    requires 0 < i < |s|
    ensures s[..i] + s[i + 1..] == [s[0]] + (s[1..][..i - 1] + s[1..][i..])
  {
    assert s[..i] == [s[0]] + s[1..][..i - 1];
    assert s[i + 1..] == s[1..][i..];
  }

  /** `List.Remove` takes out exactly the first occurrence and keeps the
      order of everything else. */
  lemma RemoveFirstDropsFirst<T>(s: seq<T>, x: T)
    requires x in s
    ensures exists i :: 0 <= i < |s| && s[i] == x && x !in s[..i] && RemoveFirst(s, x) == s[..i] + s[i + 1..]
  {
    var i := FirstIndex(s, x);
    assert x !in s[..i] by {
      forall y | y in s[..i] ensures y != x {
        var k :| 0 <= k < i && s[..i][k] == y;
        assert s[k] == y;
      }
    }
    RemoveAt(s, x, i);
  }

  class MainWindow {
    /** `_selectedItem`: the item shown last, or about to be shown. */
    var selectedItem: Option<FileItem>
    /** `_lastLoadTime`, in milliseconds. */
    var lastLoadTime: int
    /** Whether `_selectiontimer` has been started and has not fired yet. */
    var timerArmed: bool
    /** `_sortCameraOreder`. */
    var sortAscending: bool
    /** The files on disk, by case-folded path. */
    var files: set<string>
    /** `StaticHelper.Instance.SystemMessage`. */
    var status: Status
    /** The calls made into the user interface and into foreign code, in order. */
    var effects: seq<Effect>
    /** `ServiceProvider.Settings` and `ServiceProvider.DeviceManager`. */
    const settings: Settings
    const deviceManager: DeviceManager

    constructor (settings: Settings, deviceManager: DeviceManager, files: set<string>, now: int)
      ensures this.settings == settings && this.deviceManager == deviceManager && this.files == files
      ensures selectedItem == None && lastLoadTime == now && !timerArmed && sortAscending
      ensures status == Blank && effects == []
    {
      this.settings := settings;
      this.deviceManager := deviceManager;
      this.files := files;
      selectedItem := None;
      lastLoadTime := now;
      timerArmed := false;
      sortAscending := true;
      status := Blank;
      effects := [];
    }

    /** Lines 350-351: the camera's attached session, else the default one. */
    function SessionOf(d: CameraDevice): PhotoSession
      reads settings
    {
      if d.attachedSession != null then d.attachedSession else settings.defaultSession
    }

    /** Everything the handler reads for this event. */
    function CaptureOf(e: PhotoCapturedEventArgs, screen: Screen, foreign: Foreign, now: int): Capture
      reads settings
    {
      var d := e.cameraDevice;
      Capture(e.fileName, d.captureInSdRam, d.noDownload, SessionOf(d).flags, settings.app, screen, foreign, now)
    }

    /** The state the handler changes, for camera `d` and its session `s`. */
    function Snap(d: CameraDevice, s: PhotoSession): World
      reads this, d, s, settings, settings.defaultSession
    {
      World(d.isBusy, files, s.items, settings.defaultSession.pluginConfigs, selectedItem,
            lastLoadTime, timerArmed, status, effects)
    }

    /** Lines 340-523: the capture handler. A null event changes nothing;
        otherwise the state moves exactly as `Transfer` says. */
    method PhotoCaptured(o: Option<PhotoCapturedEventArgs>, screen: Screen, foreign: Foreign, now: int)
      modifies this`files, this`status, this`effects, this`selectedItem, this`lastLoadTime, this`timerArmed
      modifies settings.defaultSession`pluginConfigs
      modifies (if o.Some? then {o.value.cameraDevice} else {})`isBusy
      modifies (if o.Some? then {SessionOf(o.value.cameraDevice)} else {})`items
      ensures o.None? ==> unchanged(this, settings.defaultSession)
      ensures o.Some? ==>
        var d := o.value.cameraDevice;
        Snap(d, SessionOf(d)) == Transfer(old(Snap(d, SessionOf(d))), CaptureOf(o.value, screen, foreign, now))
    {
      if o.None? {
        return;
      }
      Download(o.value, screen, foreign, now);
    }

    method Download(e: PhotoCapturedEventArgs, screen: Screen, foreign: Foreign, now: int)
      modifies this`files, this`status, this`effects, this`selectedItem, this`lastLoadTime, this`timerArmed
      modifies settings.defaultSession`pluginConfigs, e.cameraDevice`isBusy, SessionOf(e.cameraDevice)`items
      ensures var d := e.cameraDevice;
        Snap(d, SessionOf(d)) == Transfer(old(Snap(d, SessionOf(d))), CaptureOf(e, screen, foreign, now))
    {
      var device := e.cameraDevice;
      var session := SessionOf(device);
      var c := CaptureOf(e, screen, foreign, now);
      ghost var w0 := Snap(device, session);
      device.isBusy := true;
      status := Blank;
      if !device.captureInSdRam {
        if device.noDownload {
          device.isBusy := false;
          return;
        }
        var extension := Ext(e.fileName);
        if session.flags.downloadOnlyJpg && LowerStr(extension) != ".jpg" {
          device.isBusy := false;
          return;
        }
      }
      assert Eligible(c);
      status := TransferBegin;
      assert Snap(device, session) == Begin(w0);
      ProcessCapture(c, device, session);
    }

    /** Lines 367-515 after the eligibility test: the stages of `Pipeline`,
        and the catch block of lines 517-519 when one of them throws. */
    method ProcessCapture(c: Capture, device: CameraDevice, session: PhotoSession)
      requires session.flags == c.session
      modifies this`files, this`status, this`effects, this`selectedItem, this`lastLoadTime, this`timerArmed
      modifies settings.defaultSession`pluginConfigs, device`isBusy, session`items
      ensures Snap(device, session) ==
        match Pipeline(old(Snap(device, session)), c)
        case Go(w1) => w1
        case Fault(w1, m) => w1.(busy := false, status := TransferError(m))
    {
      var dest, backupFile, fault := StageCapture(c, device, session);
      if fault.Some? {
        device.isBusy := false;
        status := TransferError(fault.value);
        return;
      }
      fault := StampCapture(c, dest, device, session);
      if fault.Some? {
        device.isBusy := false;
        status := TransferError(fault.value);
        return;
      }
      CatalogCapture(c, dest, backupFile, device, session);
      AnnounceCapture(c, dest, device, session);
      fault := FinishCapture(c, dest, device, session);
      if fault.Some? {
        device.isBusy := false;
        status := TransferError(fault.value);
      }
    }

    /** Lines 369-418, as `StageAndCommit` says. */
    method StageCapture(c: Capture, ghost d: CameraDevice, ghost s: PhotoSession)
      returns (dest: string, backupFile: Option<string>, fault: Option<string>)
      modifies this`files
      ensures fault.None? ==> dest == Destination(c, old(files))
      ensures backupFile == BackupName(c)
      ensures StageAndCommit(old(Snap(d, s)), c) ==
        if fault.Some? then Fault(Snap(d, s), fault.value) else Go(Snap(d, s))
    {
      var fileName;
      fileName, fault := ChooseName(c);
      if fault.Some? {
        dest, backupFile := "", BackupName(c);
        return;
      }
      dest, backupFile, fault := StoreImage(c, fileName);
    }

    /** Lines 420-432, as `Stamp` says. */
    method StampCapture(c: Capture, dest: string, ghost d: CameraDevice, ghost s: PhotoSession)
      returns (fault: Option<string>)
      modifies this`effects
      ensures Stamp(old(Snap(d, s)), c, dest) ==
        if fault.Some? then Fault(Snap(d, s), fault.value) else Go(Snap(d, s))
    {
      fault := WriteMetadata(c, dest);
    }

    /** Lines 438-463, as `Catalog` says: the session gets the item, the
        window selects it and the plugins run on it. */
    method CatalogCapture(c: Capture, dest: string, backupFile: Option<string>, ghost d: CameraDevice, session: PhotoSession)
      requires backupFile == BackupName(c) && session.flags == c.session
      modifies session`items, this`selectedItem, settings.defaultSession`pluginConfigs, this`effects
      ensures Snap(d, session) == Catalog(old(Snap(d, session)), c, dest)
      ensures selectedItem == Some(ItemOf(c, dest))
    {
      var item := FileItem(dest, backupFile, session.flags.series);
      session.items := session.items + [item];
      selectedItem := Some(item);
      RunPlugins(item, c.foreign.pluginRun);
    }

    /** Lines 466-495, as `Announce` says. */
    method AnnounceCapture(c: Capture, dest: string, device: CameraDevice, ghost s: PhotoSession)
      requires selectedItem == Some(ItemOf(c, dest))
      modifies this`effects, this`timerArmed, this`lastLoadTime, this`status, device`isBusy
      ensures Snap(device, s) == Announce(old(Snap(device, s)), c, dest)
    {
      ShowCaptured(c, dest);
      status := TransferDone;
      device.isBusy := false;
    }

    /** Lines 497-515, as `Finish` says. */
    method FinishCapture(c: Capture, dest: string, ghost d: CameraDevice, ghost s: PhotoSession)
      returns (fault: Option<string>)
      modifies this`effects
      ensures Finish(old(Snap(d, s)), c, dest) ==
        if fault.Some? then Fault(Snap(d, s), fault.value) else Go(Snap(d, s))
    {
      fault := OpenViews(c, dest);
    }

    /** Lines 369-383: the name the image is first given, or the message of
        the exception the naming call threw. */
    method ChooseName(c: Capture) returns (fileName: string, fault: Option<string>)
      ensures fault == (if NameThrows(c, files) then c.foreign.nameFault else None)
      ensures fault.None? ==> fileName == BaseName(c, files)
    {
      fileName, fault := "", None;
      if !c.session.useOriginalFilename || c.inSdRam {
        if c.foreign.nameFault.Some? {
          fault := c.foreign.nameFault;
          return;
        }
        fileName := c.foreign.nextFileName;
      } else {
        fileName := Combine(c.session.folder, c.fileName);
        if Fold(fileName) in files && !c.session.allowOverWrite {
          if c.foreign.nameFault.Some? {
            fault := c.foreign.nameFault;
            return;
          }
          fileName := c.foreign.uniqueFilename(DirName(fileName) + [Sep] + Stem(fileName) + "_", 0, Ext(fileName));
        }
      }
    }

    /** Lines 385-418: delete an existing target when overwriting, put the
        extension in lower case, download into a temporary file, copy it to
        the destination, back it up and delete the temporary file. */
    method StoreImage(c: Capture, fileName: string) returns (dest: string, backupFile: Option<string>, fault: Option<string>)
      modifies this`files
      ensures dest == ApplyLowerCase(c.session.lowerCaseExtension, fileName)
      ensures backupFile == BackupName(c)
      ensures CommitFiles(old(files), c, fileName, dest) ==
        if fault.Some? then FilesFault(files, fault.value) else FilesDone(files)
    {
      var s := c.session;
      backupFile := BackupName(c);
      var tempFile := c.foreign.tempFile;
      var temp := Fold(tempFile);
      if s.allowOverWrite && Fold(fileName) in files {
        if c.foreign.deleteFault.Some? {
          fault := c.foreign.deleteFault;
          dest := ApplyLowerCase(s.lowerCaseExtension, fileName);
          return;
        }
        files := files - {Fold(fileName)};
      }
      ghost var f1 := files;
      dest := fileName;
      if s.lowerCaseExtension && Ext(fileName) != "" {
        dest := Combine(DirName(fileName), Stem(fileName) + LowerStr(Ext(fileName)));
      }
      if c.foreign.tempFault.Some? {
        fault := c.foreign.tempFault;
        return;
      }
      files := files + {temp};
      if temp in files {
        files := files - {temp};
      }
      assert files == f1 - {temp};
      ghost var f2 := files;
      if c.foreign.transferFault.Some? {
        fault := c.foreign.transferFault;
        assert CommitFiles(old(files), c, fileName, dest) == FilesFault(f2, fault.value);
        return;
      }
      files := files + {temp};
      ghost var f3 := files;
      if Fold(dest) in files {
        fault := Some(TargetExistsMessage(dest));
        assert CommitFiles(old(files), c, fileName, dest) == FilesFault(f3, fault.value);
        return;
      }
      if c.foreign.copyFault.Some? {
        fault := c.foreign.copyFault;
        assert CommitFiles(old(files), c, fileName, dest) == FilesFault(f3, fault.value);
        return;
      }
      files := files + {Fold(dest)};
      ghost var f4 := files;
      if s.backUp {
        match c.foreign.backup
        case BackupThrows(m) =>
          fault := Some(m);
          assert CommitFiles(old(files), c, fileName, dest) == FilesFault(f4, m);
          return;
        case NoBackupPath =>
        case BackedUp(p) =>
          files := files + {Fold(p)};
      }
      ghost var f5 := files;
      assert temp in files;
      files := files - {temp};
      fault := None;
      assert CommitFiles(old(files), c, fileName, dest) == FilesDone(f5 - {temp});
    }

    /** One Exiv2 call, the `n`-th made by this capture. */
    method Exiv2(c: Capture, op: Effect, n: nat) returns (fault: Option<string>)
      modifies this`effects
      ensures c.foreign.tagging.TaggingThrows? && c.foreign.tagging.at == n ==>
        fault == Some(c.foreign.tagging.message) && effects == old(effects)
      ensures !(c.foreign.tagging.TaggingThrows? && c.foreign.tagging.at == n) ==>
        fault == None && effects == old(effects) + [op]
    {
      if c.foreign.tagging.TaggingThrows? && c.foreign.tagging.at == n {
        fault := Some(c.foreign.tagging.message);
      } else {
        effects := effects + [op];
        fault := None;
      }
    }

    /** Lines 420-432: the comment, then the four tags. */
    method WriteMetadata(c: Capture, dest: string) returns (fault: Option<string>)
      modifies this`effects
      ensures effects == old(effects) + TagCalls(c, dest).made
      ensures fault == TagCalls(c, dest).fault
    {
      fault := None;
      if !c.session.writeComment {
        return;
      }
      var s := c.session;
      ghost var ops := TagOps(s, dest);
      var calls: nat := 0;
      if s.comment != "" {
        fault := Exiv2(c, SaveComment(dest, s.comment), calls);
        if fault.Some? {
          assert ops[..0] == [];
          return;
        }
        calls := calls + 1;
      }
      ghost var p1 := if s.comment != "" then [SaveComment(dest, s.comment)] else [];
      fault := WriteKeywords(c, dest, calls, old(effects), p1, ops);
    }

    /** Lines 424-431: the four tags, after the calls `done` made for the
        comment. */
    method WriteKeywords(c: Capture, dest: string, calls: nat,
                         ghost e0: seq<Effect>, ghost done: seq<Effect>, ghost ops: seq<Effect>)
      returns (fault: Option<string>)
      modifies this`effects
      requires effects == e0 + done && calls == |done|
      requires ops == done + KeywordOp(c.session.tag1, dest) + KeywordOp(c.session.tag2, dest) +
        KeywordOp(c.session.tag3, dest) + KeywordOp(c.session.tag4, dest)
      requires !(c.foreign.tagging.TaggingThrows? && c.foreign.tagging.at < calls)
      ensures fault.Some? ==>
        (c.foreign.tagging.TaggingThrows? && c.foreign.tagging.at < |ops| &&
         fault == Some(c.foreign.tagging.message) && effects == e0 + ops[..c.foreign.tagging.at])
      ensures fault.None? ==>
        (effects == e0 + ops && !(c.foreign.tagging.TaggingThrows? && c.foreign.tagging.at < |ops|))
    {
      var s := c.session;
      var n := calls;
      fault, n := Keyword(c, s.tag1, dest, n, e0, done, ops);
      if fault.Some? { return; }
      ghost var p2 := done + KeywordOp(s.tag1, dest);
      fault, n := Keyword(c, s.tag2, dest, n, e0, p2, ops);
      if fault.Some? { return; }
      ghost var p3 := p2 + KeywordOp(s.tag2, dest);
      fault, n := Keyword(c, s.tag3, dest, n, e0, p3, ops);
      if fault.Some? { return; }
      ghost var p4 := p3 + KeywordOp(s.tag3, dest);
      fault, n := Keyword(c, s.tag4, dest, n, e0, p4, ops);
    }

    /** One of lines 424-431: add a tag's keyword when the tag is set and
        its value is not empty. `done` are the calls made before it, a
        prefix of all the calls `ops` this capture makes. */
    method Keyword(c: Capture, tag: Option<string>, dest: string, calls: nat,
                   ghost e0: seq<Effect>, ghost done: seq<Effect>, ghost ops: seq<Effect>)
      returns (fault: Option<string>, callsAfter: nat)
      modifies this`effects
      requires effects == e0 + done && calls == |done|
      requires done + KeywordOp(tag, dest) <= ops
      requires !(c.foreign.tagging.TaggingThrows? && c.foreign.tagging.at < calls)
      ensures fault.Some? ==>
        (c.foreign.tagging.TaggingThrows? && c.foreign.tagging.at == calls < |ops| &&
         fault == Some(c.foreign.tagging.message) && effects == e0 + ops[..calls])
      ensures fault.None? ==>
        (effects == e0 + done + KeywordOp(tag, dest) && callsAfter == calls + |KeywordOp(tag, dest)| &&
         !(c.foreign.tagging.TaggingThrows? && c.foreign.tagging.at < callsAfter))
    {
      fault := None;
      callsAfter := calls;
      if tag.Some? && tag.value != "" {
        fault := Exiv2(c, AddKeyword(dest, tag.value), calls);
        assert ops[..calls] == done;
        callsAfter := calls + 1;
      }
    }

    /** Lines 446-463: run the default session's enabled plugins on the new
        item; a fault marks the config it happened in and the loop goes on. */
    method RunPlugins(item: FileItem, runs: nat -> PluginRun)
      modifies settings.defaultSession`pluginConfigs, this`effects
      ensures settings.defaultSession.pluginConfigs == Chain(old(settings.defaultSession.pluginConfigs), runs)
      ensures effects == old(effects) +
        ChainLog(old(settings.defaultSession.pluginConfigs), runs, item, |old(settings.defaultSession.pluginConfigs)|)
    {
      var session := settings.defaultSession;
      ghost var cs := session.pluginConfigs;
      ghost var e0 := effects;
      var k := 0;
      while k < |session.pluginConfigs|
        invariant 0 <= k <= |cs|
        invariant session.pluginConfigs == ChainPrefix(cs, runs, k)
        invariant effects == e0 + ChainLog(cs, runs, item, k)
      {
        var plugin := session.pluginConfigs[k];
        assert plugin == cs[k];
        if plugin.isEnabled {
          match runs(k)
          case NotRegistered =>
            session.pluginConfigs := session.pluginConfigs[k := Failed(plugin, NullReferenceMessage)];
          case Executes =>
            effects := effects + [PluginExecuted(k, plugin.pluginType, item)];
          case Throws(m) =>
            effects := effects + [PluginExecuted(k, plugin.pluginType, item)];
            session.pluginConfigs := session.pluginConfigs[k := Failed(plugin, m)];
        }
        ChainPrefixStep(cs, runs, k);
        k := k + 1;
      }
    }

    /** Lines 466-495: the tray balloon, the preview (now, or through the
        timer), and the clock. */
    method ShowCaptured(c: Capture, dest: string)
      requires selectedItem.Some?
      modifies this`effects, this`timerArmed, this`lastLoadTime
      ensures var d := Decide(c.app, c.screen, dest, c.now - old(lastLoadTime));
        effects == old(effects) + BalloonOps(c, dest) +
          (if d == SelectNow then [SelectImage(selectedItem.value)] else []) &&
        timerArmed == (old(timerArmed) || d == Deferred) && lastLoadTime == c.now
    {
      if c.app.minimizeToTrayIcon && !c.screen.mainWindowVisible {
        effects := effects + [BalloonTip(dest)];
      }
      if c.app.autoPreview && !c.screen.multipleCameraWindowVisible && !c.app.useExternalViewer {
        if (LowerStr(Ext(dest)) == ".jpg" && c.app.autoPreviewJpgOnly) || !c.app.autoPreviewJpgOnly {
          if c.app.delayImageLoading && c.now - lastLoadTime < QuietIntervalMs {
            timerArmed := true;
          } else {
            effects := effects + [SelectImage(selectedItem.value)];
          }
        }
      }
      lastLoadTime := c.now;
    }

    /** Lines 497-515: full screen, the external viewer, the capture sound. */
    method OpenViews(c: Capture, dest: string) returns (fault: Option<string>)
      modifies this`effects
      ensures var viewer := c.app.useExternalViewer && Exists(files, c.app.externalViewerPath);
        fault == (if viewer then c.foreign.viewerFault else None) &&
        effects == old(effects) + FullScreenOps(c) +
          (if fault.Some? then []
           else ((if viewer then [RunViewer(c.app.externalViewerPath, ViewerArgs(c.app.externalViewerArgs, dest))] else []) +
                 SoundOps(c)))
    {
      fault := None;
      if c.app.preview && !c.screen.multipleCameraWindowVisible && !c.app.useExternalViewer {
        effects := effects + [ShowFullScreenTimed];
      }
      if c.app.useExternalViewer && Fold(c.app.externalViewerPath) in files {
        var arg := c.app.externalViewerArgs;
        arg := if Contains(arg, "%1") then ReplaceAll(arg, "%1", dest) else arg + " " + dest;
        if c.foreign.viewerFault.Some? {
          fault := c.foreign.viewerFault;
          return;
        }
        effects := effects + [RunViewer(c.app.externalViewerPath, arg)];
      }
      if c.app.playSound {
        effects := effects + [PlayCaptureSound];
      }
    }

    /** Lines 227-231: the timer fires once and shows the selected item, if any. */
    method SelectionTimerElapsed()
      modifies this`timerArmed, this`effects
      ensures !timerArmed
      ensures effects == old(effects) + (if selectedItem.Some? then [SelectImage(selectedItem.value)] else [])
    {
      timerArmed := false;
      if selectedItem.Some? {
        effects := effects + [SelectImage(selectedItem.value)];
      }
    }

    /** Lines 848-869: reorder the connected cameras. A null entry makes
        `LoadProperties` throw before anything is reordered. */
    method SortCameras(asc: bool) returns (fault: Option<string>)
      modifies this`sortAscending, deviceManager`connectedDevices
      ensures sortAscending == asc
      ensures var ds := old(deviceManager.connectedDevices);
        if null in ds then fault == Some(NullReferenceMessage) && deviceManager.connectedDevices == ds
        else fault == None && deviceManager.connectedDevices == SortBy(asc, KeyOf, ds)
      ensures fault == None ==>
        Sorted(asc, KeyOf, deviceManager.connectedDevices) &&
        multiset(deviceManager.connectedDevices) == multiset(old(deviceManager.connectedDevices))
    {
      sortAscending := asc;
      var ds := deviceManager.connectedDevices;
      var i := 0;
      while i < |ds|
        invariant 0 <= i <= |ds|
        invariant null !in ds[..i]
      {
        if ds[i] == null {
          return Some(NullReferenceMessage);
        }
        assert ds[..i + 1] == ds[..i] + [ds[i]];
        i := i + 1;
      }
      assert ds[..i] == ds;
      SortBySorted(asc, KeyOf, ds);
      SortByElements(asc, KeyOf, ds);
      deviceManager.connectedDevices := SortBy(asc, KeyOf, ds);
      fault := None;
    }

    /** Lines 843-846: sort again in the order chosen last. */
    method ResortCameras() returns (fault: Option<string>)
      modifies this`sortAscending, deviceManager`connectedDevices
      ensures sortAscending == old(sortAscending)
      ensures var ds := old(deviceManager.connectedDevices);
        if null in ds then fault == Some(NullReferenceMessage) && deviceManager.connectedDevices == ds
        else fault == None && deviceManager.connectedDevices == SortBy(old(sortAscending), KeyOf, ds)
    {
      fault := SortCameras(sortAscending);
    }

    /** Lines 149-218: one preset batch over the connected cameras. */
    method RunPresetBatch(preset: CameraPreset?, act: PresetAction, faults: nat -> Option<string>)
      returns (trace: seq<BatchEvent>)
      ensures preset == null ==> trace == []
      ensures preset != null ==> trace == BatchTrace(deviceManager.connectedDevices, act, faults)
    {
      if preset == null {
        return [];
      }
      var ds := deviceManager.connectedDevices;
      trace := [Opened(|ds|)];
      var i := 0;
      var pos := 0;
      while pos < |ds|
        invariant pos <= |ds| && i == Reached(ds, pos)
        invariant trace == [Opened(|ds|)] + Visits(ds, act, faults, pos)
      {
        var d := ds[pos];
        if d != null && d.isConnected {
          trace := trace + [Labeled(d.displayName), Progressed(i), Applied(act, pos, faults(pos)), Paused];
          i := i + 1;
        }
        pos := pos + 1;
      }
      trace := trace + [Closed];
    }

    /** Lines 149-183. */
    method LoadInAllPreset(preset: CameraPreset?, faults: nat -> Option<string>) returns (trace: seq<BatchEvent>)
      ensures preset == null ==> trace == []
      ensures preset != null ==> trace == BatchTrace(deviceManager.connectedDevices, SetValues, faults)
    {
      trace := RunPresetBatch(preset, SetValues, faults);
    }

    /** Lines 185-218. */
    method VerifyPreset(preset: CameraPreset?, faults: nat -> Option<string>) returns (trace: seq<BatchEvent>)
      ensures preset == null ==> trace == []
      ensures preset != null ==> trace == BatchTrace(deviceManager.connectedDevices, VerifyValues, faults)
    {
      trace := RunPresetBatch(preset, VerifyValues, faults);
    }

    /** Lines 936-946: save the selected camera's values under `name`: into
        the first preset of that name, or into a new preset added at the
        end. `captured` are the values `CameraPreset.Get` reads. */
    method SavePreset(confirmed: bool, name: string, captured: map<string, string>)
      modifies settings`cameraPresets, set p | p in settings.cameraPresets
      ensures var ps := old(settings.cameraPresets);
        var i := FirstIndex(Names(ps), name);
        if !confirmed then
          settings.cameraPresets == ps && forall p | p in ps :: p.values == old(p.values)
        else if i >= 0 then
          settings.cameraPresets == ps && ps[i].values == captured &&
          forall p | p in ps && p != ps[i] :: p.values == old(p.values)
        else
          |settings.cameraPresets| == |ps| + 1 && settings.cameraPresets[..|ps|] == ps &&
          fresh(settings.cameraPresets[|ps|]) &&
          settings.cameraPresets[|ps|].name == name && settings.cameraPresets[|ps|].values == captured &&
          forall p | p in ps :: p.values == old(p.values)
      ensures confirmed ==> Names(settings.cameraPresets) == UpsertNames(Names(old(settings.cameraPresets)), name)
    {
      if !confirmed {
        return;
      }
      var cameraPreset := new CameraPreset(name, map[]);
      var ps := settings.cameraPresets;
      var k := 0;
      ghost var found := -1;
      while k < |ps|
        invariant 0 <= k <= |ps|
        invariant forall j :: 0 <= j < k ==> ps[j].name != name
        invariant found == -1 && fresh(cameraPreset) && cameraPreset.name == name
      {
        if ps[k].name == name {
          cameraPreset := ps[k];
          found := k;
          break;
        }
        k := k + 1;
      }
      assert found == FirstIndex(Names(ps), name);
      cameraPreset.values := captured;
      if cameraPreset !in settings.cameraPresets {
        settings.cameraPresets := settings.cameraPresets + [cameraPreset];
      }
    }

    /** Lines 737-765: delete the default session, unless it is the last
        one; the next default is the first session left. */
    method DeleteSession(confirmed: bool, deleteFault: Option<string>) returns (outcome: SessionDeletion)
      modifies settings`photoSessions, settings`defaultSession, this`files
      ensures var ss, s := old(settings.photoSessions), old(settings.defaultSession);
        var hasFile := s.configFile != "" && Exists(old(files), s.configFile);
        if |ss| <= 1 then outcome == LastSessionKept && unchanged(settings) && files == old(files)
        else if !confirmed then outcome == Declined && unchanged(settings) && files == old(files)
        else if hasFile && deleteFault.Some? then
          outcome == DeleteFailed(deleteFault.value) && unchanged(settings) && files == old(files)
        else
          outcome == Deleted &&
          files == (if hasFile then old(files) - {Fold(s.configFile)} else old(files)) &&
          settings.photoSessions == RemoveFirst(ss, s) && settings.defaultSession == settings.photoSessions[0]
      ensures |old(settings.photoSessions)| >= 1 ==> |settings.photoSessions| >= 1
      ensures outcome == Deleted ==> settings.defaultSession in settings.photoSessions
    {
      if |settings.photoSessions| > 1 {
        if !confirmed {
          return Declined;
        }
        var session := settings.defaultSession;
        if session.configFile != "" && Fold(session.configFile) in files {
          if deleteFault.Some? {
            return DeleteFailed(deleteFault.value);
          }
          files := files - {Fold(session.configFile)};
        }
        settings.photoSessions := RemoveFirst(settings.photoSessions, session);
        settings.defaultSession := settings.photoSessions[0];
        outcome := Deleted;
      } else {
        outcome := LastSessionKept;
      }
    }
  }
}
