/** Properties of the capture handler, proved about its specification. */
module TransferProperties {
  import opened Wrappers
  import opened Text
  import opened Paths
  import opened Model
  import opened PluginChain
  import opened Preview
  import opened PhotoTransfer

  /** The kinds of effect, to follow each kind through the handler. */
  datatype Kind = TagKind | PluginKind | SelectKind | OtherKind

  function KindOf(e: Effect): Kind {
    match e
    case SaveComment(_, _) => TagKind
    case AddKeyword(_, _) => TagKind
    case PluginExecuted(_, _, _) => PluginKind
    case SelectImage(_) => SelectKind
    case _ => OtherKind
  }

  /** The effects of one kind, in order. */
  function Only(s: seq<Effect>, k: Kind): (r: seq<Effect>)
    ensures |r| <= |s|
    ensures forall e | e in r :: e in s && KindOf(e) == k
  {
    if s == [] then []
    else (if KindOf(s[0]) == k then [s[0]] else []) + Only(s[1..], k)
  }

  lemma {:induction false} OnlyConcat(a: seq<Effect>, b: seq<Effect>, k: Kind)
    ensures Only(a + b, k) == Only(a, k) + Only(b, k)
    decreases |a|
  {
    if a == [] {
      assert a + b == b;
    } else {
      assert (a + b)[1..] == a[1..] + b;
      OnlyConcat(a[1..], b, k);
    }
  }

  lemma OnlyNone(s: seq<Effect>, k: Kind)
    requires forall i | 0 <= i < |s| :: KindOf(s[i]) != k
    ensures Only(s, k) == []
    decreases |s|
  {
    if s != [] {
      OnlyNone(s[1..], k);
    }
  }

  lemma OnlyAll(s: seq<Effect>, k: Kind)
    requires forall i | 0 <= i < |s| :: KindOf(s[i]) == k
    ensures Only(s, k) == s
    decreases |s|
  {
    if s != [] {
      OnlyAll(s[1..], k);
    }
  }

  lemma TagOpsAreTags(s: SessionFlags, file: string)
    ensures forall i | 0 <= i < |TagOps(s, file)| :: KindOf(TagOps(s, file)[i]) == TagKind
  {
  }

  lemma {:induction false} ChainLogAreRuns(cs: seq<PluginConfig>, runs: nat -> PluginRun, item: FileItem, k: nat)
    requires k <= |cs|
    ensures forall i | 0 <= i < |ChainLog(cs, runs, item, k)| :: KindOf(ChainLog(cs, runs, item, k)[i]) == PluginKind
  {
    var log := ChainLog(cs, runs, item, k);
    ChainLogShape(cs, runs, item, k);
    forall i | 0 <= i < |log| ensures KindOf(log[i]) == PluginKind {
      assert log[i] in log;
    }
  }

  /** --- Reference definition of the tagging calls. --- */

  /** The tags that are selected and have a non-empty value, in order. */
  function SetTags(tags: seq<Option<string>>): seq<string> {
    if tags == [] then []
    else (if tags[0].Some? && tags[0].value != "" then [tags[0].value] else []) + SetTags(tags[1..])
  }

  function Keywords(file: string, ks: seq<string>): (r: seq<Effect>)
    ensures |r| == |ks| && forall i | 0 <= i < |ks| :: r[i] == AddKeyword(file, ks[i])
  {
    seq(|ks|, i requires 0 <= i < |ks| => AddKeyword(file, ks[i]))
  }

  lemma KeywordsConcat(file: string, a: seq<string>, b: seq<string>)
    ensures Keywords(file, a + b) == Keywords(file, a) + Keywords(file, b)
  {
  }

  function SetTag(tag: Option<string>): seq<string> {
    if tag.Some? && tag.value != "" then [tag.value] else []
  }

  lemma SetTagsCons(t: Option<string>, ts: seq<Option<string>>)
    ensures SetTags([t] + ts) == SetTag(t) + SetTags(ts)
  {
    assert ([t] + ts)[1..] == ts;
  }

  lemma KeywordsOfTag(file: string, t: Option<string>)
    ensures Keywords(file, SetTag(t)) == KeywordOp(t, file)
  {
  }

  lemma SetTagsFour(t1: Option<string>, t2: Option<string>, t3: Option<string>, t4: Option<string>)
    ensures SetTags([t1, t2, t3, t4]) == SetTag(t1) + (SetTag(t2) + (SetTag(t3) + SetTag(t4)))
  {
    var l4: seq<Option<string>> := [t4] + [];
    var l3 := [t3] + l4;
    var l2 := [t2] + l3;
    var l1 := [t1] + l2;
    assert [t1, t2, t3, t4] == l1;
    SetTagsCons(t4, []);
    SetTagsCons(t3, l4);
    SetTagsCons(t2, l3);
    SetTagsCons(t1, l2);
    assert SetTag(t4) + [] == SetTag(t4);
  }

  lemma KeywordsFour(file: string, t1: Option<string>, t2: Option<string>, t3: Option<string>, t4: Option<string>)
    ensures Keywords(file, SetTag(t1) + (SetTag(t2) + (SetTag(t3) + SetTag(t4)))) ==
      KeywordOp(t1, file) + (KeywordOp(t2, file) + (KeywordOp(t3, file) + KeywordOp(t4, file)))
  {
    var a, b, c, d := SetTag(t1), SetTag(t2), SetTag(t3), SetTag(t4);
    KeywordsConcat(file, a, b + (c + d));
    KeywordsConcat(file, b, c + d);
    KeywordsConcat(file, c, d);
    KeywordsOfTag(file, t1);
    KeywordsOfTag(file, t2);
    KeywordsOfTag(file, t3);
    KeywordsOfTag(file, t4);
  }

  lemma Regroup(h: seq<Effect>, a: seq<Effect>, b: seq<Effect>, c: seq<Effect>, d: seq<Effect>)
    ensures h + a + b + c + d == h + (a + (b + (c + d)))
  {
  }

  /** The calls lines 420-432 make: the comment first when it is not empty,
      then one keyword per set tag, tag 1 to tag 4. */
  lemma TagOpsReference(s: SessionFlags, file: string)
    ensures TagOps(s, file) ==
      (if s.comment != "" then [SaveComment(file, s.comment)] else []) +
      Keywords(file, SetTags([s.tag1, s.tag2, s.tag3, s.tag4]))
  {
    SetTagsFour(s.tag1, s.tag2, s.tag3, s.tag4);
    KeywordsFour(file, s.tag1, s.tag2, s.tag3, s.tag4);
    Regroup(if s.comment != "" then [SaveComment(file, s.comment)] else [],
            KeywordOp(s.tag1, file), KeywordOp(s.tag2, file), KeywordOp(s.tag3, file), KeywordOp(s.tag4, file));
  }

  /** --- The stages, one at a time. --- */

  lemma StageFacts(w: World, c: Capture)
    ensures var s := StageAndCommit(w, c);
      var temp := Fold(c.foreign.tempFile);
      s.w == w.(files := s.w.files) &&
      w.files - {temp, Fold(BaseName(c, w.files))} <= s.w.files &&
      (!c.session.allowOverWrite ==> w.files - {temp} <= s.w.files) &&
      (s.Go? ==> Fold(Destination(c, w.files)) in s.w.files && temp !in s.w.files) &&
      (s.Go? && !c.session.allowOverWrite ==> Fold(Destination(c, w.files)) !in w.files)
  {
    CommitFacts(w, c, BaseName(c, w.files), Destination(c, w.files));
  }

  lemma CommitFacts(w: World, c: Capture, base: string, dest: string)
    ensures var s := Commit(w, c, base, dest);
      var temp := Fold(c.foreign.tempFile);
      s.w == w.(files := s.w.files) &&
      w.files - {temp, Fold(base)} <= s.w.files &&
      (!c.session.allowOverWrite ==> w.files - {temp} <= s.w.files) &&
      (s.Go? ==> Fold(dest) in s.w.files && temp !in s.w.files) &&
      (s.Go? && !c.session.allowOverWrite ==> Fold(dest) !in w.files)
  {
    var temp := Fold(c.foreign.tempFile);
    var f1 := if c.session.allowOverWrite && Exists(w.files, base) then w.files - {Fold(base)} else w.files;
    assert w.files - {temp, Fold(base)} <= f1 - {temp};
    assert !c.session.allowOverWrite ==> f1 == w.files;
  }

  /** The backup copy line 415 leaves on disk, if any. */
  function BackupFiles(c: Capture): set<string> {
    if BackupName(c).Some? then {Fold(BackupName(c).value)} else {}
  }

  /** With overwriting on, a target that is the same file as the first
      name has been deleted, so the copy finds it free: when the foreign
      calls do not throw, the stage succeeds and the first name's old file
      is replaced by the destination (and the backup). */
  lemma CommitOverwrite(w: World, c: Capture, base: string, dest: string)
    requires c.session.allowOverWrite
    requires c.foreign.deleteFault.None? && c.foreign.tempFault.None?
    requires c.foreign.transferFault.None? && c.foreign.copyFault.None?
    requires !(c.session.backUp && c.foreign.backup.BackupThrows?)
    requires Fold(dest) == Fold(base) && Fold(c.foreign.tempFile) != Fold(base)
    ensures Commit(w, c, base, dest).Go?
    ensures Commit(w, c, base, dest).w.files ==
      ((w.files - {Fold(base)}) + {Fold(dest)} + BackupFiles(c)) - {Fold(c.foreign.tempFile)}
  {
    var f1 := if c.session.allowOverWrite && Exists(w.files, base) then w.files - {Fold(base)} else w.files;
    assert f1 == w.files - {Fold(base)};
  }

  /** The files the handler leaves are those of the file stage. */
  lemma TransferFiles(w: World, c: Capture)
    ensures Transfer(w, c).files == if Eligible(c) then StageAndCommit(Begin(w), c).w.files else w.files
  {
    if Eligible(c) {
      var s := StageAndCommit(Begin(w), c);
      StageFacts(Begin(w), c);
      if s.Go? {
        StampFacts(s.w, c, Destination(c, w.files));
      }
    }
  }

  lemma StampFacts(w: World, c: Capture, dest: string)
    ensures var s := Stamp(w, c, dest);
      s.w == w.(effects := s.w.effects) &&
      (s.Go? ==> s.w.effects == w.effects + StampOps(c, dest)) &&
      exists n: nat | n <= |StampOps(c, dest)| :: s.w.effects == w.effects + StampOps(c, dest)[..n]
  {
    var s := Stamp(w, c, dest);
    var ops := StampOps(c, dest);
    if s.Go? {
      assert ops[..|ops|] == ops;
    }
  }

  /** --- Properties of the handler. --- */

  /** Every exit of the handler for a non-null event clears the busy flag:
      the early returns, the normal end and the exception handler. */
  lemma BusyClearedOnEveryExit(w: World, c: Capture)
    ensures !Transfer(w, c).busy
  {
  }

  /** Lines 353-366: a capture that is not in SD RAM and is not to be
      downloaded (`NoDownload`, or only JPG files wanted and this is not
      one) leaves no trace: no file, no item, no plugin run, no effect. */
  lemma IneligibleLeavesNoTrace(w: World, c: Capture)
    requires !c.inSdRam
    requires c.noDownload || (c.session.downloadOnlyJpg && LowerStr(Ext(c.fileName)) != ".jpg")
    ensures Transfer(w, c) == w.(busy := false, status := Blank)
  {
  }

  /** An eligible capture always ends with a status other than blank:
      the transfer is reported done or failed. */
  lemma EligibleIsReported(w: World, c: Capture)
    requires Eligible(c)
    ensures Transfer(w, c).status == TransferDone || Transfer(w, c).status.TransferError?
  {
  }

  /** Lines 369-383: the template name is used exactly when the original
      name is not wanted or the image is in SD RAM; the unique name exactly
      when the original path exists and overwriting is off; the original
      path otherwise. */
  lemma NameSourceCases(c: Capture, files: set<string>)
    ensures NameSourceOf(c, files) == Template <==> !c.session.useOriginalFilename || c.inSdRam
    ensures NameSourceOf(c, files) == Unique <==>
      c.session.useOriginalFilename && !c.inSdRam &&
      Exists(files, Combine(c.session.folder, c.fileName)) && !c.session.allowOverWrite
    ensures NameSourceOf(c, files) == Original ==>
      BaseName(c, files) == Combine(c.session.folder, c.fileName) &&
      (!Exists(files, BaseName(c, files)) || c.session.allowOverWrite)
  {
  }

  /** Without `AllowOverWrite` no existing file is lost (only the handler's
      own temporary file goes), and an image is cataloged only under a name
      that did not exist before. */
  lemma NoSilentOverwrite(w: World, c: Capture)
    requires !c.session.allowOverWrite
    ensures w.files - {Fold(c.foreign.tempFile)} <= Transfer(w, c).files
    ensures Cataloged(w, c) ==> Fold(Destination(c, w.files)) !in w.files
  {
    StageFacts(Begin(w), c);
    TransferFiles(w, c);
  }

  /** The conditions under which the file stage of an overwriting capture
      meets no exception: the naming call, the delete of an existing target,
      the temporary file, the camera transfer, the copy and the backup all
      succeed, and the first name is
      a plain path other than the temporary file's. */
  predicate OverwriteClear(w: World, c: Capture) {
    var base := BaseName(c, w.files);
    Eligible(c) && !NameThrows(c, w.files) && c.foreign.deleteFault.None? &&
    c.foreign.tempFault.None? && c.foreign.transferFault.None? && c.foreign.copyFault.None? &&
    !(c.session.backUp && c.foreign.backup.BackupThrows?) &&
    SimplePath(base) && Fold(c.foreign.tempFile) != Fold(base)
  }

  /** With `AllowOverWrite` only the target name (besides the temporary
      file) can disappear, and an existing target does not stop the copy:
      when the foreign calls of the file stage succeed, the old file under
      the target name is replaced by the image, and the image is cataloged
      unless an Exiv2 call throws. */
  lemma OverwriteReplacesTarget(w: World, c: Capture)
    requires c.session.allowOverWrite
    ensures w.files - {Fold(c.foreign.tempFile), Fold(BaseName(c, w.files))} <= Transfer(w, c).files
    ensures OverwriteClear(w, c) ==>
      StageAndCommit(Begin(w), c).Go? &&
      Transfer(w, c).files ==
        ((w.files - {Fold(BaseName(c, w.files))}) + {Fold(Destination(c, w.files))} + BackupFiles(c)) -
        {Fold(c.foreign.tempFile)}
    ensures OverwriteClear(w, c) && TagCalls(c, Destination(c, w.files)).fault.None? ==> Cataloged(w, c)
  {
    StageFacts(Begin(w), c);
    TransferFiles(w, c);
    var base := BaseName(c, w.files);
    if OverwriteClear(w, c) {
      ApplyLowerCaseSameFile(c.session.lowerCaseExtension, base);
      CommitOverwrite(Begin(w), c, base, Destination(c, w.files));
    }
  }

  /** Lines 369-395: the name a cataloged image is filed under. It comes
      from the session's name template exactly when the original names are
      not wanted or the image is in the camera's SD RAM; from
      `GetUniqueFilename` on the original path with "_" appended to its
      stem exactly when that path exists and overwriting is off; otherwise
      it is the original path in the session folder. Either way only its
      extension is put in lower case. */
  lemma CatalogedName(w: World, c: Capture)
    requires Cataloged(w, c)
    ensures |Transfer(w, c).items| == |w.items| + 1
    ensures var name := Transfer(w, c).items[|w.items|].fileName;
      var lce := c.session.lowerCaseExtension;
      var original := Combine(c.session.folder, c.fileName);
      (!c.session.useOriginalFilename || c.inSdRam ==> name == ApplyLowerCase(lce, c.foreign.nextFileName)) &&
      (c.session.useOriginalFilename && !c.inSdRam && Exists(w.files, original) && !c.session.allowOverWrite ==>
        name == ApplyLowerCase(lce,
          c.foreign.uniqueFilename(DirName(original) + [Sep] + Stem(original) + "_", 0, Ext(original)))) &&
      (c.session.useOriginalFilename && !c.inSdRam && (!Exists(w.files, original) || c.session.allowOverWrite) ==>
        name == ApplyLowerCase(lce, original)) &&
      (SimplePath(BaseName(c, w.files)) ==> Fold(name) == Fold(BaseName(c, w.files)))
  {
    CatalogOutcome(w, c);
    NameSourceCases(c, w.files);
    if SimplePath(BaseName(c, w.files)) {
      ApplyLowerCaseSameFile(c.session.lowerCaseExtension, BaseName(c, w.files));
    }
  }

  /** Line 417-418: once the image is cataloged the temporary file is gone. */
  lemma TempRemovedWhenCataloged(w: World, c: Capture)
    requires Cataloged(w, c)
    ensures Fold(c.foreign.tempFile) !in Transfer(w, c).files
  {
    StageFacts(Begin(w), c);
    StampFacts(StageAndCommit(Begin(w), c).w, c, Destination(c, w.files));
  }

  /** The temporary file is removed only on the success path: when the copy
      fails, it stays on disk and nothing is cataloged. */
  lemma TempLeftWhenCopyFails(w: World, c: Capture)
    requires Eligible(c) && !NameThrows(c, w.files) && c.foreign.deleteFault.None? && c.foreign.tempFault.None?
    requires c.foreign.transferFault.None? && c.foreign.copyFault.Some?
    ensures Fold(c.foreign.tempFile) in Transfer(w, c).files
    ensures Transfer(w, c).items == w.items && Transfer(w, c).status.TransferError?
  {
  }

  /** The outcome for the catalog, the plugins, the selection and the
      clock: a cataloged capture appends one item naming its destination,
      selects it, runs the plugin chain over the default session's configs
      and stamps the clock; any other run changes none of these. */
  lemma CatalogOutcome(w: World, c: Capture)
    ensures var r := Transfer(w, c); var item := ItemOf(c, Destination(c, w.files));
      if Cataloged(w, c) then
        r.items == w.items + [item] && r.selected == Some(item) &&
        item.fileName == Destination(c, w.files) && Fold(item.fileName) in r.files &&
        r.configs == Chain(w.configs, c.foreign.pluginRun) && r.lastLoad == c.now
      else
        r.items == w.items && r.selected == w.selected && r.configs == w.configs &&
        r.lastLoad == w.lastLoad && r.armed == w.armed
  {
    StageFacts(Begin(w), c);
    if Eligible(c) {
      var s := StageAndCommit(Begin(w), c);
      if s.Go? {
        StampFacts(s.w, c, Destination(c, w.files));
      }
    }
  }

  /** --- The effects, kind by kind. --- */

  lemma TailKinds(b: seq<Effect>, shown: seq<Effect>, rest: seq<Effect>)
    requires forall i | 0 <= i < |b| :: KindOf(b[i]) == OtherKind
    requires forall i | 0 <= i < |rest| :: KindOf(rest[i]) == OtherKind
    requires forall i | 0 <= i < |shown| :: KindOf(shown[i]) == SelectKind
    ensures Only(b + shown + rest, TagKind) == [] && Only(b + shown + rest, PluginKind) == []
    ensures Only(b + shown + rest, SelectKind) == shown
  {
    OnlyConcat(b + shown, rest, TagKind);
    OnlyConcat(b + shown, rest, PluginKind);
    OnlyConcat(b + shown, rest, SelectKind);
    OnlyConcat(b, shown, TagKind);
    OnlyConcat(b, shown, PluginKind);
    OnlyConcat(b, shown, SelectKind);
    OnlyNone(b, TagKind);
    OnlyNone(b, PluginKind);
    OnlyNone(b, SelectKind);
    OnlyNone(rest, TagKind);
    OnlyNone(rest, PluginKind);
    OnlyNone(rest, SelectKind);
    OnlyNone(shown, TagKind);
    OnlyNone(shown, PluginKind);
    OnlyAll(shown, SelectKind);
  }

  /** The viewer and sound commands of `Finish`. */
  function ViewerOps(a: World, c: Capture, dest: string): seq<Effect> {
    if c.app.useExternalViewer && Exists(a.files, c.app.externalViewerPath) then
      if c.foreign.viewerFault.Some? then []
      else [RunViewer(c.app.externalViewerPath, ExternalViewer.ViewerArgs(c.app.externalViewerArgs, dest))] + SoundOps(c)
    else SoundOps(c)
  }

  function Shown(k: World, c: Capture, dest: string): seq<Effect> {
    if Decide(c.app, c.screen, dest, c.now - k.lastLoad) == SelectNow then [SelectImage(ItemOf(c, dest))] else []
  }

  lemma AnnounceFinishEffects(k: World, c: Capture, dest: string)
    ensures Finish(Announce(k, c, dest), c, dest).w.effects ==
      k.effects + (BalloonOps(c, dest) + Shown(k, c, dest) + (FullScreenOps(c) + ViewerOps(Announce(k, c, dest), c, dest)))
  {
  }

  lemma OtherOps(c: Capture, dest: string, a: World)
    ensures forall i | 0 <= i < |BalloonOps(c, dest)| :: KindOf(BalloonOps(c, dest)[i]) == OtherKind
    ensures var rest := FullScreenOps(c) + ViewerOps(a, c, dest);
      forall i | 0 <= i < |rest| :: KindOf(rest[i]) == OtherKind
  {
  }

  /** After the catalog insert the handler only sends commands to the
      user interface; the one selection among them is the preview's. */
  lemma AfterCatalog(k: World, c: Capture, dest: string)
    ensures var f := Finish(Announce(k, c, dest), c, dest).w;
      k.effects <= f.effects &&
      var t := f.effects[|k.effects|..];
      Only(t, TagKind) == [] && Only(t, PluginKind) == [] && Only(t, SelectKind) == Shown(k, c, dest)
  {
    var a := Announce(k, c, dest);
    var f := Finish(a, c, dest).w;
    var rest := FullScreenOps(c) + ViewerOps(a, c, dest);
    var t := BalloonOps(c, dest) + Shown(k, c, dest) + rest;
    AnnounceFinishEffects(k, c, dest);
    assert f.effects[|k.effects|..] == t;
    OtherOps(c, dest, a);
    TailKinds(BalloonOps(c, dest), Shown(k, c, dest), rest);
  }

  /** The effects after a camera-side or tagging fault: some first calls of
      the tagging, nothing else. */
  lemma StampedKinds(ops: seq<Effect>, n: nat)
    requires n <= |ops|
    requires forall i | 0 <= i < |ops| :: KindOf(ops[i]) == TagKind
    ensures Only(ops[..n], TagKind) == ops[..n]
    ensures Only(ops[..n], PluginKind) == [] && Only(ops[..n], SelectKind) == []
  {
    OnlyAll(ops[..n], TagKind);
    OnlyNone(ops[..n], PluginKind);
    OnlyNone(ops[..n], SelectKind);
  }

  lemma CatalogedKinds(ops: seq<Effect>, log: seq<Effect>, t: seq<Effect>)
    requires forall i | 0 <= i < |ops| :: KindOf(ops[i]) == TagKind
    requires forall i | 0 <= i < |log| :: KindOf(log[i]) == PluginKind
    requires Only(t, TagKind) == [] && Only(t, PluginKind) == []
    ensures Only(ops + log + t, TagKind) == ops
    ensures Only(ops + log + t, PluginKind) == log
    ensures Only(ops + log + t, SelectKind) == Only(t, SelectKind)
  {
    OnlyConcat(ops + log, t, TagKind);
    OnlyConcat(ops + log, t, PluginKind);
    OnlyConcat(ops + log, t, SelectKind);
    OnlyConcat(ops, log, TagKind);
    OnlyConcat(ops, log, PluginKind);
    OnlyConcat(ops, log, SelectKind);
    OnlyAll(ops, TagKind);
    OnlyNone(ops, PluginKind);
    OnlyNone(ops, SelectKind);
    OnlyAll(log, PluginKind);
    OnlyNone(log, TagKind);
    OnlyNone(log, SelectKind);
  }

  lemma StampOpsAreTags(c: Capture, dest: string)
    ensures forall i | 0 <= i < |StampOps(c, dest)| :: KindOf(StampOps(c, dest)[i]) == TagKind
  {
    TagOpsAreTags(c.session, dest);
  }

  /** The world right after the catalog insert and the plugin chain. */
  function Reached(w: World, c: Capture): World
    requires Cataloged(w, c)
  {
    var dest := Destination(c, w.files);
    Catalog(Stamp(StageAndCommit(Begin(w), c).w, c, dest).w, c, dest)
  }

  /** A cataloged capture ends with the preview, the clock and the
      notifications applied to that world; a viewer fault changes only the
      busy flag and the status. */
  lemma CatalogedResult(w: World, c: Capture)
    requires Cataloged(w, c)
    ensures var dest := Destination(c, w.files); var f := Finish(Announce(Reached(w, c), c, dest), c, dest).w;
      Transfer(w, c) == f.(status := Transfer(w, c).status)
  {
  }

  lemma ReachedFacts(w: World, c: Capture)
    requires Cataloged(w, c)
    ensures var dest := Destination(c, w.files); var k := Reached(w, c); var item := ItemOf(c, dest);
      k.effects == w.effects + StampOps(c, dest) + ChainLog(w.configs, c.foreign.pluginRun, item, |w.configs|) &&
      k.lastLoad == w.lastLoad && k.armed == w.armed && k.selected == Some(item) &&
      k.items == w.items + [item] && k.configs == Chain(w.configs, c.foreign.pluginRun)
  {
    StageFacts(Begin(w), c);
    StampFacts(StageAndCommit(Begin(w), c).w, c, Destination(c, w.files));
  }

  lemma UncatalogedEffects(w: World, c: Capture)
    requires !Cataloged(w, c)
    ensures w.effects <= Transfer(w, c).effects
    ensures var r := Transfer(w, c); var dest := Destination(c, w.files);
      var added := r.effects[|w.effects|..];
      (exists n: nat | n <= |StampOps(c, dest)| :: Only(added, TagKind) == StampOps(c, dest)[..n]) &&
      Only(added, PluginKind) == [] && Only(added, SelectKind) == []
  {
    var r := Transfer(w, c);
    var dest := Destination(c, w.files);
    var ops := StampOps(c, dest);
    StampOpsAreTags(c, dest);
    StageFacts(Begin(w), c);
    if !Eligible(c) || StageAndCommit(Begin(w), c).Fault? {
      assert r.effects == w.effects;
      assert r.effects[|w.effects|..] == [] == ops[..0];
    } else {
      var s := StageAndCommit(Begin(w), c).w;
      StampFacts(s, c, dest);
      var st := Stamp(s, c, dest);
      var n: nat :| n <= |ops| && st.w.effects == s.effects + ops[..n];
      assert r.effects == w.effects + ops[..n];
      assert r.effects[|w.effects|..] == ops[..n];
      StampedKinds(ops, n);
    }
  }

  lemma ComposeKinds(we: seq<Effect>, ops: seq<Effect>, log: seq<Effect>, ke: seq<Effect>, fe: seq<Effect>, shown: seq<Effect>)
    requires ke == we + ops + log && ke <= fe
    requires forall i | 0 <= i < |ops| :: KindOf(ops[i]) == TagKind
    requires forall i | 0 <= i < |log| :: KindOf(log[i]) == PluginKind
    requires Only(fe[|ke|..], TagKind) == [] && Only(fe[|ke|..], PluginKind) == []
    requires Only(fe[|ke|..], SelectKind) == shown
    ensures we <= fe
    ensures Only(fe[|we|..], TagKind) == ops && Only(fe[|we|..], PluginKind) == log
    ensures Only(fe[|we|..], SelectKind) == shown
  {
    var t := fe[|ke|..];
    SplitAfterPrefix(we, ops, log, fe);
    CatalogedKinds(ops, log, t);
  }

  /** A log that extends `we + ops + log` is `we`, then `ops + log`, then the rest. */
  lemma SplitAfterPrefix(we: seq<Effect>, ops: seq<Effect>, log: seq<Effect>, fe: seq<Effect>)
    requires we + ops + log <= fe
    ensures we <= fe && fe[|we|..] == ops + log + fe[|we + ops + log|..]
  {
    var ke := we + ops + log;
    var t := fe[|ke|..];
    assert fe == ke + t;
    assert ke == we + (ops + log);
  }

  lemma CatalogedEffectsAt(w: World, c: Capture)
    requires Cataloged(w, c)
    ensures var dest := Destination(c, w.files); var f := Finish(Announce(Reached(w, c), c, dest), c, dest).w;
      w.effects <= f.effects &&
      var added := f.effects[|w.effects|..]; var item := ItemOf(c, dest);
      Only(added, TagKind) == StampOps(c, dest) &&
      Only(added, PluginKind) == ChainLog(w.configs, c.foreign.pluginRun, item, |w.configs|) &&
      Only(added, SelectKind) == Shown(w, c, dest)
  {
    var dest := Destination(c, w.files);
    var item := ItemOf(c, dest);
    var k := Reached(w, c);
    StampOpsAreTags(c, dest);
    ReachedFacts(w, c);
    AfterCatalog(k, c, dest);
    ChainLogAreRuns(w.configs, c.foreign.pluginRun, item, |w.configs|);
    ComposeKinds(w.effects, StampOps(c, dest), ChainLog(w.configs, c.foreign.pluginRun, item, |w.configs|),
      k.effects, Finish(Announce(k, c, dest), c, dest).w.effects, Shown(k, c, dest));
  }

  lemma CatalogedEffects(w: World, c: Capture)
    requires Cataloged(w, c)
    ensures w.effects <= Transfer(w, c).effects
    ensures var r := Transfer(w, c); var dest := Destination(c, w.files);
      var added := r.effects[|w.effects|..]; var item := ItemOf(c, dest);
      Only(added, TagKind) == StampOps(c, dest) &&
      Only(added, PluginKind) == ChainLog(w.configs, c.foreign.pluginRun, item, |w.configs|) &&
      Only(added, SelectKind) == Shown(w, c, dest)
  {
    CatalogedResult(w, c);
    CatalogedEffectsAt(w, c);
  }

  /** The handler only appends effects, and per kind they are: a prefix of
      the tagging calls (all of them once the image is cataloged), the
      plugin executions of the chain when the image is cataloged and none
      otherwise, and one selection of the new item exactly when it was
      cataloged and the preview decision was to show it now. */
  lemma TransferEffects(w: World, c: Capture)
    ensures w.effects <= Transfer(w, c).effects
    ensures var r := Transfer(w, c); var dest := Destination(c, w.files);
      var added := r.effects[|w.effects|..]; var item := ItemOf(c, dest);
      (exists n: nat | n <= |StampOps(c, dest)| :: Only(added, TagKind) == StampOps(c, dest)[..n]) &&
      (Cataloged(w, c) ==> Only(added, TagKind) == StampOps(c, dest)) &&
      Only(added, PluginKind) ==
        (if Cataloged(w, c) then ChainLog(w.configs, c.foreign.pluginRun, item, |w.configs|) else []) &&
      Only(added, SelectKind) ==
        (if Cataloged(w, c) && Decide(c.app, c.screen, dest, c.now - w.lastLoad) == SelectNow
         then [SelectImage(item)] else [])
  {
    if Cataloged(w, c) {
      CatalogedEffects(w, c);
      var ops := StampOps(c, Destination(c, w.files));
      assert ops[..|ops|] == ops;
    } else {
      UncatalogedEffects(w, c);
    }
  }

  lemma {:induction false} OnlyMember(s: seq<Effect>, k: Kind, e: Effect)
    ensures e in Only(s, k) <==> e in s && KindOf(e) == k
    decreases |s|
  {
    if s != [] {
      OnlyMember(s[1..], k, e);
      assert s == [s[0]] + s[1..];
    }
  }

  /** Lines 446-463 within the handler: once the image is cataloged, the
      plugin of config `j` of the default session is executed on the new
      item exactly when that config is enabled and its plugin is found;
      nothing is executed for a capture that is not cataloged. */
  lemma PluginsRunOnCatalog(w: World, c: Capture, j: nat)
    requires j < |w.configs|
    ensures w.effects <= Transfer(w, c).effects
    ensures var added := Transfer(w, c).effects[|w.effects|..];
      var item := ItemOf(c, Destination(c, w.files));
      (PluginExecuted(j, w.configs[j].pluginType, item) in added <==>
        Cataloged(w, c) && w.configs[j].isEnabled && !c.foreign.pluginRun(j).NotRegistered?) &&
      (!Cataloged(w, c) ==> forall e | e in added :: !e.PluginExecuted?)
  {
    TransferEffects(w, c);
    var added := Transfer(w, c).effects[|w.effects|..];
    var item := ItemOf(c, Destination(c, w.files));
    OnlyMember(added, PluginKind, PluginExecuted(j, w.configs[j].pluginType, item));
    if Cataloged(w, c) {
      ChainExecutes(w.configs, c.foreign.pluginRun, item, |w.configs|, j);
    } else {
      forall e | e in added ensures !e.PluginExecuted? {
        OnlyMember(added, PluginKind, e);
      }
    }
  }

  /** Lines 420-432 within the handler: without `WriteComment` nothing is
      written into the image; with it, a cataloged image has received
      exactly the reference sequence of calls. */
  lemma TaggingOnlyWithWriteComment(w: World, c: Capture)
    ensures w.effects <= Transfer(w, c).effects
    ensures var added := Transfer(w, c).effects[|w.effects|..]; var dest := Destination(c, w.files);
      (!c.session.writeComment ==> forall e | e in added :: !e.SaveComment? && !e.AddKeyword?) &&
      (c.session.writeComment && Cataloged(w, c) ==>
        Only(added, TagKind) ==
          (if c.session.comment != "" then [SaveComment(dest, c.session.comment)] else []) +
          Keywords(dest, SetTags([c.session.tag1, c.session.tag2, c.session.tag3, c.session.tag4])))
  {
    TransferEffects(w, c);
    var added := Transfer(w, c).effects[|w.effects|..];
    var dest := Destination(c, w.files);
    TagOpsReference(c.session, dest);
    if !c.session.writeComment {
      forall e | e in added ensures !e.SaveComment? && !e.AddKeyword? {
        OnlyMember(added, TagKind, e);
      }
    }
  }

  /** Lines 473-492: the preview of a cataloged image. It is shown at once
      exactly when the decision says so, the timer is (re)armed exactly
      when the decision defers it, and the clock is stamped in every case. */
  lemma PreviewOutcome(w: World, c: Capture)
    requires Cataloged(w, c)
    ensures w.effects <= Transfer(w, c).effects
    ensures var r := Transfer(w, c); var dest := Destination(c, w.files);
      var d := Decide(c.app, c.screen, dest, c.now - w.lastLoad);
      Only(r.effects[|w.effects|..], SelectKind) == (if d == SelectNow then [SelectImage(ItemOf(c, dest))] else []) &&
      r.armed == (w.armed || d == Deferred) &&
      r.lastLoad == c.now
  {
    TransferEffects(w, c);
    CatalogedResult(w, c);
    ReachedFacts(w, c);
    AnnounceClock(Reached(w, c), c, Destination(c, w.files));
  }

  /** Lines 473-475 and 478: without `AutoPreview`, with the multi-camera
      window open or with the external viewer chosen, or with
      `AutoPreviewJpgOnly` and an image whose extension is not ".jpg" in any
      case, a cataloged capture selects nothing and leaves the timer alone. */
  lemma PreviewNeedsGates(w: World, c: Capture)
    requires Cataloged(w, c)
    requires !c.app.autoPreview || c.screen.multipleCameraWindowVisible || c.app.useExternalViewer ||
      (c.app.autoPreviewJpgOnly && LowerStr(Ext(Destination(c, w.files))) != ".jpg")
    ensures w.effects <= Transfer(w, c).effects
    ensures Only(Transfer(w, c).effects[|w.effects|..], SelectKind) == []
    ensures Transfer(w, c).armed == w.armed
  {
    PreviewOutcome(w, c);
    DecideCases(c.app, c.screen, Destination(c, w.files), c.now - w.lastLoad);
    JpgRuleCases(c.app, Destination(c, w.files));
  }

  /** Lines 479-490: with the gates open, a capture that comes four seconds
      or more after the last load, or any capture when `DelayImageLoading`
      is off, selects its own item at once, exactly once, and leaves the
      timer as it was. */
  lemma LateCaptureShownAtOnce(w: World, c: Capture)
    requires Cataloged(w, c)
    requires c.app.autoPreview && !c.screen.multipleCameraWindowVisible && !c.app.useExternalViewer
    requires !c.app.autoPreviewJpgOnly || LowerStr(Ext(Destination(c, w.files))) == ".jpg"
    requires !c.app.delayImageLoading || c.now - w.lastLoad >= QuietIntervalMs
    ensures w.effects <= Transfer(w, c).effects
    ensures Only(Transfer(w, c).effects[|w.effects|..], SelectKind) == [SelectImage(ItemOf(c, Destination(c, w.files)))]
    ensures Transfer(w, c).armed == w.armed
  {
    PreviewOutcome(w, c);
    DecideCases(c.app, c.screen, Destination(c, w.files), c.now - w.lastLoad);
    JpgRuleCases(c.app, Destination(c, w.files));
  }

  /** After the catalog insert, the timer and the clock are those the
      preview decision leaves. */
  lemma AnnounceClock(k: World, c: Capture, dest: string)
    ensures var f := Finish(Announce(k, c, dest), c, dest).w;
      f.armed == (k.armed || Decide(c.app, c.screen, dest, c.now - k.lastLoad) == Deferred) &&
      f.lastLoad == c.now
  {
  }

  /** Lines 227-231 after a capture: when the timer fires it shows the item
      cataloged last, and the timer is spent. */
  lemma TimerShowsLatestItem(w: World, c: Capture)
    requires Cataloged(w, c)
    ensures var r := Transfer(w, c);
      Elapsed(r).effects == r.effects + [SelectImage(ItemOf(c, Destination(c, w.files)))] && !Elapsed(r).armed
  {
    CatalogOutcome(w, c);
  }

  /** A cataloged capture whose preview is deferred shows nothing, stamps
      the clock and leaves the timer armed. */
  lemma DeferredShowsNothing(w: World, c: Capture, r: World)
    requires r == Transfer(w, c) && Cataloged(w, c)
    requires Decide(c.app, c.screen, Destination(c, w.files), c.now - w.lastLoad) == Deferred
    ensures w.effects <= r.effects && Only(r.effects[|w.effects|..], SelectKind) == []
    ensures r.lastLoad == c.now && r.armed
  {
    PreviewOutcome(w, c);
  }

  /** A cataloged capture that arrives less than four seconds after the
      clock was last stamped, with `DelayImageLoading` set and the preview
      gates open, is previewed through the timer, and when the timer fires
      the item shown is this capture's. */
  lemma TimerTakesOver(w: World, c: Capture, r: World, stamped: int)
    requires r == Transfer(w, c) && Cataloged(w, c)
    requires w.lastLoad == stamped && c.app.delayImageLoading && c.now - stamped < QuietIntervalMs
    requires Gates(c.app, c.screen, Destination(c, w.files))
    ensures w.effects <= r.effects && Only(r.effects[|w.effects|..], SelectKind) == []
    ensures r.armed
    ensures Elapsed(r).effects == r.effects + [SelectImage(ItemOf(c, Destination(c, w.files)))]
  {
    PreviewOutcome(w, c);
    TimerShowsLatestItem(w, c);
  }

  /** Two captures less than four seconds apart, both previewed through the
      timer: nothing is shown while they arrive, the timer is armed, and
      when it fires the one item shown is the second image. */
  lemma BurstCoalesces(w: World, c1: Capture, w1: World, c2: Capture, w2: World)
    requires w1 == Transfer(w, c1) && w2 == Transfer(w1, c2)
    requires Cataloged(w, c1) && Cataloged(w1, c2)
    requires Decide(c1.app, c1.screen, Destination(c1, w.files), c1.now - w.lastLoad) == Deferred
    requires c2.app.delayImageLoading && c2.now - c1.now < QuietIntervalMs
    requires Gates(c2.app, c2.screen, Destination(c2, w1.files))
    ensures w.effects <= w2.effects && Only(w2.effects, SelectKind) == Only(w.effects, SelectKind)
    ensures w2.armed
    ensures Elapsed(w2).effects == w2.effects + [SelectImage(ItemOf(c2, Destination(c2, w1.files)))]
  {
    DeferredShowsNothing(w, c1, w1);
    TimerTakesOver(w1, c2, w2, c1.now);
    QuietThroughBurst(w.effects, w1.effects, w2.effects);
  }

  lemma QuietThroughBurst(e0: seq<Effect>, e1: seq<Effect>, e2: seq<Effect>)
    requires e0 <= e1 && e1 <= e2
    requires Only(e1[|e0|..], SelectKind) == [] && Only(e2[|e1|..], SelectKind) == []
    ensures e0 <= e2 && Only(e2, SelectKind) == Only(e0, SelectKind)
  {
    QuietExtension(e0, e1);
    QuietExtension(e1, e2);
  }

  lemma QuietExtension(e0: seq<Effect>, e1: seq<Effect>)
    requires e0 <= e1 && Only(e1[|e0|..], SelectKind) == []
    ensures Only(e1, SelectKind) == Only(e0, SelectKind)
  {
    assert e1 == e0 + e1[|e0|..];
    OnlyConcat(e0, e1[|e0|..], SelectKind);
  }
}
