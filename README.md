# digiCamControl main window: capture handling, camera order, presets and sessions

This project models the core of digiCamControl's main window, `CameraControl/MainWindow.xaml.cs`, in Dafny and proves properties of that model. digiCamControl is a Windows application for controlling cameras tethered to a PC.

The model covers these parts of the window:

- **The capture handler `PhotoCaptured`.** It does the following, in order:
  - decides whether a captured image is downloaded;
  - chooses its file name (template, original or unique) and deletes an existing target when overwriting;
  - puts the extension in lower case;
  - downloads the image through a temporary file, copies it into place and backs it up;
  - writes the comment and keywords into it;
  - catalogs it in the photo session;
  - runs the auto-export plugins;
  - shows a tray balloon;
  - previews the image, either at once or through the selection timer when images arrive less than four seconds apart;
  - shows the full-screen window, starts the external viewer and plays the capture sound.

  Every exit clears the camera's busy flag. An exception anywhere is reported in the status message.
- **The selection timer.** When it fires, it shows the item selected last.
- **`SortCameras`.** It reorders the connected cameras by `SortOrder` and then `DisplayName`, ascending or descending. The order is stable.
- **`LoadInAllPreset` and `VerifyPreset`.** They apply a camera preset to, or check it against, every connected camera. A fault on one camera does not stop the batch.
- **Saving a preset.** This is an upsert by name.
- **Deleting the default photo session.** The last session is never deleted.

## How the model is laid out

The capture handler is specified by the pure function `PhotoTransfer.Transfer`, which maps a state (`World`) and an event (`Capture`) to a new state. The class `Window.MainWindow` holds the window's fields and updates them in place. Its methods are proved to move the state exactly as the specification functions say. The lemmas in `TransferProperties` prove what the handler promises, stated over `Transfer`.

- **Files.** The file system is the set of existing paths, stored in case-folded form because the Windows file system is case-insensitive. For example, `IMG.JPG` and `img.jpg` are the same file. The folding lower-cases ASCII letters only, so two paths that differ only in the case of a non-ASCII letter are different files in the model.
- **Foreign calls.** Calls into code outside the window are given as their outcomes in the datatype `PhotoTransfer.Foreign`:
  - the camera transfer, the copy, the backup, the Exiv2 calls, the plugins and the viewer launch each contribute either a result or a thrown message;
  - `GetNextFileName` and `GetUniqueFilename` are given as values, together with the message they throw, if any (`nameFault`);
  - `Path.GetTempFileName` is given as the temporary file's name, together with the message it throws, if any (`tempFault`);
  - the delete of an existing target when overwriting is given as the message it throws, if any (`deleteFault`).
- **Clock.** The clock is a parameter `now`, in milliseconds. The window's constructor takes the time of its creation, which `_lastLoadTime` starts from.
- **Selection timer.** The timer is an "armed" flag. `SelectionTimerElapsed` is the elapsed handler.
- **Effects.** Whatever the handler sends to the user interface or into the image file is appended to an effect log:
  - metadata writes;
  - plugin executions;
  - the balloon;
  - the selection of an image;
  - the full-screen command;
  - the viewer launch;
  - the sound.
- **Preset batches.** A batch produces a trace of what it shows and does: the progress dialog, the label and progress value per camera, the action applied with its outcome, and the pause.
- **Sessions and presets.** Photo sessions, cameras, presets, the settings and the device manager are classes (`Devices`) whose fields the window updates.

| file | module | contents |
|---|---|---|
| wrappers.dfy | Wrappers | `Option` |
| text.dfy | Text | ASCII lower case, `LastIndexOf`, `Contains`/`Replace`, ordinal string order |
| paths.dfy | Paths | `Path.GetFileName`/`GetDirectoryName`/`GetExtension`/`GetFileNameWithoutExtension`/`Combine` on `\`-separated paths; the lower-case extension |
| model.dfy | Model | the values the handler reads and produces |
| plugins.dfy | PluginChain | the auto-export plugin loop as a function |
| preview.dfy | Preview | the preview decision |
| viewer.dfy | ExternalViewer | the external viewer's command line |
| transfer.dfy | PhotoTransfer | the capture handler as a function `Transfer` |
| transfer_props.dfy | TransferProperties | the properties of `Transfer` |
| camera_order.dfy | CameraOrder | the stable key sort |
| devices.dfy | Devices | the classes the window updates |
| presets.dfy | Presets | the preset batch trace and the preset name lookup |
| main_window.dfy | Window | the class `MainWindow` and its methods |

## Model

| member | source | states |
|---|---|---|
| Window.MainWindow.constructor | CameraControl/MainWindow.xaml.cs:76-80 | A new window has no selected item, its load-time stamp is the time of its creation, the timer is not running and cameras sort ascending. |
| Window.MainWindow.PhotoCaptured | CameraControl/MainWindow.xaml.cs:340-523 | A null event changes nothing. Otherwise the camera's busy flag, the files, the session's items, the default session's plugin configs, the selection, the clock stamp, the timer, the status and the effects become exactly what `Transfer` gives for that event. The modifies clauses name these fields one by one, so nothing else changes: not the sort order, not the items of the default session when the camera has its own session, and not the attached session's plugin configs. |
| Window.MainWindow.Download | CameraControl/MainWindow.xaml.cs:348-519 | For a non-null event, the new state is `Transfer` of the old one. The session is the camera's attached session, or else the default session. Only the fields `Transfer` speaks of can change. |
| Window.MainWindow.ProcessCapture | CameraControl/MainWindow.xaml.cs:367-519 | Once a capture is eligible, the state follows the pipeline's stages. When a stage throws, the state it reached gets a cleared busy flag and the error message as its status. Only the fields `Transfer` speaks of can change. |
| Window.MainWindow.StageCapture | CameraControl/MainWindow.xaml.cs:369-418 | When the naming call throws, the stage faults with its message and the files are untouched. Otherwise the destination is the chosen name with the optional lower-case extension, and the files change as the file stage says, or the stage faults with the thrown message. The backup name is the `CopyBackUp` outcome when backup is on. |
| Window.MainWindow.StoreImage | CameraControl/MainWindow.xaml.cs:385-418 | The files after the delete, temp-file, transfer, copy, backup and cleanup steps. The delete of an existing target (line 387) can throw, and so can `GetTempFileName` after it, the camera transfer, the copy and the backup. Each of these reports its own fault, and the copy also faults on an existing target. The two deletes of the temporary file (lines 407 and 418) never fail. The temporary file is deleted only at the end of the success path. |
| Window.MainWindow.WriteMetadata | CameraControl/MainWindow.xaml.cs:420-432 | The effects gain exactly the Exiv2 calls made before the first one that throws, if any. The fault is that call's message. |
| Window.MainWindow.WriteKeywords | CameraControl/MainWindow.xaml.cs:424-431 | The four tags' keyword calls, in order, continuing from the calls already made. A throw at call `n` leaves exactly the first `n` calls. |
| Window.MainWindow.Keyword | CameraControl/MainWindow.xaml.cs:424-425 | One tag gives a keyword call exactly when it is set and its value is not empty; that call throws when the failing position is reached. |
| Window.MainWindow.Exiv2 | CameraControl/MainWindow.xaml.cs:422-431 | One Exiv2 call: it is logged, or it throws without being logged when it is the failing one. |
| Window.MainWindow.StampCapture | CameraControl/MainWindow.xaml.cs:420-432 | The state moves as `Stamp` says: tagging calls are appended, or the stage faults. |
| Window.MainWindow.CatalogCapture | CameraControl/MainWindow.xaml.cs:438-463 | The session gains one item carrying the destination, the backup name and the series. That item is selected. The plugin chain runs on it, as `Catalog` says. |
| Window.MainWindow.RunPlugins | CameraControl/MainWindow.xaml.cs:446-463 | The loop leaves the configs equal to `Chain` of the old ones. The effects gain `ChainLog`, which holds one execution per enabled config whose plugin is found, in order. |
| Window.MainWindow.AnnounceCapture | CameraControl/MainWindow.xaml.cs:466-495 | The state moves as `Announce` says: balloon, preview, clock stamp, "done" status and a cleared busy flag. |
| Window.MainWindow.ShowCaptured | CameraControl/MainWindow.xaml.cs:466-492 | The balloon appears when the window is hidden in the tray. The selection is shown exactly when `Decide` says `SelectNow`, and the timer is armed when it says `Deferred`. The clock is stamped with `now`. |
| Window.MainWindow.FinishCapture | CameraControl/MainWindow.xaml.cs:497-511 | The state moves as `Finish` says: full screen, viewer and sound, or the viewer's fault. |
| Window.MainWindow.OpenViews | CameraControl/MainWindow.xaml.cs:497-511 | Full screen opens exactly when `Preview` is on, the multi-camera window is not visible and the external viewer is not chosen. The viewer starts with `ViewerArgs` when it is enabled and exists, and its fault stops before the sound. The sound plays when it is enabled. |
| Window.MainWindow.SelectionTimerElapsed | CameraControl/MainWindow.xaml.cs:227-231 | The timer is spent. One selection of the selected item is shown when there is one, and nothing otherwise. |
| Window.MainWindow.SortCameras | CameraControl/MainWindow.xaml.cs:848-869 | The chosen order is remembered. A null camera faults and leaves the list as it was. Otherwise the list becomes the stable sort by key, and it is sorted and a permutation of the old list. |
| Window.MainWindow.ResortCameras | CameraControl/MainWindow.xaml.cs:843-846 | The list is sorted again in the order chosen last, and that order is kept. |
| Window.MainWindow.RunPresetBatch | CameraControl/MainWindow.xaml.cs:149-218 | A null preset does nothing. Otherwise the loop's trace is `BatchTrace` of the connected cameras. |
| Window.MainWindow.LoadInAllPreset | CameraControl/MainWindow.xaml.cs:149-183 | The batch applies `Set` to every connected camera that is reached, or does nothing for a null preset. |
| Window.MainWindow.VerifyPreset | CameraControl/MainWindow.xaml.cs:185-218 | The same batch with `Verify`. |
| Window.MainWindow.SavePreset | CameraControl/MainWindow.xaml.cs:929-948 | Cancelling the dialog changes nothing. Otherwise the first preset with that name gets the captured values and no other preset changes; when there is none, one new preset with that name and values is appended. The names become `UpsertNames` of the old names. |
| Window.MainWindow.DeleteSession | CameraControl/MainWindow.xaml.cs:735-765 | The last session is kept, a "no" changes nothing, and a failing config-file delete changes nothing. Otherwise the config file is gone, the default session is removed and the first session left becomes the default. At least one session always remains. |
| Window.RemoveFirst | CameraControl/MainWindow.xaml.cs:750 | `List.Remove`: the list loses one occurrence of a present element and is unchanged otherwise. |
| Window.RemoveFirstDropsFirst | CameraControl/MainWindow.xaml.cs:750 | The occurrence removed is the first one, and the elements before and after it keep their order. |
| Presets.BatchCounts | CameraControl/MainWindow.xaml.cs:157-176 | The dialog's maximum is the number of cameras. The progress values shown are 0, 1, … for the reached cameras in turn. The batch pauses once per reached camera. |
| Presets.BatchApplies | CameraControl/MainWindow.xaml.cs:159-171 | The action is applied to a camera exactly when it is non-null and connected, each with its own outcome. A fault on one camera does not stop the batch. |
| Presets.VisitsProgress | CameraControl/MainWindow.xaml.cs:159-168 | After `n` iterations, the progress values shown are 0 up to the number of cameras reached, in order. |
| Presets.VisitsPauses | CameraControl/MainWindow.xaml.cs:159-174 | After `n` iterations, the batch has paused once per camera reached. |
| Presets.VisitsApply | CameraControl/MainWindow.xaml.cs:159-171 | After `n` iterations, exactly the reached cameras among the first `n` have had the action applied. |
| Presets.FirstIndex | CameraControl/MainWindow.xaml.cs:936-943 | The position of the first preset with the name, or -1 exactly when no preset has it. |
| Presets.UpsertKeepsNamesDistinct | CameraControl/MainWindow.xaml.cs:936-946 | Saving keeps preset names distinct, and the saved name is present afterwards. |
| CameraOrder.SortBySorted | CameraControl/MainWindow.xaml.cs:857-868 | The result is in key order. |
| CameraOrder.SortByElements | CameraControl/MainWindow.xaml.cs:857-868 | The result is a permutation of the input. |
| CameraOrder.SortByStable | CameraControl/MainWindow.xaml.cs:857-868 | Cameras with the same key keep their relative order, as LINQ's `OrderBy`/`ThenBy` promise. |
| CameraOrder.BeforeTransitive | CameraControl/MainWindow.xaml.cs:857-868 | The key order (`SortOrder`, then `DisplayName`, both reversed when descending) is transitive. |
| CameraOrder.BeforeTotal | CameraControl/MainWindow.xaml.cs:857-868 | Two keys neither of which goes first are equal. |
| Text.StrLessTotal | CameraControl/MainWindow.xaml.cs:857-868 | Ordinal string comparison orders any two different names. |
| Paths.LowerExtensionOnlyTouchesExtension | CameraControl/MainWindow.xaml.cs:391-395 | Lowering the extension keeps the directory and the stem, and the new extension is the old one in lower case. |
| Paths.ApplyLowerCaseIdempotent | CameraControl/MainWindow.xaml.cs:391-395 | Lowering the extension twice is the same as lowering it once. |
| Paths.ApplyLowerCaseSameFile | CameraControl/MainWindow.xaml.cs:385-395 | The lowered name is the same file, case-insensitively, as the name before it. The name is unchanged when there is no extension. |
| ExternalViewer.ViewerArgsNameTheFile | CameraControl/MainWindow.xaml.cs:505 | The viewer's arguments always contain the image's file name. |
| ExternalViewer.ViewerArgsShape | CameraControl/MainWindow.xaml.cs:505 | Without `%1`, replacing `%1` would change nothing, so the file name would be missing; this is why the source appends it. The lemma also repeats, from the definition, that the arguments are then the configured ones, a space and the file name. |
| PluginChain.ChainLogShape | CameraControl/MainWindow.xaml.cs:446-455 | The plugin log holds executions only of enabled configs, on the new item, in config order. |
| PluginChain.ChainExecutes | CameraControl/MainWindow.xaml.cs:446-455 | Config `j`'s plugin is executed exactly when the config is enabled and its plugin is found. |
| PluginChain.ChainIsolatesFaults | CameraControl/MainWindow.xaml.cs:446-463 | A fault marks only its own config (error, message, ready). Disabled and successful configs are untouched, and the loop goes on. |
| TransferProperties.TagOpsReference | CameraControl/MainWindow.xaml.cs:420-432 | The tagging calls are the comment (when not empty), followed by one keyword per set tag with a non-empty value, from tag 1 to tag 4. |
| TransferProperties.BusyClearedOnEveryExit | CameraControl/MainWindow.xaml.cs:348-366 | Every exit of a non-null event leaves the camera not busy: the early returns, the normal end and the exception handler. |
| TransferProperties.IneligibleLeavesNoTrace | CameraControl/MainWindow.xaml.cs:353-366 | A skipped capture changes only the busy flag and blanks the status. |
| TransferProperties.EligibleIsReported | CameraControl/MainWindow.xaml.cs:367-519 | An eligible capture always ends with the "done" status or an error status. |
| TransferProperties.CatalogedName | CameraControl/MainWindow.xaml.cs:369-395 | A cataloged capture adds one item. Its file name is the template name when original names are off or the image is in SD RAM. It is `GetUniqueFilename` on the original path with `_` after the stem when that path exists and overwriting is off. Otherwise it is the original path in the session folder. Only the extension may be lowered, so for a plain path the name is the same file as the chosen one. |
| TransferProperties.CommitOverwrite | CameraControl/MainWindow.xaml.cs:385-411 | With overwriting on, a target that is the same file as the first name is deleted first. When the target delete, temp file, transfer, copy and backup do not throw, the stage succeeds, and its files are the old ones without the first name's file, plus the destination and the backup, minus the temporary file. |
| TransferProperties.NoSilentOverwrite | CameraControl/MainWindow.xaml.cs:369-411 | Without `AllowOverWrite`, no existing file is lost except the temporary file. A cataloged image's destination did not exist before. |
| TransferProperties.OverwriteReplacesTarget | CameraControl/MainWindow.xaml.cs:385-411 | With `AllowOverWrite`, only the target name and the temporary file can disappear. When no foreign call of the file stage throws, the handler's files are exactly the old ones with the target's old file replaced by the image, plus the backup, minus the temporary file. When no Exiv2 call throws either, the image is cataloged. |
| TransferProperties.TempRemovedWhenCataloged | CameraControl/MainWindow.xaml.cs:404-418 | A cataloged capture leaves no temporary file. |
| TransferProperties.TempLeftWhenCopyFails | CameraControl/MainWindow.xaml.cs:404-418 | When the copy is reached and fails with a fault of `File.Copy` itself (`copyFault`), the temporary file stays on disk, nothing is cataloged and an error is reported. The copy that fails because the target exists is not covered by this lemma. |
| TransferProperties.CatalogOutcome | CameraControl/MainWindow.xaml.cs:438-463 | A cataloged capture appends one item naming its destination, selects it, applies the plugin chain to the default session's configs and stamps the clock. Any other run changes none of these. |
| TransferProperties.TransferEffects | CameraControl/MainWindow.xaml.cs:420-515 | Effects are only appended. Tagging calls are a prefix of the reference calls, and all of them once cataloged. Plugin runs are the chain's log when cataloged and none otherwise. There is exactly one selection of the new item when it is cataloged and shown now, and none otherwise. |
| TransferProperties.PluginsRunOnCatalog | CameraControl/MainWindow.xaml.cs:446-463 | Config `j`'s plugin runs on the new item exactly when the image is cataloged, the config is enabled and its plugin is found. |
| TransferProperties.TaggingOnlyWithWriteComment | CameraControl/MainWindow.xaml.cs:420-432 | Without `WriteComment`, nothing is written into the image. With it, a cataloged image has exactly the reference calls. |
| TransferProperties.PreviewNeedsGates | CameraControl/MainWindow.xaml.cs:473-478 | A cataloged image selects nothing and leaves the timer alone in three cases: `AutoPreview` is off, the multi-camera window is visible or the external viewer is chosen, or only JPG files are previewed and the extension is not `.jpg` in any case. |
| TransferProperties.LateCaptureShownAtOnce | CameraControl/MainWindow.xaml.cs:479-490 | With the gates open, a capture four seconds or more after the last load, or any capture without `DelayImageLoading`, selects its own item exactly once and leaves the timer as it was. |
| TransferProperties.PreviewOutcome | CameraControl/MainWindow.xaml.cs:473-492 | A cataloged image is shown at once exactly when the decision says so. The timer is armed exactly when the preview is deferred or was already armed. The clock is stamped in every case. |
| TransferProperties.TimerShowsLatestItem | CameraControl/MainWindow.xaml.cs:227-231 | After a cataloged capture, the timer firing shows that capture's item and disarms the timer. |
| TransferProperties.DeferredShowsNothing | CameraControl/MainWindow.xaml.cs:481-486 | A deferred preview shows nothing, stamps the clock and arms the timer. |
| TransferProperties.TimerTakesOver | CameraControl/MainWindow.xaml.cs:481-492 | A capture less than four seconds after the last stamp, with `DelayImageLoading` on, is shown only when the timer fires, and then it is this capture's item that is shown. |
| TransferProperties.BurstCoalesces | CameraControl/MainWindow.xaml.cs:473-492 | Two cataloged captures less than four seconds apart, where the first one is itself deferred (it came less than four seconds after the previous load, with `DelayImageLoading` on and its gates open) and the second one's gates are open: nothing is shown while they arrive, the timer is armed, and when it fires it shows the second image only. |

## Left out

- The user interface is not modelled: the WPF controls, the progress window, the save-preset dialog and the message boxes. A dialog's answer is a `confirmed` parameter. For the preset dialog, the name typed is the `name` parameter.
- The lock around the handler, `Dispatcher.Invoke` and threads are not modelled. Each handler runs to completion on its own.
- `System.Timers.Timer` mechanics are not modelled. `Stop()`/`Start()` arm the timer, and `SelectionTimerElapsed` is its firing.
- `DateTime.Now` is the parameter `now`, in milliseconds, here and in the constructor.
- `Thread.Sleep(250)` in the batches is a `Paused` event.
- `GC.Collect` and logging are not modelled: they do not change what the window computes.
- The two deletes of the temporary file (lines 407 and 418) cannot fail in the model; only the overwrite delete at line 387 has a fault (`deleteFault`).
- `Directory.CreateDirectory` (lines 397-400) is not modelled, because directories are not part of the file-system model.
- `session.ExternalData.FileName` (lines 434-435) is not modelled: it is a field of an object outside the window.
- `_selectedItem.AddTemplates` (line 442) is not modelled, because its body is outside the window and the model has no state for templates.
- `ServiceProvider.Analytics` is not modelled.
- `LoadProperties` in the handler is not modelled as a failure point. Its `NoDownload` is an input of the capture, and it cannot fail in the model.
- The balloon and the sound cannot fail in the model.
- The window commands (`ExecuteCommand`) cannot fail in the model.
- `GetNextFileName`, `GetUniqueFilename`, `CopyBackUp`, the camera's `TransferFile` and `Path.GetTempFileName` are outcomes in `Foreign`. Their bodies are not part of this model.
- `session.AddFile` (line 440) is modelled as appending a fresh `FileItem(dest, backup, series)` to the session's items. Its body is not part of this model.
- `CameraPreset.Set` and `Verify` are given by their outcome per camera (`faults`).
- `CameraPreset.Get` is given by the values it reads (`captured`).
- The outer `try`/`catch` of the preset batches is not modelled. Nothing in the model inside it, other than the per-camera calls, can throw.
- `ServiceProvider.Settings.Save()` (lines 752 and 947) is not modelled, nor are its faults: saving to disk is outside the model.
- `ToLower` is modelled as invariant ASCII lower case. Culture-specific mappings are not modelled, including the Turkish one that maps `I` to a dotless `ı`, so under tr-TR `.TIF` would not become `.tif` in the program.
- `DisplayName` is compared ordinally (`StrLess`). The default culture-aware string comparison of `ThenBy` is not modelled.
- Paths: only `\`-separated relative or absolute paths without a drive-root special case are modelled. The `/` separator and .NET's root rules are left out. For a file at a drive root, such as `D:\IMG.JPG`, `Path.GetDirectoryName` gives `D:\`, so line 380 passes `D:\\IMG_` to `GetUniqueFilename`. The model's `DirName` gives `D:` and passes `D:\IMG_`, and `CatalogedName` is stated in terms of that argument.
- Plugin configs are values in a sequence field of the default session. The model does not capture that the configs are shared objects which other parts of the program also see.
- The plugin registry lookup is `pluginRun(k)` by config position, not by type.
- Window.MainWindow.RunPlugins: `GetAutoExportPlugin` (line 450) is called outside the per-plugin `try`, but the model assumes it never throws. A missing plugin is the null result `NotRegistered`. A throwing lookup in the program would leave the loop, skip the remaining plugins and reach the catch at lines 513-516. Every plugin fault in the model is caught per config, so `RunPlugins`, `PluginChain.ChainIsolatesFaults` and `TransferProperties.PluginsRunOnCatalog` say the loop goes on after any fault.
- Window.MainWindow.SortCameras: the `NullReferenceException` that a null camera raises in `LoadProperties` is returned as a fault instead of propagating out of the method.
- `LoadProperties()` refreshing the names is not modelled: `DisplayName` and `SortOrder` are fixed for each camera.
- The temporary file is deleted only on the success path, after the copy and the backup (lines 404-418). `TempLeftWhenCopyFails` states that a failing copy leaves it on disk.
- `DeletePreset` (lines 220-225) and the other command and click handlers of the window are outside the core this model covers.
