/** The values the capture handler reads and produces. */
module Model {
  import opened Wrappers

  /** A cataloged image (`FileItem`): where it was written, where its
      backup copy went (null when there is none) and the session's series. */
  datatype FileItem = FileItem(fileName: string, backupFileName: Option<string>, series: int)

  /** The `PhotoSession` settings the handler reads. A keyword tag is
      `None` when no tag is selected; an empty value stands for a null or
      empty `Value`. */
  datatype SessionFlags = SessionFlags(
    folder: string,
    useOriginalFilename: bool,
    allowOverWrite: bool,
    lowerCaseExtension: bool,
    backUp: bool,
    downloadOnlyJpg: bool,
    writeComment: bool,
    comment: string,
    tag1: Option<string>,
    tag2: Option<string>,
    tag3: Option<string>,
    tag4: Option<string>,
    series: int)

  /** An `AutoExportPluginConfig`: which plugin, whether it is enabled, and
      the error and ready state the plugin loop writes into it. */
  datatype PluginConfig = PluginConfig(
    pluginType: string, isEnabled: bool, isError: bool, error: string, isRedy: bool)

  /** What happens when the plugin loop reaches an enabled config: the
      plugin runs to completion, throws with a message, or the registry
      has no plugin of that type (the lookup returns null). */
  datatype PluginRun = Executes | Throws(message: string) | NotRegistered

  /** The application settings (`ServiceProvider.Settings`) the handler reads. */
  datatype AppSettings = AppSettings(
    autoPreview: bool,
    autoPreviewJpgOnly: bool,
    delayImageLoading: bool,
    useExternalViewer: bool,
    externalViewerPath: string,
    externalViewerArgs: string,
    minimizeToTrayIcon: bool,
    preview: bool,
    playSound: bool)

  /** Which windows are on screen when the handler runs. */
  datatype Screen = Screen(mainWindowVisible: bool, multipleCameraWindowVisible: bool)

  /** The status-bar message (`StaticHelper.Instance.SystemMessage`). */
  datatype Status = Blank | TransferBegin | TransferDone | TransferError(message: string)

  /** What the handler causes outside its own state, in order: metadata
      written into the image, plugin executions, and commands sent to the
      user interface. */
  datatype Effect =
    | SaveComment(file: string, comment: string)
    | AddKeyword(file: string, keyword: string)
    | PluginExecuted(index: nat, pluginType: string, item: FileItem)
    | BalloonTip(file: string)
    | SelectImage(selected: FileItem)
    | ShowFullScreenTimed
    | RunViewer(program: string, arguments: string)
    | PlayCaptureSound
}
