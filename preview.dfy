/** The preview decision the capture handler takes once the new item is
    cataloged (lines 473-492). */
module Preview {
  import opened Text
  import opened Paths
  import opened Model

  /** Captures closer together than this, with `DelayImageLoading` set,
      defer the preview to the selection timer. */
  const QuietIntervalMs: int := 4000

  /** Show the new item now, leave its display to the timer, or show nothing. */
  datatype Decision = NoPreview | SelectNow | Deferred

  /** Lines 478-479: with `AutoPreviewJpgOnly` only JPG files are previewed. */
  predicate JpgRule(app: AppSettings, file: string) {
    (LowerStr(Ext(file)) == ".jpg" && app.autoPreviewJpgOnly) || !app.autoPreviewJpgOnly
  }

  /** Lines 475-479: every gate that must hold before anything is selected. */
  predicate Gates(app: AppSettings, screen: Screen, file: string) {
    app.autoPreview && !screen.multipleCameraWindowVisible && !app.useExternalViewer && JpgRule(app, file)
  }

  /** Lines 481-482: the timer takes over when loading is delayed and the
      last load is less than four seconds ago. */
  predicate Throttled(app: AppSettings, elapsedMs: int) {
    app.delayImageLoading && elapsedMs < QuietIntervalMs
  }

  function Decide(app: AppSettings, screen: Screen, file: string, elapsedMs: int): Decision {
    if !Gates(app, screen, file) then NoPreview
    else if Throttled(app, elapsedMs) then Deferred
    else SelectNow
  }

  /** The three outcomes and exactly when each is taken. */
  lemma DecideCases(app: AppSettings, screen: Screen, file: string, elapsedMs: int)
    ensures Decide(app, screen, file, elapsedMs) == NoPreview <==> !Gates(app, screen, file)
    ensures Decide(app, screen, file, elapsedMs) == Deferred <==>
      Gates(app, screen, file) && app.delayImageLoading && elapsedMs < QuietIntervalMs
    ensures Decide(app, screen, file, elapsedMs) == SelectNow <==>
      Gates(app, screen, file) && (!app.delayImageLoading || elapsedMs >= QuietIntervalMs)
  {
  }

  /** The JPG-only rule holds for a file exactly when the rule is off or
      the file's extension is ".jpg" in any case. */
  lemma JpgRuleCases(app: AppSettings, file: string)
    ensures JpgRule(app, file) <==> !app.autoPreviewJpgOnly || LowerStr(Ext(file)) == ".jpg"
  {
  }
}
