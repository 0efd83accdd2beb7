/** The objects the window works on and updates in place: cameras, photo
    sessions, presets, the settings and the device manager. Only the members
    the window reads or writes are modelled. */
module Devices {
  import opened Model
  import opened CameraOrder

  /** A `PhotoSession`: its name and settings, its config file, the images
      it has cataloged, and its auto-export plugin configs. */
  class PhotoSession {
    const name: string
    const flags: SessionFlags
    const configFile: string
    var items: seq<FileItem>
    var pluginConfigs: seq<PluginConfig>

    constructor (name: string, flags: SessionFlags, configFile: string, pluginConfigs: seq<PluginConfig>)
      ensures this.name == name && this.flags == flags && this.configFile == configFile
      ensures items == [] && this.pluginConfigs == pluginConfigs
    {
      this.name := name;
      this.flags := flags;
      this.configFile := configFile;
      items := [];
      this.pluginConfigs := pluginConfigs;
    }
  }

  /** An `ICameraDevice`: the busy flag the capture handler sets and clears,
      and what it reads from the device and from `LoadProperties()`. */
  class CameraDevice {
    var isBusy: bool
    const captureInSdRam: bool
    const noDownload: bool
    const sortOrder: int
    const displayName: string
    const isConnected: bool
    const attachedSession: PhotoSession?

    constructor (captureInSdRam: bool, noDownload: bool, sortOrder: int, displayName: string,
                 isConnected: bool, attachedSession: PhotoSession?)
      ensures !isBusy
      ensures this.captureInSdRam == captureInSdRam && this.noDownload == noDownload
      ensures this.sortOrder == sortOrder && this.displayName == displayName
      ensures this.isConnected == isConnected && this.attachedSession == attachedSession
    {
      isBusy := false;
      this.captureInSdRam := captureInSdRam;
      this.noDownload := noDownload;
      this.sortOrder := sortOrder;
      this.displayName := displayName;
      this.isConnected := isConnected;
      this.attachedSession := attachedSession;
    }
  }

  /** The key `SortCameras` orders a camera by. A null entry has no key; the
      sort never reaches one (it faults first). */
  function KeyOf(d: CameraDevice?): Key {
    if d == null then Key(0, "") else Key(d.sortOrder, d.displayName)
  }

  /** A `CameraPreset`: its name and the property values `Get` captured. */
  class CameraPreset {
    const name: string
    var values: map<string, string>

    constructor (name: string, values: map<string, string>)
      ensures this.name == name && this.values == values
    {
      this.name := name;
      this.values := values;
    }
  }

  /** `ServiceProvider.Settings`: the sessions, the default one, the presets
      and the application settings the capture handler reads. */
  class Settings {
    var photoSessions: seq<PhotoSession>
    var defaultSession: PhotoSession
    var cameraPresets: seq<CameraPreset>
    const app: AppSettings

    constructor (defaultSession: PhotoSession, app: AppSettings)
      ensures photoSessions == [defaultSession] && this.defaultSession == defaultSession
      ensures cameraPresets == [] && this.app == app
    {
      photoSessions := [defaultSession];
      this.defaultSession := defaultSession;
      cameraPresets := [];
      this.app := app;
    }
  }

  /** `ServiceProvider.DeviceManager`: the connected cameras, in display
      order. An entry may be null. */
  class DeviceManager {
    var connectedDevices: seq<CameraDevice?>

    constructor ()
      ensures connectedDevices == []
    {
      connectedDevices := [];
    }
  }
}
