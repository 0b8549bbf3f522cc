/** The orientation the camera preview connection is given, chosen from how the device is held. */
module CameraPreview {
  import opened Optional

  /**
   * `UIDeviceOrientation`: the named cases, and any case a later system adds, kept with its raw value.
   */
  datatype DeviceOrientation =
    | Unknown
    | Portrait
    | PortraitUpsideDown
    | LandscapeLeft
    | LandscapeRight
    | FaceUp
    | FaceDown
    | Unlisted(rawValue: int)
  {
    predicate IsLandscape() { LandscapeLeft? || LandscapeRight? }
  }

  /** `AVCaptureVideoOrientation`. */
  datatype VideoOrientation = Portrait | PortraitUpsideDown | LandscapeRight | LandscapeLeft
  {
    predicate IsLandscape() { LandscapeRight? || LandscapeLeft? }
  }

  /** Where the home button is, seen by a user facing the screen. */
  datatype Side = Bottom | Top | Left | Right

  /**
   * The home-button side that UIKit documents for each device orientation; a device lying flat,
   * or in an unknown or unlisted orientation, has none.
   */
  function DeviceHomeButton(d: DeviceOrientation): Option<Side>
  {
    match d
    case Portrait => Some(Bottom)
    case PortraitUpsideDown => Some(Top)
    case LandscapeLeft => Some(Right)
    case LandscapeRight => Some(Left)
    case _ => None
  }

  /** The home-button side that AVFoundation documents for each video orientation. */
  function VideoHomeButton(v: VideoOrientation): Side
  {
    match v
    case Portrait => Bottom
    case PortraitUpsideDown => Top
    case LandscapeRight => Right
    case LandscapeLeft => Left
  }

  /**
   * `currentVideoOrientation()`, with the device orientation passed in: the video keeps the home
   * button where the device has it (which is why the two landscape names swap), and any
   * orientation without a home-button side falls back to portrait.
   */
  function CurrentVideoOrientation(device: DeviceOrientation): (r: VideoOrientation)
    ensures DeviceHomeButton(device).Some? ==> VideoHomeButton(r) == DeviceHomeButton(device).value
    ensures DeviceHomeButton(device).None? ==> r == VideoOrientation.Portrait
    ensures r.IsLandscape() <==> device.IsLandscape()
  {
    match device
    case LandscapeLeft => VideoOrientation.LandscapeRight
    case LandscapeRight => VideoOrientation.LandscapeLeft
    case PortraitUpsideDown => VideoOrientation.PortraitUpsideDown
    case Portrait | Unknown | FaceUp | FaceDown => VideoOrientation.Portrait
    case Unlisted(_) => VideoOrientation.Portrait
  }

  /** The two landscape cases are exchanged; upside-down portrait is passed through. */
  lemma LandscapeSwapped()
    ensures CurrentVideoOrientation(DeviceOrientation.LandscapeLeft) == VideoOrientation.LandscapeRight
    ensures CurrentVideoOrientation(DeviceOrientation.LandscapeRight) == VideoOrientation.LandscapeLeft
    ensures CurrentVideoOrientation(DeviceOrientation.PortraitUpsideDown) == VideoOrientation.PortraitUpsideDown
  {
  }

  /** Portrait, unknown, face-up, face-down and every unlisted case give portrait. */
  lemma FallsBackToPortrait(device: DeviceOrientation)
    requires device.Portrait? || device.Unknown? || device.FaceUp? || device.FaceDown? || device.Unlisted?
    ensures CurrentVideoOrientation(device) == VideoOrientation.Portrait
  {
  }

  /** Each video orientation other than portrait comes from exactly one device orientation. */
  lemma OnlyPortraitIsShared(d: DeviceOrientation, e: DeviceOrientation)
    requires CurrentVideoOrientation(d) == CurrentVideoOrientation(e) != VideoOrientation.Portrait
    ensures d == e
  {
  }
}
