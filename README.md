# Object detection camera: the detection filter and the preview orientation

A Dafny model of the two pieces of logic in an iOS camera app that draws object-detection boxes
over a live preview.

* **The detection filter** (`ObjectDetection`). When a Vision request finishes, the
  `ObjectDetectionManager` drops the batch if the request failed. Otherwise it casts the
  results to recognized-object observations; a failed cast gives an empty batch. It skips
  observations without labels. It keeps an observation only when its top label,
  lower-cased, is one of `car`, `house`, `helicopter`, `airplane`, `person`, `t-shirt`, `hat`
  and `shoe`. It turns each kept observation into a `Detection` made of the label's own text,
  its confidence and the observation's bounding box. Then it replaces its published
  `detections` list with the result. The manager is a class with a `detections` field. The
  method `VisionRequestDidComplete` keeps the source's loop, which appends to a local list,
  and is proved against the specification function `Filter`. Lemmas about `Filter` state
  what the output is: the kept observations' detections, one each, in input order.
* **The preview orientation** (`CameraPreview`). `currentVideoOrientation()` maps the device
  orientation to the capture connection's video orientation. The contract is that the home
  button stays on the same side. UIKit names a landscape device orientation after the side
  opposite the home button (`landscapeLeft` has it on the right), and AVFoundation names a
  landscape video orientation after the side the home button is on, so the two landscape
  cases swap. Every orientation with no home-button side (flat, unknown, added by a later
  system) falls back to portrait.

Supporting modules: `Optional` (Swift optionals and `as?`) and `Strings` (ASCII case mapping).

## Model

| member | source | states |
|---|---|---|
| `ObjectDetection.ObjectDetectionManager.constructor` | ObjectDetectionManager.swift:7 | the published list starts empty |
| `ObjectDetection.ObjectDetectionManager.VisionRequestDidComplete` | ObjectDetectionManager.swift:106-130 | a failed request leaves `detections` unchanged; otherwise `detections` becomes exactly `Published(results)`, whatever it held before |
| `ObjectDetection.AsRecognizedObjects` | ObjectDetectionManager.swift:113 | the cast succeeds exactly when results are present and every element is a recognized-object observation, and then yields those observations in order |
| `ObjectDetection.TopLabel` | ObjectDetectionManager.swift:115 | `labels.first`: present exactly when there is a label, and then it is the first one |
| `ObjectDetection.IsValidLabel` | ObjectDetectionManager.swift:117-118 | the lower-cased identifier is one of the eight classes listed at line 117 (the constant `ValidLabels`); each class passes as written, and a passing identifier is as long as some class name |
| `ObjectDetection.Kept` | ObjectDetectionManager.swift:115-118 | an observation is kept exactly when `labels.first` exists and passes the allow-list test |
| `ObjectDetection.DetectionOf` | ObjectDetectionManager.swift:119-123 | the detection carries the top label's own text and confidence and the observation's box, all unchanged |
| `ObjectDetection.Filter` | ObjectDetectionManager.swift:114-126 | the output is no longer than the input, and every published label passes the allow-list test |
| `ObjectDetection.Published` | ObjectDetectionManager.swift:112-128 | a failed cast publishes the empty list; a successful one publishes exactly `Filter` of the cast observations (so the lemmas about `Filter` apply), hence at most one detection per result, each with an allowed label |
| `ObjectDetection.KeptIndicesSound` | ObjectDetectionManager.swift:115-118 | every listed position is a valid index of a kept observation |
| `ObjectDetection.KeptIndicesIncreasing` | ObjectDetectionManager.swift:114 | the kept positions strictly increase, so kept observations stay in input order |
| `ObjectDetection.KeptIndicesComplete` | ObjectDetectionManager.swift:114-118 | no kept observation is missed |
| `ObjectDetection.FilterIsKeptObservations` | ObjectDetectionManager.swift:114-125 | the k-th detection is the detection of the k-th kept observation, and there are as many detections as kept observations |
| `ObjectDetection.FilterAppend` | ObjectDetectionManager.swift:114-126 | filtering a concatenation is the concatenation of the filtered parts |
| `ObjectDetection.FilterSingle` | ObjectDetectionManager.swift:115-124 | one observation yields its detection when kept, and nothing otherwise |
| `ObjectDetection.RejectedContributesNothing` | ObjectDetectionManager.swift:115-118 | an observation with no labels, or with a top label outside the allow-list, can be removed without changing the output |
| `ObjectDetection.KeptContributesItsDetection` | ObjectDetectionManager.swift:118-124 | a kept observation contributes exactly its own detection, at its own place |
| `ObjectDetection.OnlyTopLabelMatters` | ObjectDetectionManager.swift:115-122 | observations that agree on top label and box are filtered alike; later labels are never consulted |
| `ObjectDetection.ValidLabelsAreLowercase` | ObjectDetectionManager.swift:117 | every allow-list entry is already lower case |
| `ObjectDetection.ValidLabelsAreFixedPoints` | ObjectDetectionManager.swift:117-118 | lower-casing leaves every allow-list entry unchanged |
| `ObjectDetection.MatchIgnoresCase` | ObjectDetectionManager.swift:117-118 | an identifier passes exactly when it spells an allow-list entry with any mix of capital and small letters |
| `ObjectDetection.UppercaseSpellingKept` | ObjectDetectionManager.swift:117-118 | the all-capitals spelling of each allow-list entry passes |
| `ObjectDetection.KeepsOriginalSpelling` | ObjectDetectionManager.swift:115-123 | a top label `Car` is published as `Car`, not `car`, with its confidence and the box; a rejected top label drops the observation even when a later label would pass |
| `ObjectDetection.NonObjectResultsPublishNothing` | ObjectDetectionManager.swift:112-113 | missing results, or results holding any other kind of observation, publish the empty list |
| `Strings.Lower` | ObjectDetectionManager.swift:118 | one character of `lowercased()`: a capital becomes the small letter at the fixed ASCII offset, any other character is unchanged, and no capital comes out |
| `Strings.Lowercased` | ObjectDetectionManager.swift:118 | same length; each capital becomes its own small letter, every other character is unchanged, so no capital is left |
| `Strings.SameLowercase` | ObjectDetectionManager.swift:118 | two strings lower-case alike exactly when they have the same length and agree character by character up to case (equal, or a capital and its small letter) |
| `Strings.LowercaseFixedPoint` | ObjectDetectionManager.swift:117-118 | a string without capitals is its own lower-case form and is recovered from its upper-case form |
| `CameraPreview.CurrentVideoOrientation` | CameraPreviewView.swift:40-54 | the video orientation keeps the device's home-button side; an orientation without one gives portrait; the output is landscape exactly when the input is |
| `CameraPreview.LandscapeSwapped` | CameraPreviewView.swift:43-48 | landscape left gives landscape right and the reverse; upside-down is passed through |
| `CameraPreview.FallsBackToPortrait` | CameraPreviewView.swift:49-52 | portrait, unknown, face up, face down and any unlisted case give portrait |
| `CameraPreview.OnlyPortraitIsShared` | CameraPreviewView.swift:42-53 | each non-portrait video orientation comes from exactly one device orientation |

## Left out

- Capture-session configuration, start and stop (ObjectDetectionManager.swift:25-80): calls into AVFoundation; start and stop also run on a background queue, which is concurrency rather than sequential logic.
- Vision and Core ML setup and per-frame dispatch (ObjectDetectionManager.swift:85-101, 136-149): model loading and inference happen inside the vendor framework.
- The hop to the main queue (ObjectDetectionManager.swift:111): the closure's body is modelled as a call that runs at once. Interleaving of several pending closures is not modelled. The request's results are a parameter of that call.
- The request's error is a flag: its value is only logged.
- Strings.Lowercased: models `lowercased()` on ASCII letters only. Unicode case mapping, for example of accented capitals or characters whose lower-case form is longer, is not modelled.
- Confidence and bounding box are reals that are only copied. Their floating-point nature and range are not modelled.
- `CameraPreview.CurrentVideoOrientation` takes the device orientation as an argument instead of reading `UIDevice.current`. The UIKit view and layer construction around it (CameraPreviewView.swift:7-37) is not modelled.
- `print` logging throughout.
- DetectionBoxView.swift (floating-point geometry for SwiftUI drawing) and ObjectDetectionApp.swift (scene-phase wiring) are not part of this model.
- The `Detection` type is not among the source files. Its fields are taken from its construction site (ObjectDetectionManager.swift:119-123). The field `label` is named `labelName` because `label` is a Dafny keyword.
