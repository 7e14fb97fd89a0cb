# LaneBot view controller, modelled in Dafny

LaneBot is an iOS camera app. It throttles live camera frames, posts them to a
remote detection service, and shows the returned annotated image and alert
strings. The alerts appear on a banner label and can trigger one of two sound
cues. All of this logic sits in `ViewController`. This project models its
decision logic:

- **Frame throttle** (`shouldSendFrame`). A frame is forwarded only when
  strictly more than 0.5 s have passed since the last forwarded frame.
- **Alert banner and cue choice** (`updateAlertBubble`). An empty alert list
  clears and hides the label. Otherwise the label shows the alerts one per line
  on a red tint. The alerts are then scanned once, in list order. The first
  alert that names a direction or a red traffic light decides the cue. Within
  that alert the direction test comes first (`alert`), then the red-light test
  (`red`).
- **Playback state machine** (`playSound` and the two player delegate
  callbacks). An `isAlertSoundPlaying` flag keeps two cues from playing at
  once.
- **Reply acceptance** in `sendFrameToPython`. A reply is used only when every
  decoding step succeeds; otherwise the completion handler is called with
  `nil`.

Modules follow those components:

- `Text`: substring containment, joining and splitting lines.
- `Throttle`: the throttle rule over integer time.
- `Playback`: the sound state machine on values.
- `Alerts`: cue choice and the banner label record.
- `Detection`: the request and the reply checks.
- `LaneBot`: the `ViewController` class itself. Its fields stand for the
  controller's state: `lastFrameSent`, `isAlertSoundPlaying`, `audioPlayer`,
  `alertLabel` and the image view's image. Its methods change those fields. Each
  method's postcondition ties the new state to the pure functions of the other
  modules, and the properties are proved about those functions.

The following are parameters, and the model never computes them:

- the clock (integer milliseconds);
- the camera sample buffer;
- the server's reply bytes;
- whether a sound file is found and loads;
- the platform codecs (JPEG, base64, JSON parsing, image decoding).

The `Codecs` record holds the codecs as functions that may fail.

Notes on how the code behaves:

- Being more than 0.5 s after an earlier forwarded frame is not enough for a
  frame to be forwarded: only the gap to the most recent forwarded frame
  counts. `Throttle.AcceptedAfter` states this, and
  `Throttle.LaterFrameCanStillBeDropped` shows a frame at 600 ms being dropped
  although it is more than 0.5 s after the frame forwarded at 0 ms.
- The code never looks at the HTTP status: the `response` argument at
  LaneBotWeHack/ViewController.swift:153 is unused. Any reply whose body
  decodes is used.
- `sendFrameToPython` only ever calls its completion handler with `nil`. It
  shows a usable reply itself, on the main queue. So the image-setting branch of
  the closure in `captureOutput` (LaneBotWeHack/ViewController.swift:69-74) can
  never run. In the model, the image changes only through `SendFrameToPython`.
- In `captureOutput`, a sample buffer without a pixel buffer or a CGImage is
  dropped before the throttle is asked, so it does not use up the half-second
  slot. A frame whose JPEG encoding fails does use it up, because encoding
  happens after the throttle has accepted the frame.

## Model

| member | source | states |
|---|---|---|
| `Text.Contains` | LaneBotWeHack/ViewController.swift:101-104 | the keyword test: `sub` is a prefix of the alert or of one of its suffixes; it can hold only when the keyword is no longer than the alert |
| `Text.ContainsIff` | LaneBotWeHack/ViewController.swift:101-104 | the keyword test holds exactly when the keyword occurs at some index of the alert (both directions) |
| `Text.ContainsAt` | LaneBotWeHack/ViewController.swift:101-104 | a keyword found at a given index makes the keyword test succeed |
| `Text.JoinLines` | LaneBotWeHack/ViewController.swift:97 | the alerts joined with `"\n"` between neighbours, `""` for none; the text starts with the first alert, and a newline follows it when there are more |
| `Text.SplitLines` | LaneBotWeHack/ViewController.swift:97 | cutting banner text at newlines yields at least one line, and no line holds a newline |
| `Text.SplitJoin` | LaneBotWeHack/ViewController.swift:97 | joining alerts with `"\n"` and cutting at newlines gives back exactly the alerts, when none holds a newline |
| `Throttle.Accepts` | LaneBotWeHack/ViewController.swift:81 | a frame at `now` is forwarded iff nothing was forwarded yet (distant past) or `now - last > 500` |
| `Throttle.Next` | LaneBotWeHack/ViewController.swift:81-82 | the recorded time becomes `now` when the frame is forwarded and stays otherwise |
| `Throttle.Decisions` | LaneBotWeHack/ViewController.swift:79-86 | over a series of frames the throttle makes exactly one decision per frame |
| `Throttle.FirstFrameAccepted` | LaneBotWeHack/ViewController.swift:23 | starting from the distant past, the first frame is always forwarded |
| `Throttle.FirstAcceptedAfter` | LaneBotWeHack/ViewController.swift:81-82 | until the next forwarded frame, a frame is forwarded iff it comes more than 500 ms after the last forwarded one |
| `Throttle.AcceptedAfter` | LaneBotWeHack/ViewController.swift:79-86 | of two neighbouring forwarded frames, the later is forwarded exactly because it is more than 500 ms after the earlier |
| `Throttle.AcceptedSpaced` | LaneBotWeHack/ViewController.swift:79-86 | any two forwarded frames are more than 500 ms apart, in timestamp order, even when clock readings are not monotonic |
| `Throttle.DroppedWithinInterval` | LaneBotWeHack/ViewController.swift:79-86 | after a forwarded frame, every later frame within 500 ms of it is dropped |
| `Throttle.LaterFrameCanStillBeDropped` | LaneBotWeHack/ViewController.swift:81-82 | frames at 0, 501 and 600 ms are forwarded, forwarded, dropped: being more than 500 ms after an older forwarded frame is not enough |
| `Playback.Step` | LaneBotWeHack/ViewController.swift:111-137 | one event's effect: a request while playing, or for a missing file, changes nothing; a load installs the player and sets the flag; a throw or either callback clears the flag |
| `Playback.StepSpec` | LaneBotWeHack/ViewController.swift:111-137 | after an event the flag is set iff a playback started or a request met a cue already playing; the player is replaced only when a playback starts |
| `Playback.StepConsistent` | LaneBotWeHack/ViewController.swift:119-123 | the flag is set only while the controller holds a player, and every event keeps this so; the class methods keep it as `Valid()` |
| `Playback.Started` | LaneBotWeHack/ViewController.swift:111-137 | over a series of sound events there is exactly one started-or-not answer per event |
| `Playback.BlockedWhilePlaying` | LaneBotWeHack/ViewController.swift:112 | while a cue plays, no playback starts before a finished or decode-error callback |
| `Playback.NoOverlap` | LaneBotWeHack/ViewController.swift:111-137 | between any two playbacks that start there is a finished or decode-error callback |
| `Alerts.CueName` | LaneBotWeHack/ViewController.swift:102-105 | the resource looked up is `alert` exactly for the directional cue and `red` exactly for the red-light cue |
| `Alerts.IsDirectional` | LaneBotWeHack/ViewController.swift:101 | the directional keyword test: the alert contains `front`, `left` or `right` |
| `Alerts.IsRedLight` | LaneBotWeHack/ViewController.swift:104 | the red-light keyword test: the alert contains `Red traffic light` or `🚦` |
| `Alerts.CueFor` | LaneBotWeHack/ViewController.swift:101-107 | the cue one alert asks for: `alert` when directional, else `red` when it names a red light, else none |
| `Alerts.DirectionalWins` | LaneBotWeHack/ViewController.swift:101-107 | one alert asks for the alert cue iff it is directional, for the red cue iff it is not directional but names a red light, and for none otherwise |
| `Alerts.FirstCue` | LaneBotWeHack/ViewController.swift:100-108 | the cue of the first alert, in one pass in list order, that asks for either cue |
| `Alerts.FirstCueAt` | LaneBotWeHack/ViewController.swift:100-108 | the first alert in list order that asks for a cue decides the cue |
| `Alerts.FirstCueNone` | LaneBotWeHack/ViewController.swift:100-108 | no cue is requested exactly when no alert asks for one |
| `Alerts.FirstCueWitness` | LaneBotWeHack/ViewController.swift:100-108 | a requested cue always comes from the first alert that asks for one |
| `Alerts.RedLightAlertExample` | LaneBotWeHack/ViewController.swift:104-106 | the list `["🚦 Red traffic light"]`, which names no direction, requests the `red` cue |
| `Alerts.FrontAlertExample` | LaneBotWeHack/ViewController.swift:101-103 | the list `["car ahead front"]` requests the `alert` cue |
| `Alerts.Banner` | LaneBotWeHack/ViewController.swift:90-98 | the label for an alert list: cleared and hidden with its colour kept when empty, else visible with the joined text and the red tint |
| `Alerts.CueRequest` | LaneBotWeHack/ViewController.swift:102-120 | the `playSound(named:)` call for a cue: a play request for its resource name (`alert` or `red`) with the outcome of looking that name up and loading it |
| `Alerts.AlertSound` | LaneBotWeHack/ViewController.swift:100-128 | the sound state after an alert list: unchanged when no alert asks for a cue, else one play request for the chosen cue's resource |
| `Alerts.BannerLines` | LaneBotWeHack/ViewController.swift:96-98 | a non-empty banner is visible and red-tinted, and its text holds the alerts one per line, in order |
| `Alerts.EmptyAlertsQuiet` | LaneBotWeHack/ViewController.swift:90-93 | an empty list sets the text to `""`, hides the label, keeps its background, and requests no sound |
| `Alerts.NonEmptyAlertsShown` | LaneBotWeHack/ViewController.swift:96-98 | a non-empty list makes the label visible, with the joined alerts as text and the 70% red tint as background |
| `Detection.FrameRequest` | LaneBotWeHack/ViewController.swift:141-151 | a request exists iff JPEG encoding succeeds; it is a JSON POST to the fixed endpoint whose body has the single key `image` holding the base64 JPEG |
| `Detection.StringArray` | LaneBotWeHack/ViewController.swift:160 | a JSON array reads as a string list iff every element is a string; the list then holds those strings, in order |
| `Detection.DecodeReply` | LaneBotWeHack/ViewController.swift:154-160 | a reply is usable iff the data exists, parses as an object, has a `processed_image` string, that string decodes from base64, and the bytes decode to an image; the result then carries that image and the reply's alerts |
| `Detection.AlertsField` | LaneBotWeHack/ViewController.swift:160 | a reply's alerts: the `alerts` field read as a string array, or `[]` when it is missing or mistyped |
| `Detection.MissingImageRejected` | LaneBotWeHack/ViewController.swift:156 | a reply without a `processed_image` string is rejected as a whole, never partly used |
| `Detection.AlertsDefault` | LaneBotWeHack/ViewController.swift:160 | alerts are the listed strings when `alerts` is an array of strings, and empty when the field is missing, is not an array, or holds a non-string |
| `LaneBot.AfterReply` | LaneBotWeHack/ViewController.swift:154-169 | the display after a reply: unchanged when unusable, else the reply's image together with the banner and sound its alerts produce |
| `LaneBot.AfterReplySpec` | LaneBotWeHack/ViewController.swift:154-169 | an unusable reply changes nothing on screen or in the speaker; a usable one shows its image, sets the banner for its alerts and moves the sound state by their cue |
| `LaneBot.ViewController.constructor` | LaneBotWeHack/ViewController.swift:20-23 | a new controller has no frame sent yet (distant past), no cue playing and no player; label and image are as the storyboard gives them; the flag-implies-player invariant holds |
| `LaneBot.ViewController.ShouldSendFrame` | LaneBotWeHack/ViewController.swift:79-86 | returns true iff there was no earlier frame or more than 500 ms have passed; on true the time is recorded, on false nothing changes |
| `LaneBot.ViewController.PlaySound` | LaneBotWeHack/ViewController.swift:111-128 | nothing changes while a cue plays or when the file is missing; a successful load sets the flag and installs the new player; a throwing load leaves the flag false |
| `LaneBot.ViewController.AudioPlayerDidFinishPlaying` | LaneBotWeHack/ViewController.swift:130-132 | the flag is false afterwards, whatever it was |
| `LaneBot.ViewController.AudioPlayerDecodeErrorDidOccur` | LaneBotWeHack/ViewController.swift:134-137 | the flag is false afterwards, whatever it was |
| `LaneBot.ViewController.UpdateAlertBubble` | LaneBotWeHack/ViewController.swift:89-109 | the label becomes the banner for the list; at most one cue is requested, the first alert's that asks for one, and the sound state moves by that one request |
| `LaneBot.ViewController.SendFrameToPython` | LaneBotWeHack/ViewController.swift:140-171 | no request and no completion call when JPEG encoding fails; otherwise the completion is called iff the reply is unusable, and a usable reply updates image, banner and sound |
| `LaneBot.ViewController.CaptureOutput` | LaneBotWeHack/ViewController.swift:53-77 | buffers yielding no image leave the throttle untouched; otherwise the throttle decides, and only an accepted frame is sent and can change the screen |

## Left out

- Capture session, device discovery and output setup (`setupCapture`, `setupOutput`): platform plumbing with no decision logic of its own.
- Layer and view setup (`setupLayers`, `viewDidLoad`): UI. `redTintView` is configured once and never shown or hidden afterwards.
- Image conversion, the 90-degree rotation, the 320 x 240 redraw, JPEG at quality 0.8, and base64: foreign CoreImage, UIKit and Foundation calls. They appear only as the `Capture` outcome of a sample buffer and as the failable functions of `Codecs`.
- JSON serialisation of the request body, URL construction, `URLSession` and the HTTP exchange: network I/O. The request is a value and the reply is the `Option<Bytes>` parameter (`None` when the transport delivered nothing). Each frame's request and reply are one sequential call.
- `DispatchQueue` hops and concurrent in-flight requests: replies are applied in the order of the calls, so the model does not capture out-of-order replies overwriting one another.
- `Date()` and floating-point `TimeInterval`: time is an integer number of milliseconds, and "distant past" is `None`, which every reading is more than 0.5 s after.
- Text.Contains: compares Unicode scalar values one by one. Swift's `String.contains` compares extended grapheme clusters under canonical equivalence, which the model does not capture.
- `AVAudioPlayer.play()`: the code ignores its Boolean result. The model has no event for `play()` failing; such a player never calls back, and in the model that is a series with no callback, which leaves the flag set.
- Console logging (`print`) in every error branch.
- Unused fields (`bufferSize`, `inferenceTime`, `requests`, `detectionLayer`, `inferenceTimeLayer`, `inferenceTimeBounds`) and fields used only by the left-out setup code (`session`, `previewLayer`, `rootLayer`, `redTintView`).
