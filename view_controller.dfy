/**
 * The camera view controller: the state it keeps between callbacks and the
 * decisions it takes on each frame, each reply and each sound callback.
 * Callbacks are modelled as sequential calls; the clock reading, the captured
 * frame, the server's reply and the bundle's lookup outcomes are parameters.
 */
module LaneBot {
  import opened Wrappers
  import opened Throttle
  import opened Playback
  import opened Alerts
  import opened Detection

  /** How far a camera sample buffer gets before the throttle is asked. */
  datatype Capture =
    | NoPixelBuffer
    | NoCgImage
    | Frame(resized: Image)  // rotated by 90 degrees and redrawn at 320 x 240

  /** What is on screen and in the speaker: the displayed image, the alert label and the sound state. */
  datatype Display = Display(image: Option<Image>, banner: Label, sound: Sound)

  /** The display after a reply: updated only when the reply is usable, left alone otherwise. */
  function AfterReply(d: Display, data: Option<Bytes>, codecs: Codecs, bundle: string -> AssetLookup): Display
  {
    match DecodeReply(data, codecs)
    case None => d
    case Some(detected) =>
      Display(Some(detected.image), Banner(d.banner, detected.alerts), AlertSound(d.sound, detected.alerts, bundle))
  }

  /** A usable reply shows its image and alerts; any failure changes nothing on screen or in the speaker. */
  lemma AfterReplySpec(d: Display, data: Option<Bytes>, codecs: Codecs, bundle: string -> AssetLookup)
    ensures DecodeReply(data, codecs).None? ==> AfterReply(d, data, codecs, bundle) == d
    ensures DecodeReply(data, codecs).Some? ==>
      AfterReply(d, data, codecs, bundle).image == Some(DecodeReply(data, codecs).value.image)
    ensures DecodeReply(data, codecs).Some? ==>
      AfterReply(d, data, codecs, bundle).banner == Banner(d.banner, DecodeReply(data, codecs).value.alerts)
    ensures DecodeReply(data, codecs).Some? ==>
      AfterReply(d, data, codecs, bundle).sound == AlertSound(d.sound, DecodeReply(data, codecs).value.alerts, bundle)
  {
  }

  class ViewController {
    /** When the last frame was forwarded, in milliseconds; `None` is the distant past. */
    var lastFrameSent: Option<int>
    var isAlertSoundPlaying: bool
    var audioPlayer: Option<AudioPlayer>
    var alertLabel: Label
    /** The image view's image. */
    var displayedImage: Option<Image>

    function SoundState(): Sound
      reads this
    {
      Sound(isAlertSoundPlaying, audioPlayer)
    }

    /** The controller's invariant: the playback flag is set only while a player is installed. */
    ghost predicate Valid()
      reads this
    {
      SoundState().Consistent()
    }

    function Shown(): Display
      reads this
    {
      Display(displayedImage, alertLabel, SoundState())
    }

    /** A fresh controller; the label and the image view start as the storyboard lays them out. */
    constructor (storyboardLabel: Label, storyboardImage: Option<Image>)
      ensures lastFrameSent == None
      ensures !isAlertSoundPlaying && audioPlayer == None
      ensures alertLabel == storyboardLabel && displayedImage == storyboardImage
      ensures Valid()
    {
      lastFrameSent := None;
      isAlertSoundPlaying := false;
      audioPlayer := None;
      alertLabel := storyboardLabel;
      displayedImage := storyboardImage;
    }

    /** Decides whether the frame arriving at `now` is forwarded, and remembers the time if so. */
    method ShouldSendFrame(now: int) returns (send: bool)
      modifies this`lastFrameSent
      ensures send == Accepts(old(lastFrameSent), now)
      ensures lastFrameSent == Next(old(lastFrameSent), now)
    {
      if lastFrameSent.None? || now - lastFrameSent.value > IntervalMs {
        lastFrameSent := Some(now);
        return true;
      }
      return false;
    }

    /** Plays a named cue unless one is already playing; `lookup` is what the bundle yields for the name. */
    method PlaySound(name: string, lookup: AssetLookup)
      requires Valid()
      modifies this`isAlertSoundPlaying, this`audioPlayer
      ensures old(isAlertSoundPlaying) ==> SoundState() == old(SoundState())
      ensures lookup.NotFound? ==> SoundState() == old(SoundState())
      ensures !old(isAlertSoundPlaying) && lookup == Found(true) ==>
        isAlertSoundPlaying && audioPlayer == Some(AudioPlayer(name))
      ensures !old(isAlertSoundPlaying) && lookup == Found(false) ==> !isAlertSoundPlaying && audioPlayer == old(audioPlayer)
      ensures SoundState() == Step(old(SoundState()), Play(name, lookup))
      ensures Valid()
    {
      if isAlertSoundPlaying {
        return;
      }
      match lookup
      case NotFound =>
        return;
      case Found(loads) =>
        if loads {
          audioPlayer := Some(AudioPlayer(name));
          isAlertSoundPlaying := true;
        } else {
          isAlertSoundPlaying := false;
        }
    }

    /** The player's callback when playback ends, successfully or not. */
    method AudioPlayerDidFinishPlaying(successfully: bool)
      requires Valid()
      modifies this`isAlertSoundPlaying
      ensures !isAlertSoundPlaying
      ensures SoundState() == Step(old(SoundState()), DidFinish)
      ensures Valid()
    {
      isAlertSoundPlaying := false;
    }

    /** The player's callback when the sound file cannot be decoded. */
    method AudioPlayerDecodeErrorDidOccur()
      requires Valid()
      modifies this`isAlertSoundPlaying
      ensures !isAlertSoundPlaying
      ensures SoundState() == Step(old(SoundState()), DecodeError)
      ensures Valid()
    {
      isAlertSoundPlaying := false;
    }

    /**
     * Shows the alerts on the label and plays the cue of the first alert that
     * asks for one; `cue` reports which cue was requested, if any.
     */
    method UpdateAlertBubble(alerts: seq<string>, bundle: string -> AssetLookup) returns (cue: Option<Cue>)
      requires Valid()
      modifies this`alertLabel, this`isAlertSoundPlaying, this`audioPlayer
      ensures cue == FirstCue(alerts)
      ensures alertLabel == Banner(old(alertLabel), alerts)
      ensures SoundState() == AlertSound(old(SoundState()), alerts, bundle)
      ensures Valid()
    {
      cue := None;
      if |alerts| == 0 {
        alertLabel := alertLabel.(text := "", hidden := true);
        return;
      }
      alertLabel := alertLabel.(hidden := false);
      alertLabel := alertLabel.(text := Text.JoinLines(alerts));
      alertLabel := alertLabel.(background := AlertTint);

      for i := 0 to |alerts|
        invariant forall j :: 0 <= j < i ==> CueFor(alerts[j]).None?
        invariant cue.None? && SoundState() == old(SoundState())
      {
        var alert := alerts[i];
        if IsDirectional(alert) {
          FirstCueAt(alerts, i);
          PlaySound(CueName(AlertCue), bundle(CueName(AlertCue)));
          cue := Some(AlertCue);
          break;
        } else if IsRedLight(alert) {
          FirstCueAt(alerts, i);
          PlaySound(CueName(RedCue), bundle(CueName(RedCue)));
          cue := Some(RedCue);
          break;
        }
      }
      if cue.None? {
        FirstCueNone(alerts);
      }
    }

    /**
     * Encodes the frame, posts it and handles the reply `data` (`None` when the
     * transport delivered nothing). `completionCalled` tells whether the
     * completion handler was invoked, which only happens, with `nil`, when a
     * posted frame's reply is unusable.
     */
    method SendFrameToPython(image: Image, data: Option<Bytes>, codecs: Codecs, bundle: string -> AssetLookup)
      returns (request: Option<Request>, completionCalled: bool)
      requires Valid()
      modifies this`displayedImage, this`alertLabel, this`isAlertSoundPlaying, this`audioPlayer
      ensures request == FrameRequest(image, codecs)
      ensures completionCalled <==> request.Some? && DecodeReply(data, codecs).None?
      ensures Shown() == if request.Some? then AfterReply(old(Shown()), data, codecs, bundle) else old(Shown())
      ensures Valid()
    {
      request := FrameRequest(image, codecs);
      completionCalled := false;
      if request.None? {
        return;
      }
      var reply := DecodeReply(data, codecs);
      match reply
      case Some(detected) =>
        displayedImage := Some(detected.image);
        var _ := UpdateAlertBubble(detected.alerts, bundle);
      case None =>
        completionCalled := true;
    }

    /**
     * One camera sample buffer arriving at `now`: a buffer that yields no image
     * is ignored before the throttle is asked; otherwise the throttle decides,
     * and an accepted frame is sent. Returns the request that went out, if any.
     */
    method CaptureOutput(now: int, capture: Capture, data: Option<Bytes>, codecs: Codecs, bundle: string -> AssetLookup)
      returns (request: Option<Request>)
      requires Valid()
      modifies this
      ensures lastFrameSent == if capture.Frame? then Next(old(lastFrameSent), now) else old(lastFrameSent)
      ensures request == if capture.Frame? && Accepts(old(lastFrameSent), now)
                         then FrameRequest(capture.resized, codecs) else None
      ensures Shown() == if request.Some? then AfterReply(old(Shown()), data, codecs, bundle) else old(Shown())
      ensures Valid()
    {
      request := None;
      if !capture.Frame? {
        return;
      }
      var send := ShouldSendFrame(now);
      if send {
        var completionCalled;
        request, completionCalled := SendFrameToPython(capture.resized, data, codecs, bundle);
      }
    }
  }
}
