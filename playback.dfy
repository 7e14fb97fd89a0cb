/**
 * The sound-cue playback state of the view controller: the
 * `isAlertSoundPlaying` flag and the current audio player, and how a play
 * request and the two player callbacks move them. The flag makes playback
 * two-state, Idle (false) and Playing (true): a request made while Playing is
 * dropped, and either callback returns to Idle.
 */
module Playback {
  import opened Wrappers

  /**
   * What happens when a named cue is looked up: the bundled `.wav` file is
   * missing, or it is found and constructing a player from it either works
   * (`loads`) or throws.
   */
  datatype AssetLookup = NotFound | Found(loads: bool)

  /** An audio player created from the bundled file `<resource>.wav`. */
  datatype AudioPlayer = AudioPlayer(resource: string)

  /** The playback flag and the player the controller holds. */
  datatype Sound = Sound(playing: bool, player: Option<AudioPlayer>)
  {
    /** The flag is only ever set together with a player. */
    predicate Consistent()
    {
      playing ==> player.Some?
    }
  }

  /** What the controller is told: a request to play a named cue, or one of the two player callbacks. */
  datatype SoundEvent =
    | Play(name: string, lookup: AssetLookup)
    | DidFinish
    | DecodeError

  /** The request starts a new playback. */
  predicate Starts(s: Sound, e: SoundEvent)
  {
    !s.playing && e.Play? && e.lookup == Found(true)
  }

  /** The state after one event. */
  function Step(s: Sound, e: SoundEvent): Sound
  {
    match e
    case Play(name, lookup) =>
      if s.playing then s
      else (
        match lookup
        case NotFound => s
        case Found(loads) => if loads then Sound(true, Some(AudioPlayer(name))) else s.(playing := false)
      )
    case DidFinish => s.(playing := false)
    case DecodeError => s.(playing := false)
  }

  /**
   * The state machine in one statement: after an event the flag is set exactly
   * when the event started a playback or was a request arriving while one was
   * already under way; a new player replaces the old one only when a playback starts.
   */
  lemma StepSpec(s: Sound, e: SoundEvent)
    ensures Step(s, e).playing <==> Starts(s, e) || (s.playing && e.Play?)
    ensures Step(s, e).player == if Starts(s, e) then Some(AudioPlayer(e.name)) else s.player
  {
  }

  /** Every event keeps the flag consistent with the player. */
  lemma StepConsistent(s: Sound, e: SoundEvent)
    requires s.Consistent()
    ensures Step(s, e).Consistent()
  {
  }

  /** For each event of a series, whether it starts a playback. */
  function Started(s: Sound, events: seq<SoundEvent>): (r: seq<bool>)
    ensures |r| == |events|
    decreases |events|
  {
    if |events| == 0 then []
    else [Starts(s, events[0])] + Started(Step(s, events[0]), events[1..])
  }

  /** While a cue is playing, nothing starts until one of the callbacks has arrived. */
  lemma {:induction false} BlockedWhilePlaying(s: Sound, events: seq<SoundEvent>, j: int)
    requires s.playing
    requires 0 <= j < |events|
    requires Started(s, events)[j]
    ensures exists k :: 0 <= k < j && !events[k].Play?
    decreases j
  {
    if !events[0].Play? {
      assert !events[0].Play?;
    } else {
      assert Step(s, events[0]) == s;
      assert Started(s, events[1..])[j - 1];
      BlockedWhilePlaying(s, events[1..], j - 1);
      var k :| 0 <= k < j - 1 && !events[1..][k].Play?;
      assert !events[k + 1].Play?;
    }
  }

  /**
   * At most one cue plays at a time: between any two playbacks that start there
   * is a finished or decode-error callback.
   */
  lemma {:induction false} NoOverlap(s: Sound, events: seq<SoundEvent>, i: int, j: int)
    requires 0 <= i < j < |events|
    requires Started(s, events)[i] && Started(s, events)[j]
    ensures exists k :: i < k < j && (events[k] == DidFinish || events[k] == DecodeError)
    decreases i
  {
    var rest := events[1..];
    var next := Step(s, events[0]);
    assert Started(next, rest)[j - 1];
    if i == 0 {
      BlockedWhilePlaying(next, rest, j - 1);
      var k :| 0 <= k < j - 1 && !rest[k].Play?;
      assert !events[k + 1].Play?;
    } else {
      assert Started(next, rest)[i - 1];
      NoOverlap(next, rest, i - 1, j - 1);
      var k :| i - 1 < k < j - 1 && (rest[k] == DidFinish || rest[k] == DecodeError);
      assert events[k + 1] == rest[k];
    }
  }
}
