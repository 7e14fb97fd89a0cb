/**
 * The alert presenter: the banner label the alerts are shown on and the
 * choice of the sound cue an alert list asks for.
 */
module Alerts {
  import opened Wrappers
  import opened Text
  import opened Playback

  /** The two bundled sound cues. */
  datatype Cue = AlertCue | RedCue

  /** The resource name a cue is looked up by (`alert.wav`, `red.wav`). */
  function CueName(c: Cue): (name: string)
    ensures name == "alert" <==> c == AlertCue
    ensures name == "red" <==> c == RedCue
  {
    match c
    case AlertCue => "alert"
    case RedCue => "red"
  }

  /** The alert mentions something in front, to the left or to the right. */
  predicate IsDirectional(alert: string)
  {
    Contains(alert, "front") || Contains(alert, "left") || Contains(alert, "right")
  }

  /** The alert mentions a red traffic light, in words or as the traffic-light emoji. */
  predicate IsRedLight(alert: string)
  {
    Contains(alert, "Red traffic light") || Contains(alert, "🚦")
  }

  /** The cue one alert asks for; the directional test is made first. */
  function CueFor(alert: string): Option<Cue>
  {
    if IsDirectional(alert) then Some(AlertCue)
    else if IsRedLight(alert) then Some(RedCue)
    else None
  }

  /** An alert with both kinds of keyword asks for the alert cue, not the red one. */
  lemma DirectionalWins(alert: string)
    ensures CueFor(alert) == Some(AlertCue) <==> IsDirectional(alert)
    ensures CueFor(alert) == Some(RedCue) <==> !IsDirectional(alert) && IsRedLight(alert)
    ensures CueFor(alert) == None <==> !IsDirectional(alert) && !IsRedLight(alert)
  {
  }

  /** The cue of the first alert, in list order, that asks for one. */
  function FirstCue(alerts: seq<string>): Option<Cue>
  {
    if |alerts| == 0 then None
    else if CueFor(alerts[0]).Some? then CueFor(alerts[0])
    else FirstCue(alerts[1..])
  }

  /** `k` is the position of the first alert that asks for a cue. */
  ghost predicate FirstMatchAt(alerts: seq<string>, k: int)
  {
    0 <= k < |alerts| && CueFor(alerts[k]).Some? &&
    forall j :: 0 <= j < k ==> CueFor(alerts[j]).None?
  }

  /** The first alert that asks for a cue decides the cue. */
  lemma {:induction false} FirstCueAt(alerts: seq<string>, k: int)
    requires FirstMatchAt(alerts, k)
    ensures FirstCue(alerts) == CueFor(alerts[k])
  {
    if k > 0 {
      assert CueFor(alerts[0]).None?;
      assert FirstMatchAt(alerts[1..], k - 1);
      FirstCueAt(alerts[1..], k - 1);
    }
  }

  /** No cue is chosen exactly when no alert asks for one. */
  lemma {:induction false} FirstCueNone(alerts: seq<string>)
    ensures FirstCue(alerts).None? <==> forall k :: 0 <= k < |alerts| ==> CueFor(alerts[k]).None?
  {
    if |alerts| > 0 {
      FirstCueNone(alerts[1..]);
      if CueFor(alerts[0]).None? {
        assert forall k :: 1 <= k < |alerts| ==> alerts[k] == alerts[1..][k - 1];
      }
    }
  }

  /** A chosen cue always comes from the first alert that asks for one. */
  lemma {:induction false} FirstCueWitness(alerts: seq<string>)
    requires FirstCue(alerts).Some?
    ensures exists k :: FirstMatchAt(alerts, k) && FirstCue(alerts) == CueFor(alerts[k])
  {
    if CueFor(alerts[0]).Some? {
      assert FirstMatchAt(alerts, 0);
    } else {
      FirstCueWitness(alerts[1..]);
      var k :| FirstMatchAt(alerts[1..], k) && FirstCue(alerts[1..]) == CueFor(alerts[1..][k]);
      assert FirstMatchAt(alerts, k + 1);
    }
  }

  /** A single frontal alert asks for the alert cue. */
  lemma FrontAlertExample()
    ensures FirstCue(["car ahead front"]) == Some(AlertCue)
  {
    ContainsAt("car ahead front", "front", 10);
  }

  /** A single red-light alert, with no directional keyword, asks for the red cue. */
  lemma RedLightAlertExample()
    ensures FirstCue(["🚦 Red traffic light"]) == Some(RedCue)
  {
    var a := "🚦 Red traffic light";
    ContainsAt(a, "🚦", 0);
    forall i | 0 <= i < |a| - 1
      ensures a[i] != 'f' || a[i + 1] != 'r'
      ensures a[i] != 'l' || a[i + 1] != 'e'
      ensures a[i] != 'r' || a[i + 1] != 'i'
    {
    }
    NoLeadingPair(a, "front");
    NoLeadingPair(a, "left");
    NoLeadingPair(a, "right");
  }

  /** The colour the label is painted with; the storyboard's initial colour is kept abstract. */
  datatype Color = StoryboardColor | RedTint(alphaPercent: nat)

  /** The banner background: red at 70% opacity. */
  const AlertTint: Color := RedTint(70)

  /** The fields of the alert label the controller sets. */
  datatype Label = Label(text: string, hidden: bool, background: Color)

  /**
   * The label after showing an alert list: an empty list clears and hides it and
   * leaves the colour alone; otherwise it is shown, tinted, with one alert per line.
   */
  function Banner(current: Label, alerts: seq<string>): Label
  {
    if |alerts| == 0 then current.(text := "", hidden := true)
    else Label(JoinLines(alerts), false, AlertTint)
  }

  /** The banner's text holds the alerts, one per line and in order. */
  lemma BannerLines(current: Label, alerts: seq<string>)
    requires |alerts| > 0
    requires forall k :: 0 <= k < |alerts| ==> '\n' !in alerts[k]
    ensures !Banner(current, alerts).hidden && Banner(current, alerts).background == AlertTint
    ensures SplitLines(Banner(current, alerts).text) == alerts
  {
    SplitJoin(alerts);
  }

  /**
   * The `playSound(named:)` call for a cue: a play request for the cue's resource name,
   * with the outcome `bundle` gives when that name is looked up and loaded.
   */
  function CueRequest(c: Cue, bundle: string -> AssetLookup): SoundEvent
  {
    Play(CueName(c), bundle(CueName(c)))
  }

  /** The sound state after showing an alert list: at most one play request, for the first cue. */
  function AlertSound(s: Sound, alerts: seq<string>, bundle: string -> AssetLookup): Sound
  {
    match FirstCue(alerts)
    case None => s
    case Some(c) => Step(s, CueRequest(c, bundle))
  }

  /** An empty alert list clears and hides the banner, keeps its colour and asks for no sound. */
  lemma EmptyAlertsQuiet(current: Label, s: Sound, bundle: string -> AssetLookup)
    ensures Banner(current, []).text == "" && Banner(current, []).hidden
    ensures Banner(current, []).background == current.background
    ensures AlertSound(s, [], bundle) == s
  {
  }

  /** A non-empty alert list shows the banner, red-tinted, with the alerts joined by newlines. */
  lemma NonEmptyAlertsShown(current: Label, alerts: seq<string>)
    requires |alerts| > 0
    ensures Banner(current, alerts) == Label(JoinLines(alerts), false, AlertTint)
  {
  }
}
