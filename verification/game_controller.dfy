/**
 * The Android game controller (class GameController): a five-state machine
 * driven by the AR session's tracking reports and by the detection of the
 * game box, plus the frame-time clamp applied before each game tick.
 * The game itself is reached only through `Game::tick`, which is a
 * function parameter here: it receives the clamped milliseconds and
 * reports whether anything changed.
 */
module Controller {
  import opened Outcomes

  datatype State = WaitingForPlane | WaitingForBox | Running | Over | PausedTrackingLost

  const TwoTo63: int := 0x8000_0000_0000_0000
  const TwoTo64: int := 0x1_0000_0000_0000_0000

  /** An unsigned 64-bit timestamp in nanoseconds. */
  type U64 = t: int | 0 <= t < TwoTo64

  /** The longest frame handed to the game, in nanoseconds (a tenth of a second). */
  const MaxFrameTime: int := 100_000_000
  const NanosPerMilli: int := 1_000_000

  datatype GameController = GameController(state: State, prevTimestamp: U64)

  /** A freshly constructed controller: waiting for a plane, last timestamp zero. */
  function Init(): GameController
  {
    GameController(WaitingForPlane, 0)
  }

  /** The three phases of a session: before the box is placed, playing, and over. */
  datatype Phase = Setup | Playing | Ended

  function PhaseOf(s: State): Phase
  {
    match s
    case WaitingForPlane | WaitingForBox => Setup
    case Running | PausedTrackingLost => Playing
    case Over => Ended
  }

  /** The states that are entered while the camera is tracking; each phase has one tracked and one untracked state. */
  predicate IsTrackedState(s: State)
  {
    s == WaitingForBox || s == Running
  }

  /**
   * onTrackingState: a tracking report never changes the phase; within the
   * setup and playing phases it selects the tracked or the untracked state.
   * OVER is left alone.
   */
  function OnTrackingState(c: GameController, isTracking: bool): (r: GameController)
    ensures r.prevTimestamp == c.prevTimestamp
    ensures r.state == Over <==> c.state == Over
    ensures PhaseOf(r.state) == PhaseOf(c.state)
    ensures c.state != Over ==> IsTrackedState(r.state) == isTracking
  {
    var next :=
      if isTracking then
        match c.state
        case WaitingForPlane => WaitingForBox
        case PausedTrackingLost => Running
        case _ => c.state
      else
        match c.state
        case Running => PausedTrackingLost
        case WaitingForBox => WaitingForPlane
        case _ => c.state;
    GameController(next, c.prevTimestamp)
  }

  /** Only the latest tracking report matters: two reports in a row act like the second alone. */
  lemma LatestTrackingReportWins(c: GameController, first: bool, second: bool)
    ensures OnTrackingState(OnTrackingState(c, first), second) == OnTrackingState(c, second)
  {
  }

  /** onBoxFound starts (or restarts) the game from any state. */
  function OnBoxFound(c: GameController): (r: GameController)
    ensures r.state == Running && PhaseOf(r.state) == Playing
    ensures r.prevTimestamp == c.prevTimestamp
  {
    GameController(Running, c.prevTimestamp)
  }

  /**
   * The elapsed time as onFrame computes it: the unsigned 64-bit difference
   * of the timestamps, read back as a signed 64-bit value.
   */
  function WrappedInterval(prev: U64, t: U64): (dt: int)
    ensures -TwoTo63 <= dt < TwoTo63
    ensures -TwoTo63 <= t - prev < TwoTo63 ==> dt == t - prev
    ensures t - prev >= TwoTo63 ==> dt == t - prev - TwoTo64
    ensures t - prev < -TwoTo63 ==> dt == t - prev + TwoTo64
  {
    var u := if t >= prev then t - prev else t - prev + TwoTo64;
    if u >= TwoTo63 then u - TwoTo64 else u
  }

  /** The milliseconds handed to the game for a signed interval: clamped to [0, MaxFrameTime], then whole milliseconds. */
  function FrameMilliseconds(dt: int): (ms: int)
    ensures 0 <= ms <= MaxFrameTime / NanosPerMilli
    ensures 0 <= dt <= MaxFrameTime ==> ms * NanosPerMilli <= dt < (ms + 1) * NanosPerMilli
    ensures dt < 0 ==> ms == 0
    ensures dt >= MaxFrameTime ==> ms == MaxFrameTime / NanosPerMilli
  {
    var clamped := if dt < 0 then 0 else if dt > MaxFrameTime then MaxFrameTime else dt;
    clamped / NanosPerMilli
  }

  /** What one frame did: the controller afterwards, the argument `tick` was called with (if it was), and the result. */
  datatype Frame = Frame(controller: GameController, ticked: Option<int>, changed: bool)

  /**
   * onFrame: only a running game is ticked, with at most 100 ms however long
   * the gap; the state never changes and the timestamp is always recorded.
   */
  function OnFrame(c: GameController, timestamp: U64, tick: int -> bool): (r: Frame)
    ensures r.controller == GameController(c.state, timestamp)
    ensures r.ticked.Some? <==> c.state == Running
    ensures r.ticked.None? ==> !r.changed
    ensures r.ticked.Some? ==> 0 <= r.ticked.value <= 100 && r.changed == tick(r.ticked.value)
    ensures r.ticked.Some? && c.prevTimestamp <= timestamp <= c.prevTimestamp + MaxFrameTime ==>
      r.ticked.value * NanosPerMilli <= timestamp - c.prevTimestamp < (r.ticked.value + 1) * NanosPerMilli
    ensures r.ticked.Some? && c.prevTimestamp + MaxFrameTime <= timestamp < c.prevTimestamp + TwoTo63 ==>
      r.ticked.value == 100
    ensures r.ticked.Some? && c.prevTimestamp - TwoTo63 <= timestamp < c.prevTimestamp ==> r.ticked.value == 0
    ensures r.ticked.Some? && timestamp >= c.prevTimestamp + TwoTo63 ==> r.ticked.value == 0
  {
    var next := GameController(c.state, timestamp);
    if c.state == Running then
      var ms := FrameMilliseconds(WrappedInterval(c.prevTimestamp, timestamp));
      Frame(next, Some(ms), tick(ms))
    else
      Frame(next, None, false)
  }

  /** The events the platform delivers to the controller. */
  datatype Event = TrackingReport(isTracking: bool) | BoxFound | FrameAt(timestamp: U64)

  function Step(c: GameController, e: Event, tick: int -> bool): GameController
  {
    match e
    case TrackingReport(isTracking) => OnTrackingState(c, isTracking)
    case BoxFound => OnBoxFound(c)
    case FrameAt(t) => OnFrame(c, t, tick).controller
  }

  /** The controller after a sequence of events, delivered in order. */
  function Run(c: GameController, events: seq<Event>, tick: int -> bool): GameController
    decreases |events|
  {
    if |events| == 0 then c else Run(Step(c, events[0], tick), events[1..], tick)
  }

  /** No event leads into OVER from another state. */
  lemma {:induction false} NeverOver(c: GameController, events: seq<Event>, tick: int -> bool)
    requires c.state != Over
    ensures Run(c, events, tick).state != Over
    decreases |events|
  {
    if |events| > 0 {
      NeverOver(Step(c, events[0], tick), events[1..], tick);
    }
  }

  /** OVER is unreachable: whatever the events, a controller built by the constructor never reports it. */
  lemma OverUnreachable(events: seq<Event>, tick: int -> bool)
    ensures Run(Init(), events, tick).state != Over
  {
    NeverOver(Init(), events, tick);
  }

  /** From a state other than OVER, the game is in its playing phase after some events iff it was before or a box was found among them. */
  lemma {:induction false} PlayingAfter(c: GameController, events: seq<Event>, tick: int -> bool)
    requires c.state != Over
    ensures PhaseOf(Run(c, events, tick).state) == Playing <==> PhaseOf(c.state) == Playing || BoxFound in events
    decreases |events|
  {
    if |events| > 0 {
      var c1 := Step(c, events[0], tick);
      assert PhaseOf(c1.state) == Playing <==> PhaseOf(c.state) == Playing || events[0] == BoxFound;
      assert events == [events[0]] + events[1..];
      PlayingAfter(c1, events[1..], tick);
    }
  }

  /** Starting from the constructor, the game is running or paused exactly when a box has been found at some point. */
  lemma PlayingIffBoxFound(events: seq<Event>, tick: int -> bool)
    ensures var s := Run(Init(), events, tick).state;
      (s == Running || s == PausedTrackingLost) <==> BoxFound in events
  {
    PlayingAfter(Init(), events, tick);
  }
}
