/** The gesture-interpretation core of one frame: the latched mode state
    machine, the Scroll, Volume and Cursor blocks, and the commands they issue
    to the operating system.

    The state is the pair of globals `mode` and `active`. Each frame first
    applies the entry rules (only while a hand is present and nothing is
    latched), then runs the block of whatever mode is now current; that block
    may leave its mode again and otherwise emits commands. Actuators (scroll
    wheel, audio endpoint, mouse) are represented by the commands they would
    receive. */
module Gestures {
  import opened Hand
  import opened Interpolation

  datatype Mode = Neutral | Scroll | Volume | Cursor

  /** `mode` and the latch `active` (1 while a gesture mode is held). */
  datatype ModeState = ModeState(mode: Mode, active: Bit)

  /** What the core hands to the actuators in one frame. */
  datatype Command =
    | ScrollBy(delta: int)         // scroll wheel
    | SetVolumeLevel(level: real)  // master volume, in the device's level units
    | MoveCursor(x: int, y: int)   // screen pixel
    | Click                        // left click at the current cursor position

  datatype Outcome = Outcome(state: ModeState, cmds: seq<Command>)

  const INITIAL := ModeState(Neutral, 0)

  const SCROLL_UNIT := 300

  /** Volume level at the pinched end of the range. */
  const MIN_VOL: real := -63.0

  /** Thumb-to-index distance range, in pixels, that spans the volume range. */
  const HMIN: real := 50.0
  const HMAX: real := 200.0

  /** Control zone of the camera image that spans the whole screen. */
  const ZONE_LEFT := 110
  const ZONE_RIGHT := 620
  const ZONE_TOP := 20
  const ZONE_BOTTOM := 350

  /** The latch is set exactly when a gesture mode is active. */
  predicate Latched(s: ModeState) {
    s.active == 1 <==> s.mode != Neutral
  }

  /** `length` is the Euclidean distance between landmarks `a` and `b`
      (the value `math.hypot` returns). */
  predicate IsDistance(length: real, a: Landmark, b: Landmark) {
    var dx, dy := b.x - a.x, b.y - a.y;
    0.0 <= length && length * length == (dx * dx + dy * dy) as real
  }

  /** Python's `fingers[1:]`, which is empty for the empty list. */
  function Tail(f: seq<Bit>): seq<Bit> {
    if f == [] then [] else f[1..]
  }

  /** The gesture that leaves mode `m`; Neutral has none. */
  predicate ExitGesture(m: Mode, f: seq<Bit>) {
    match m
    case Neutral => false
    case Scroll => f == [0, 0, 0, 0, 0]
    case Volume => f != [] && f[|f| - 1] == 1
    case Cursor => Tail(f) == [0, 0, 0, 0]
  }

  /** The entry rules, tried in order; none applies once the latch is set. */
  function Enter(s: ModeState, f: seq<Bit>): (r: ModeState)
    ensures s.active == 1 ==> r == s
    ensures r.mode != s.mode ==> s.active == 0
  {
    if f == [0, 0, 0, 0, 0] && s.active == 0 then ModeState(Neutral, s.active)
    else if (f == [0, 1, 0, 0, 0] || f == [0, 1, 1, 0, 0]) && s.active == 0 then ModeState(Scroll, 1)
    else if f == [1, 1, 0, 0, 0] && s.active == 0 then ModeState(Volume, 1)
    else if f == [1, 1, 1, 1, 1] && s.active == 0 then ModeState(Cursor, 1)
    else s
  }

  /** The Scroll block: index alone scrolls up, index and middle scroll down,
      a closed fist leaves the mode. */
  function ScrollBlock(s: ModeState, f: seq<Bit>): (r: Outcome)
    ensures r.state == s || r.state == INITIAL
    ensures r.cmds == [] || r.cmds == [ScrollBy(SCROLL_UNIT)] || r.cmds == [ScrollBy(-SCROLL_UNIT)]
    ensures r.cmds != [] ==> r.state == s
  {
    if f == [0, 1, 0, 0, 0] then Outcome(s, [ScrollBy(SCROLL_UNIT)])
    else if f == [0, 1, 1, 0, 0] then Outcome(s, [ScrollBy(-SCROLL_UNIT)])
    else if ExitGesture(Scroll, f) then Outcome(ModeState(Neutral, 0), [])
    else Outcome(s, [])
  }

  /** Volume level for a thumb-to-index distance. */
  function VolumeLevel(length: real, maxVol: real): (v: real)
    ensures MIN_VOL <= maxVol ==> MIN_VOL <= v <= maxVol
  {
    Interp(length, HMIN, HMAX, MIN_VOL, maxVol)
  }

  /** The on-screen percentage shown beside the volume bar. */
  function VolumePercent(vol: real, maxVol: real): (p: int)
    requires MIN_VOL < maxVol
    ensures 0 <= p <= 100
    ensures vol <= MIN_VOL ==> p == 0
    ensures vol >= maxVol ==> p == 100
  {
    Truncate(Interp(vol, MIN_VOL, maxVol, 0.0, 100.0))
  }

  /** The Volume block: a raised pinky leaves the mode; otherwise, with a hand
      present, the thumb-to-index distance sets the volume. */
  function VolumeBlock(s: ModeState, f: seq<Bit>, lm: seq<Landmark>, length: real, maxVol: real): (r: Outcome)
    ensures r.state == s || r.state == INITIAL
    ensures r.state != s ==> r.cmds == []
    ensures |r.cmds| <= 1
    ensures lm != [] && !ExitGesture(Volume, f) ==> r.cmds != []
    ensures forall c :: c in r.cmds ==> c.SetVolumeLevel? && (MIN_VOL <= maxVol ==> MIN_VOL <= c.level <= maxVol)
  {
    if ExitGesture(Volume, f) then Outcome(ModeState(Neutral, 0), [])
    else if lm != [] then Outcome(s, [SetVolumeLevel(VolumeLevel(length, maxVol))])
    else Outcome(s, [])
  }

  /** `int(np.interp(v, [lo, hi], [0, size - 1]))`: one image coordinate
      mapped onto a screen axis of `size` pixels. */
  function ScreenCoord(v: int, lo: int, hi: int, size: int): (c: int)
    requires lo < hi && size >= 1
    ensures 0 <= c <= size - 1
    ensures v <= lo ==> c == 0
    ensures v >= hi ==> c == size - 1
  {
    Truncate(Interp(v as real, lo as real, hi as real, 0.0, (size - 1) as real))
  }

  /** The cursor target for an index tip at image point (x, y). */
  function CursorTarget(x: int, y: int, screenW: int, screenH: int): (p: (int, int))
    requires screenW >= 1 && screenH >= 1
    ensures p.0 % 2 == 0 && 0 <= p.0 <= screenW - 1
    ensures p.1 % 2 == 0 && 0 <= p.1 <= screenH - 1
  {
    (SnapEven(ScreenCoord(x, ZONE_LEFT, ZONE_RIGHT, screenW)),
     SnapEven(ScreenCoord(y, ZONE_TOP, ZONE_BOTTOM, screenH)))
  }

  /** The Cursor block: index to pinky all down leaves the mode (the thumb
      does not matter); otherwise, with a hand present, the cursor follows the
      index tip and a lowered thumb clicks, on every such frame. */
  function CursorBlock(s: ModeState, f: seq<Bit>, lm: seq<Landmark>, screenW: int, screenH: int): (r: Outcome)
    requires PoseOrEmpty(lm) && f == Fingers(lm)
    requires screenW >= 1 && screenH >= 1
    ensures r.state == s || r.state == INITIAL
    ensures r.state != s ==> r.cmds == []
    ensures r.cmds != [] ==> r.cmds[0].MoveCursor? && 0 <= r.cmds[0].x < screenW && 0 <= r.cmds[0].y < screenH
    ensures r.cmds != [] ==> r.cmds[1..] == [] || r.cmds[1..] == [Click]
    ensures lm != [] && !ExitGesture(Cursor, f) ==> r.cmds != []
  {
    if ExitGesture(Cursor, f) then Outcome(ModeState(Neutral, 0), [])
    else if lm != [] then
      var target := CursorTarget(lm[8].x, lm[8].y, screenW, screenH);
      Outcome(s, [MoveCursor(target.0, target.1)] + (if f[0] == 0 then [Click] else []))
    else Outcome(s, [])
  }

  /** The block of the current mode. */
  function ModeBlock(s: ModeState, f: seq<Bit>, lm: seq<Landmark>, length: real,
                     screenW: int, screenH: int, maxVol: real): (r: Outcome)
    requires PoseOrEmpty(lm) && f == Fingers(lm)
    requires screenW >= 1 && screenH >= 1
    ensures r.state == s || r.state == INITIAL
    ensures r.state != s ==> r.cmds == []
    ensures s.mode == Neutral ==> r == Outcome(s, [])
  {
    match s.mode
    case Neutral => Outcome(s, [])
    case Scroll => ScrollBlock(s, f)
    case Volume => VolumeBlock(s, f, lm, length, maxVol)
    case Cursor => CursorBlock(s, f, lm, screenW, screenH)
  }

  /** One pass of the main loop: classify, apply the entry rules, run the
      current mode's block. */
  function Frame(s: ModeState, lm: seq<Landmark>, length: real, screenW: int, screenH: int,
                 maxVol: real): (r: Outcome)
    requires PoseOrEmpty(lm)
    requires screenW >= 1 && screenH >= 1
    ensures lm == [] ==> r == Outcome(s, [])
    ensures r.state == s || r.state == INITIAL || (s.active == 0 && r.state.active == 1)
  {
    var f := Fingers(lm);
    ModeBlock(Enter(s, f), f, lm, length, screenW, screenH, maxVol)
  }

  /** What one frame supplies: the landmarks (empty without a hand), the
      thumb-to-index distance and the current screen size. */
  datatype Input = Input(lm: seq<Landmark>, length: real, screenW: int, screenH: int)

  predicate WellFormed(i: Input) {
    && PoseOrEmpty(i.lm)
    && i.screenW >= 1 && i.screenH >= 1
    && (i.lm != [] ==> IsDistance(i.length, i.lm[4], i.lm[8]))
  }

  predicate AllWellFormed(inputs: seq<Input>) {
    forall k :: 0 <= k < |inputs| ==> WellFormed(inputs[k])
  }

  function FrameOf(s: ModeState, i: Input, maxVol: real): Outcome
    requires WellFormed(i)
  {
    Frame(s, i.lm, i.length, i.screenW, i.screenH, maxVol)
  }

  /** The state after a run of frames, and the commands of each frame. */
  function Run(s: ModeState, inputs: seq<Input>, maxVol: real): (r: (ModeState, seq<seq<Command>>))
    requires AllWellFormed(inputs)
    ensures |r.1| == |inputs|
    decreases |inputs|
  {
    if inputs == [] then (s, [])
    else
      var before := Run(s, inputs[..|inputs| - 1], maxVol);
      var last := FrameOf(before.0, inputs[|inputs| - 1], maxVol);
      (last.state, before.1 + [last.cmds])
  }

  /** The process-wide gesture state and the loop that drives it. */
  class GestureController {
    var mode: Mode
    var active: Bit
    /** Top of the device's volume range, read once at start-up. */
    const maxVol: real

    ghost predicate Valid()
      reads this
    {
      MIN_VOL < maxVol && Latched(ModeState(mode, active))
    }

    function State(): ModeState
      reads this
    {
      ModeState(mode, active)
    }

    constructor (maxVol: real)
      requires MIN_VOL < maxVol
      ensures Valid()
      ensures State() == INITIAL && this.maxVol == maxVol
    {
      this.maxVol := maxVol;
      mode := Neutral;
      active := 0;
    }

    /** One iteration of the main loop. `length` is the thumb-to-index
        distance of the frame's hand and the screen size is the one reported
        for this frame. */
    method Step(lm: seq<Landmark>, length: real, screenW: int, screenH: int) returns (cmds: seq<Command>)
      requires Valid()
      requires PoseOrEmpty(lm)
      requires screenW >= 1 && screenH >= 1
      requires lm != [] ==> IsDistance(length, lm[4], lm[8])
      modifies this`mode, this`active
      ensures Valid()
      ensures Outcome(State(), cmds) == Frame(old(State()), lm, length, screenW, screenH, maxVol)
    {
      ghost var s0 := State();
      var fingers := ClassifyFingers(lm);

      if lm != [] {
        if fingers == [0, 0, 0, 0, 0] && active == 0 {
          mode := Neutral;
        } else if (fingers == [0, 1, 0, 0, 0] || fingers == [0, 1, 1, 0, 0]) && active == 0 {
          mode, active := Scroll, 1;
        } else if fingers == [1, 1, 0, 0, 0] && active == 0 {
          mode, active := Volume, 1;
        } else if fingers == [1, 1, 1, 1, 1] && active == 0 {
          mode, active := Cursor, 1;
        }
      }
      assert State() == Enter(s0, fingers);

      cmds := [];
      if mode == Scroll {
        if fingers == [0, 1, 0, 0, 0] {
          cmds := [ScrollBy(SCROLL_UNIT)];
        } else if fingers == [0, 1, 1, 0, 0] {
          cmds := [ScrollBy(-SCROLL_UNIT)];
        } else if fingers == [0, 0, 0, 0, 0] {
          mode, active := Neutral, 0;
        }
      } else if mode == Volume {
        if fingers != [] && fingers[|fingers| - 1] == 1 {
          mode, active := Neutral, 0;
        } else if lm != [] {
          var vol := Interp(length, HMIN, HMAX, MIN_VOL, maxVol);
          cmds := [SetVolumeLevel(vol)];
        }
      } else if mode == Cursor {
        if Tail(fingers) == [0, 0, 0, 0] {
          mode, active := Neutral, 0;
        } else if lm != [] {
          var x1, y1 := lm[8].x, lm[8].y;
          var x := Truncate(Interp(x1 as real, ZONE_LEFT as real, ZONE_RIGHT as real, 0.0, (screenW - 1) as real));
          var y := Truncate(Interp(y1 as real, ZONE_TOP as real, ZONE_BOTTOM as real, 0.0, (screenH - 1) as real));
          cmds := [MoveCursor(x - x % 2, y - y % 2)];
          if fingers[0] == 0 {
            cmds := cmds + [Click];
          }
        }
      }
      FrameKeepsLatch(s0, lm, length, screenW, screenH, maxVol);
    }

    /** The main loop over a finite run of frames (the source loops until
        the camera fails or the user quits); `log[k]` is what frame `k`
        issued. */
    method ProcessFrames(inputs: seq<Input>) returns (log: seq<seq<Command>>)
      requires Valid()
      requires AllWellFormed(inputs)
      modifies this`mode, this`active
      ensures Valid()
      ensures (State(), log) == Run(old(State()), inputs, maxVol)
    {
      log := [];
      var k := 0;
      while k < |inputs|
        invariant 0 <= k <= |inputs|
        invariant Valid()
        invariant (State(), log) == Run(old(State()), inputs[..k], maxVol)
      {
        var i := inputs[k];
        var cmds := Step(i.lm, i.length, i.screenW, i.screenH);
        log := log + [cmds];
        assert inputs[..k + 1][..k] == inputs[..k];
        k := k + 1;
      }
      assert inputs[..k] == inputs;
    }
  }

  /** Every frame keeps the latch consistent with the mode. */
  lemma FrameKeepsLatch(s: ModeState, lm: seq<Landmark>, length: real, screenW: int, screenH: int, maxVol: real)
    requires Latched(s)
    requires PoseOrEmpty(lm)
    requires screenW >= 1 && screenH >= 1
    ensures Latched(Frame(s, lm, length, screenW, screenH, maxVol).state)
  {
  }
}
