/** Hand landmarks and the finger-state classifier.

    A detected hand is the list of 21 pixel-space landmarks produced by the
    hand detector, one per hand-pose point; like the source, the model reads
    a landmark by its position in the list (never by its `id` field). A frame
    without a hand gives the empty list. The classifier turns a hand into five
    0/1 flags `[thumb, index, middle, ring, pinky]`, 1 meaning "extended".
 */
module Hand {

  /** One landmark in pixel coordinates (the optional depth is not modelled). */
  datatype Landmark = Landmark(id: int, x: int, y: int)

  /** The source stores each finger flag as the integer 0 or 1. */
  type Bit = b: int | 0 <= b <= 1

  const NUM_LANDMARKS := 21

  /** Landmark ids of the five finger tips: thumb, index, middle, ring, pinky. */
  const TIP_IDS: seq<int> := [4, 8, 12, 16, 20]

  /** A detected hand: the detector emits one landmark per pose point. */
  predicate IsPose(lm: seq<Landmark>) {
    |lm| == NUM_LANDMARKS
  }

  /** What one frame of detection yields: no hand at all, or one full hand. */
  predicate PoseOrEmpty(lm: seq<Landmark>) {
    lm == [] || IsPose(lm)
  }

  function ToBit(b: bool): Bit {
    if b then 1 else 0
  }

  /** Flag of finger `i` (0 = thumb): the thumb compares its tip with the joint
      one id below it along x; the others compare their tip with the joint two
      ids below it along y (image y grows downwards). */
  function FingerState(lm: seq<Landmark>, i: nat): Bit
    requires IsPose(lm) && i < 5
  {
    if i == 0 then ToBit(lm[TIP_IDS[0]].x > lm[TIP_IDS[0] - 1].x)
    else ToBit(lm[TIP_IDS[i]].y < lm[TIP_IDS[i] - 2].y)
  }

  /** The finger vector of one frame: empty when there is no hand. */
  function Fingers(lm: seq<Landmark>): (f: seq<Bit>)
    requires PoseOrEmpty(lm)
    ensures lm == [] <==> f == []
    ensures lm != [] ==> |f| == 5
    ensures lm != [] ==> (f[0] == 1 <==> lm[4].x > lm[3].x)
    ensures lm != [] ==> (f[1] == 1 <==> lm[8].y < lm[6].y)
    ensures lm != [] ==> (f[2] == 1 <==> lm[12].y < lm[10].y)
    ensures lm != [] ==> (f[3] == 1 <==> lm[16].y < lm[14].y)
    ensures lm != [] ==> (f[4] == 1 <==> lm[20].y < lm[18].y)
  {
    if lm == [] then [] else seq(5, i requires 0 <= i < 5 => FingerState(lm, i))
  }

  /** The classification loop: the thumb first, then one flag per remaining
      finger, appended in order. */
  method ClassifyFingers(lm: seq<Landmark>) returns (fingers: seq<Bit>)
    requires PoseOrEmpty(lm)
    ensures fingers == Fingers(lm)
  {
    fingers := [];
    if lm != [] {
      if lm[TIP_IDS[0]].x > lm[TIP_IDS[0] - 1].x {
        fingers := fingers + [1];
      } else {
        fingers := fingers + [0];
      }
      for i := 1 to 5
        invariant |fingers| == i
        invariant forall k :: 0 <= k < i ==> fingers[k] == FingerState(lm, k)
      {
        if lm[TIP_IDS[i]].y < lm[TIP_IDS[i] - 2].y {
          fingers := fingers + [1];
        } else {
          fingers := fingers + [0];
        }
      }
    }
  }
}
