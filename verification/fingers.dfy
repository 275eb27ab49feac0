/** Counting raised fingers from the 21 landmarks of one detected hand. */
module Fingers {

  /** One landmark in normalised image coordinates: x grows to the right,
      y grows downwards. The detector's depth coordinate is never read. */
  datatype Landmark = Landmark(x: real, y: real)

  /** The detector reports exactly this many landmarks per hand. */
  const LandmarkCount: nat := 21

  /** One detected hand, its landmarks in the detector's fixed order
      (0 the wrist, 4 the thumb tip, 8/12/16/20 the other finger tips). */
  type Hand = h: seq<Landmark> | |h| == LandmarkCount
    witness seq(LandmarkCount, _ => Landmark(0.0, 0.0))

  /** The thumb tip and the thumb joint it is compared with. */
  const ThumbTip: nat := 4
  const ThumbJoint: nat := 2

  /** The tips of the index, middle, ring and pinky fingers, in that order. */
  const FingerTips: seq<nat> := [8, 12, 16, 20]

  /** The thumb is up when its tip lies strictly left of its joint. */
  predicate ThumbUp(hand: Hand) {
    hand[ThumbTip].x < hand[ThumbJoint].x
  }

  /** A finger is up when its tip lies strictly above the joint two landmarks
      further down the same finger. */
  predicate TipUp(hand: Hand, tip: nat)
    requires 2 <= tip < LandmarkCount
  {
    hand[tip].y < hand[tip - 2].y
  }

  /** The flags count_fingers collects: the thumb first, then each finger of
      FingerTips in order. The k-th finger (k >= 1) has its tip at landmark
      4k+4 and its reference joint at 4k+2. */
  function FingerFlags(hand: Hand): (flags: seq<bool>)
    ensures |flags| == 5
    ensures flags[0] <==> hand[4].x < hand[2].x
    ensures forall k :: 1 <= k < 5 ==> (flags[k] <==> hand[4 * k + 4].y < hand[4 * k + 2].y)
  {
    [ThumbUp(hand)] + seq(|FingerTips|, k requires 0 <= k < |FingerTips| => TipUp(hand, FingerTips[k]))
  }

  /** How many entries of flags are true (a list's count(True)). */
  function CountTrue(flags: seq<bool>): (n: nat)
    ensures n <= |flags|
    ensures n == 0 <==> forall i :: 0 <= i < |flags| ==> !flags[i]
    ensures n == |flags| <==> forall i :: 0 <= i < |flags| ==> flags[i]
  {
    if flags == [] then 0
    else
      var rest := CountTrue(flags[1..]);
      assert forall i :: 1 <= i < |flags| ==> flags[i] == flags[1..][i - 1];
      (if flags[0] then 1 else 0) + rest
  }

  /** The number of raised fingers of a hand, as count_fingers reports it:
      never more than the five digits, none exactly when every flag is down. */
  function FingerCount(hand: Hand): (n: nat)
    ensures n <= 5
    ensures n == 0 <==> forall i :: 0 <= i < 5 ==> !FingerFlags(hand)[i]
  {
    CountTrue(FingerFlags(hand))
  }

  /** 1 for a raised digit, 0 for a lowered one. */
  function Bit(up: bool): nat {
    if up then 1 else 0
  }

  /** A reference count written digit by digit, independent of the flag list. */
  function RaisedDigits(hand: Hand): nat {
    Bit(hand[4].x < hand[2].x)
    + Bit(hand[8].y < hand[6].y)
    + Bit(hand[12].y < hand[10].y)
    + Bit(hand[16].y < hand[14].y)
    + Bit(hand[20].y < hand[18].y)
  }

  /** count_fingers as the source runs it: append one flag for the thumb, one
      per finger tip in a loop, then count the true flags. */
  method CountFingers(hand: Hand) returns (count: nat)
    ensures count == FingerCount(hand)
    ensures count <= 5
  {
    var fingerUp: seq<bool> := [];
    if hand[ThumbTip].x < hand[ThumbJoint].x {
      fingerUp := fingerUp + [true];
    } else {
      fingerUp := fingerUp + [false];
    }
    for k := 0 to |FingerTips|
      invariant fingerUp == FingerFlags(hand)[..k + 1]
    {
      var tip := FingerTips[k];
      if hand[tip].y < hand[tip - 2].y {
        fingerUp := fingerUp + [true];
      } else {
        fingerUp := fingerUp + [false];
      }
    }
    assert fingerUp == FingerFlags(hand);
    count := CountTrue(fingerUp);
  }

  /** The count of five flags is the sum of their bits. */
  lemma CountTrueFive(flags: seq<bool>)
    requires |flags| == 5
    ensures CountTrue(flags) == Bit(flags[0]) + Bit(flags[1]) + Bit(flags[2]) + Bit(flags[3]) + Bit(flags[4])
  {
    var f1 := flags[1..];
    var f2 := f1[1..];
    var f3 := f2[1..];
    var f4 := f3[1..];
    assert f4[1..] == [];
    assert CountTrue(f4) == Bit(f4[0]);
    assert CountTrue(f3) == Bit(f3[0]) + CountTrue(f4);
    assert CountTrue(f2) == Bit(f2[0]) + CountTrue(f3);
    assert CountTrue(f1) == Bit(f1[0]) + CountTrue(f2);
  }

  /** count_fingers agrees with the digit-by-digit reference count, and so
      lies between 0 and 5. */
  lemma FingerCountIsRaisedDigits(hand: Hand)
    ensures FingerCount(hand) == RaisedDigits(hand)
    ensures FingerCount(hand) <= 5
  {
    var flags := FingerFlags(hand);
    CountTrueFive(flags);
    assert flags[1] == (hand[8].y < hand[6].y);
    assert flags[2] == (hand[12].y < hand[10].y);
    assert flags[3] == (hand[16].y < hand[14].y);
    assert flags[4] == (hand[20].y < hand[18].y);
  }

  /** Equal coordinates count as down: a hand whose every compared pair of
      landmarks coincides has no finger up. */
  lemma TiesCountDown(hand: Hand)
    requires hand[4].x == hand[2].x
    requires forall k :: 1 <= k < 5 ==> hand[4 * k + 4].y == hand[4 * k + 2].y
    ensures FingerCount(hand) == 0
  {
  }
}
