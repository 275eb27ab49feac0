/** Turning finger counts, and the hands of one frame, into the player's choice. */
module Gestures {
  import opened Fingers

  /** What a frame can show: one of the three gestures, or nothing recognised. */
  datatype Choice = Waiting | Rock | Paper | Scissors

  /** A real move: every choice except Waiting. */
  type Move = c: Choice | c != Waiting witness Rock

  /** The number of raised fingers the game's instructions ask for each gesture. */
  function FingersFor(g: Move): (n: nat)
    ensures n <= 5
  {
    if g == Rock then 0 else if g == Scissors then 2 else 5
  }

  /** The gesture a finger count stands for; any count other than 0, 2 or 5
      is not recognised. */
  function GestureOf(count: nat): (c: Choice)
    ensures c != Waiting ==> FingersFor(c) == count
  {
    if count == 0 then Rock
    else if count == 2 then Scissors
    else if count == 5 then Paper
    else Waiting
  }

  /** GestureOf and FingersFor are inverse: a count maps to a gesture exactly
      when it is the count that gesture asks for, and only the three counts
      0, 2 and 5 are recognised. */
  lemma GestureOfInverse(count: nat, g: Move)
    ensures GestureOf(count) == g <==> count == FingersFor(g)
    ensures GestureOf(count) == Waiting <==> count !in {0, 2, 5}
  {
  }

  /** The player's choice in a frame: Waiting when no hand is detected,
      otherwise whatever the last detected hand shows. */
  function LastHandChoice(hands: seq<Hand>): (c: Choice)
    ensures hands == [] ==> c == Waiting
    ensures c != Waiting ==> hands != [] && FingersFor(c) == FingerCount(hands[|hands| - 1])
  {
    if hands == [] then Waiting else GestureOf(FingerCount(hands[|hands| - 1]))
  }

  /** The per-frame loop over detected hands: each hand overwrites the choice
      made from the hands before it. */
  method ChoosePlayerMove(hands: seq<Hand>) returns (choice: Choice)
    ensures choice == LastHandChoice(hands)
    ensures hands == [] ==> choice == Waiting
  {
    choice := Waiting;
    for i := 0 to |hands|
      invariant choice == LastHandChoice(hands[..i])
    {
      var count := CountFingers(hands[i]);
      choice := GestureOf(count);
      assert hands[..i + 1][i] == hands[i];
    }
    assert hands[..|hands|] == hands;
  }

  /** A later hand overrides everything before it, even when it is not
      recognised and an earlier hand was. */
  lemma LaterHandOverrides(earlier: seq<Hand>, last: Hand)
    ensures LastHandChoice(earlier + [last]) == GestureOf(FingerCount(last))
    ensures FingerCount(last) !in {0, 2, 5} ==> LastHandChoice(earlier + [last]) == Waiting
  {
  }

  /** A hand with every digit down is Rock; with every digit up, Paper. */
  lemma ExtremeHands(hand: Hand)
    ensures (forall i :: 0 <= i < 5 ==> !FingerFlags(hand)[i]) ==> LastHandChoice([hand]) == Rock
    ensures (forall i :: 0 <= i < 5 ==> FingerFlags(hand)[i]) ==> LastHandChoice([hand]) == Paper
  {
  }

  /** With index and middle finger up and ring and pinky down, the hand is
      Scissors exactly when the thumb is down: a raised thumb makes three. */
  lemma ScissorsNeedsThumbDown(hand: Hand)
    requires hand[8].y < hand[6].y && hand[12].y < hand[10].y
    requires hand[16].y >= hand[14].y && hand[20].y >= hand[18].y
    ensures LastHandChoice([hand]) == Scissors <==> hand[4].x >= hand[2].x
    ensures hand[4].x < hand[2].x ==> LastHandChoice([hand]) == Waiting
  {
    FingerCountIsRaisedDigits(hand);
  }
}
