# Rock-Paper-Scissors hand-gesture game: a Dafny model

This project models the game logic of `rock.py`, a webcam Rock-Paper-Scissors game.
In the original, each camera frame goes to a hand-landmark detector. For every detected
hand the script counts the raised fingers from 21 landmarks: the thumb by comparing x
coordinates, the other four fingers by comparing y coordinates. The count becomes Rock (0),
Scissors (2), Paper (5) or "Waiting..." (anything else), and the last hand in the frame
decides. A recognised choice is judged against a computer move: equal moves tie, and
Rock beats Scissors, Scissors beats Paper and Paper beats Rock. The winner's score goes up
by one. The loop runs while the camera is open and both scores are below 5. At the end
a verdict is announced only if one side reached 5.

Modules, one per piece of the script:

- `Fingers` (`fingers.dfy`): landmarks, hands, the finger flags and `CountFingers`, the
  imperative flag-collecting loop, proved against the `FingerCount` reference function.
- `Gestures` (`gestures.dfy`): the choices, the count-to-gesture mapping and its inverse,
  and `ChoosePlayerMove`, the loop over the detected hands of a frame.
- `Rounds` (`rounds.dfy`): the round judge, proved against an independent cyclic
  `Beats` relation, and the score update of one frame.
- `Game` (`game.dfy`): `PlayMatch`, the main loop with its invariants, proved against the
  `Replay` reference function. The lemmas cover bounds, termination, exit reasons and the verdict.

The detector's output is an input: a frame carries a sequence of hands, and each hand is a
sequence of exactly 21 landmarks with `real` coordinates. The computer's random draw is an
input move carried by each frame. The camera is a flag saying whether it opened, plus a
sequence of frames. The end of the sequence means the camera closed. A `ReadFailed`
frame is a failed read.

Scissors needs exactly two raised digits (rock.py:20, 79). The thumb is counted
(rock.py:32), so index and middle up with the thumb raised counts 3, which is "Waiting...";
`Gestures.ScissorsNeedsThumbDown` states this.

## Model

| member | source | states |
|---|---|---|
| Fingers.FingerFlags | rock.py:31-42 | five flags: the thumb is up iff landmark 4's x is strictly less than landmark 2's; finger k (tip 4k+4) is up iff its tip's y is strictly less than that of landmark 4k+2 |
| Fingers.CountTrue | rock.py:44 | the count of true flags is at most the number of flags; it is 0 iff no flag is true and the full length iff every flag is true |
| Fingers.CountFingers | rock.py:27-44 | the loop that appends one flag per digit returns the number of true flags of FingerFlags, which is at most 5 |
| Fingers.FingerCount | rock.py:27-44 | the reference count of raised digits is at most 5 and is 0 exactly when every flag is down |
| Fingers.FingerCountIsRaisedDigits | rock.py:27-44 | the count equals a digit-by-digit reference sum over the thumb and the four fingers, so it lies in 0..5 |
| Fingers.TiesCountDown | rock.py:32-42 | equal coordinates count as down: a hand whose compared landmark pairs all tie has count 0 |
| Gestures.FingersFor | rock.py:19-21 | the instructions' finger count for each gesture (Rock 0, Scissors 2, Paper 5) is at most 5 |
| Gestures.GestureOf | rock.py:77-84 | a recognised gesture is produced only from the count that gesture asks for |
| Gestures.GestureOfInverse | rock.py:77-84 | a count maps to a gesture iff it is that gesture's count; it maps to Waiting iff it is not 0, 2 or 5 |
| Gestures.LastHandChoice | rock.py:66-84 | the reference choice of a frame: Waiting with no hands; a recognised gesture only when the last hand's count is that gesture's count |
| Gestures.ChoosePlayerMove | rock.py:66-84 | the per-frame hand loop yields Waiting with no hands, otherwise the gesture of the last hand's count |
| Gestures.LaterHandOverrides | rock.py:69-84 | a later hand decides the choice even when it is unrecognised and earlier hands were recognised |
| Gestures.ExtremeHands | rock.py:75-82 | every digit down gives Rock; every digit up gives Paper |
| Gestures.ScissorsNeedsThumbDown | rock.py:32-80 | with index and middle up and ring and pinky down, the hand is Scissors iff the thumb is down, and Waiting if the thumb is up |
| Rounds.RoundOutcome | rock.py:96-107 | tie iff the moves are equal; player wins iff the player's move beats the computer's in the cyclic order; computer wins iff the computer's move beats the player's |
| Rounds.RoundOutcomeSwap | rock.py:96-107 | swapping the two moves swaps a win and a loss and keeps a tie |
| Rounds.BeatsIsCyclicTournament | rock.py:98-102 | no move beats itself; no two moves beat each other; of two different moves exactly one wins; Rock > Scissors > Paper > Rock |
| Rounds.ScoreRound | rock.py:90-107 | one frame changes at most one score, by exactly 1; Waiting or a tie changes nothing; each side's score rises iff that side's move wins |
| Game.VerdictOf | rock.py:116-119 | the player's verdict iff the player has 5; no verdict while both are below 5; a verdict when a bounded score reached 5 |
| Game.Replay | rock.py:52-107 | the reference run of the main loop: scores never go down; a stop by the score guard leaves a side at 5; a failed read only stops the loop while both sides are below 5 |
| Game.PlayMatch | rock.py:47-119 | with no camera: the webcam error and scores 0-0; otherwise the final scores are those of Replay over the frames and the verdict matches them; scores stay within 5 and never both reach 5 |
| Game.ReplayBounded | rock.py:52-107 | from bounded scores the loop keeps both scores at most 5, never lets both reach 5, and never lowers a score |
| Game.ReplayExit | rock.py:52-119 | when the score guard ends the loop exactly one side is at 5; a verdict is announced iff some side reached 5; a failed read happens only with both sides below 5 and announces nothing |
| Game.LaterFramesIgnored | rock.py:52 | once a side has reached 5, later frames do not change the scores |
| Game.ReadFailureEndsMatch | rock.py:53-55 | a failed read ends the loop: frames after it do not change the scores |
| Game.WinningStreakDecides | rock.py:52-119 | enough consecutive winning frames bring the player to 5 and the player's verdict |

## Left out

- Webcam capture, mirror flip, colour conversion and release (rock.py:47-61, 121-122) are camera I/O; the camera is an "opened" flag plus a sequence of frames.
- Hand detection and landmark drawing (rock.py:7-9, 64, 87) are a call into the detector; its output is the frame's sequence of hands of 21 landmarks.
- The landmarks' depth coordinate is not modelled, because the game never reads it.
- Titles, placeholders, the per-round messages and score lines, and frame rendering (rock.py:17-24, 95-112, 115) are UI; only which verdict branch is taken is kept.
- The computer's `random.choice` (rock.py:91-92) is not modelled as randomness; each frame carries the move the draw produced.
- Floating-point landmark coordinates are modelled as `real`; only strict `<` comparisons are made, so rounding is not modelled.
