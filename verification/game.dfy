/** The match: frames are read until the camera closes, a read fails or one
    side reaches the winning score, then the final verdict is announced. */
module Game {
  import opened Fingers
  import opened Gestures
  import opened Rounds

  /** Rounds a side must win to win the match. */
  const GameRounds: nat := 5

  /** What one read from the camera yields: a failed read, or a frame with the
      hands the detector found in it and the move the computer draws for it
      (the draw only matters when the player's choice is recognised). */
  datatype Frame = ReadFailed | Captured(hands: seq<Hand>, computerMove: Move)

  /** Why the main loop stopped. */
  datatype Exit = CameraClosed | ReadError | Decided

  /** Final scores together with the reason the loop stopped. */
  datatype Run = Run(scores: Scores, exit: Exit)

  /** What is announced at the end. */
  datatype Verdict = WebcamError | PlayerWonGame | ComputerWonGame | NoVerdict

  /** The loop keeps going only while both scores are below GameRounds. */
  predicate InPlay(s: Scores) {
    s.player < GameRounds && s.computer < GameRounds
  }

  /** Neither score has passed GameRounds. */
  predicate Bounded(s: Scores) {
    s.player <= GameRounds && s.computer <= GameRounds
  }

  /** The score change one captured frame causes. */
  function FrameScores(s: Scores, hands: seq<Hand>, computerMove: Move): Scores {
    ScoreRound(s, LastHandChoice(hands), computerMove)
  }

  /** The main loop over a stream of frames, from scores s; the end of the
      stream is the camera being closed. The guard checks the camera before
      the scores, as the loop condition does. */
  function Replay(s: Scores, frames: seq<Frame>): (r: Run)
    ensures s.player <= r.scores.player && s.computer <= r.scores.computer
    ensures r.exit == Decided ==> !InPlay(r.scores)
    ensures r.exit == ReadError ==> InPlay(r.scores)
    decreases |frames|
  {
    if frames == [] then Run(s, CameraClosed)
    else if !InPlay(s) then Run(s, Decided)
    else match frames[0]
      case ReadFailed => Run(s, ReadError)
      case Captured(hands, move) => Replay(FrameScores(s, hands, move), frames[1..])
  }

  /** The end-of-game announcement for the final scores. */
  function VerdictOf(s: Scores): (v: Verdict)
    ensures Bounded(s) && !InPlay(s) ==> v != NoVerdict
    ensures InPlay(s) ==> v == NoVerdict
    ensures v == PlayerWonGame <==> s.player == GameRounds
    ensures v != WebcamError
  {
    if s.player == GameRounds then PlayerWonGame
    else if s.computer == GameRounds then ComputerWonGame
    else NoVerdict
  }

  /** The whole script: the webcam check, the main loop and the verdict. */
  method PlayMatch(cameraOpened: bool, frames: seq<Frame>)
    returns (playerScore: nat, computerScore: nat, verdict: Verdict)
    ensures !cameraOpened ==> playerScore == 0 && computerScore == 0 && verdict == WebcamError
    ensures cameraOpened ==> Scores(playerScore, computerScore) == Replay(Scores(0, 0), frames).scores
    ensures cameraOpened ==> verdict == VerdictOf(Scores(playerScore, computerScore))
    ensures playerScore <= GameRounds && computerScore <= GameRounds
    ensures !(playerScore == GameRounds && computerScore == GameRounds)
  {
    playerScore, computerScore := 0, 0;
    if !cameraOpened {
      verdict := WebcamError;
      return;
    }
    var i := 0;
    while i < |frames| && playerScore < GameRounds && computerScore < GameRounds
      invariant 0 <= i <= |frames|
      invariant playerScore <= GameRounds && computerScore <= GameRounds
      invariant !(playerScore == GameRounds && computerScore == GameRounds)
      invariant Replay(Scores(playerScore, computerScore), frames[i..]) == Replay(Scores(0, 0), frames)
    {
      assert frames[i..][1..] == frames[i + 1..];
      match frames[i]
      case ReadFailed =>
        break;
      case Captured(hands, computerMove) =>
        ghost var before := Scores(playerScore, computerScore);
        var playerChoice := ChoosePlayerMove(hands);
        if playerChoice != Waiting {
          var outcome := RoundOutcome(playerChoice, computerMove);
          if outcome == PlayerWins {
            playerScore := playerScore + 1;
          } else if outcome == ComputerWins {
            computerScore := computerScore + 1;
          }
        }
        assert Scores(playerScore, computerScore) == FrameScores(before, hands, computerMove);
        i := i + 1;
    }
    assert Replay(Scores(playerScore, computerScore), frames[i..]).scores == Scores(playerScore, computerScore);
    verdict :=
      if playerScore == GameRounds then PlayerWonGame
      else if computerScore == GameRounds then ComputerWonGame
      else NoVerdict;
  }

  /** Scores never pass GameRounds, never both reach it, and never go down. */
  lemma {:induction false} ReplayBounded(s: Scores, frames: seq<Frame>)
    requires Bounded(s) && !(s.player == GameRounds && s.computer == GameRounds)
    ensures Bounded(Replay(s, frames).scores)
    ensures !(Replay(s, frames).scores.player == GameRounds && Replay(s, frames).scores.computer == GameRounds)
    ensures s.player <= Replay(s, frames).scores.player && s.computer <= Replay(s, frames).scores.computer
    decreases |frames|
  {
    if frames != [] && InPlay(s) && frames[0].Captured? {
      ReplayBounded(FrameScores(s, frames[0].hands, frames[0].computerMove), frames[1..]);
    }
  }

  /** When the score guard stops the loop, exactly one side is at GameRounds;
      a verdict is announced exactly when a side reached GameRounds; a failed
      read can only happen while both sides are below it, so it ends the match
      without a verdict. */
  lemma {:induction false} ReplayExit(s: Scores, frames: seq<Frame>)
    requires Bounded(s) && !(s.player == GameRounds && s.computer == GameRounds)
    ensures Replay(s, frames).exit == Decided ==>
      (Replay(s, frames).scores.player == GameRounds) != (Replay(s, frames).scores.computer == GameRounds)
    ensures VerdictOf(Replay(s, frames).scores) != NoVerdict <==> !InPlay(Replay(s, frames).scores)
    ensures Replay(s, frames).exit == ReadError ==>
      InPlay(Replay(s, frames).scores) && VerdictOf(Replay(s, frames).scores) == NoVerdict
    decreases |frames|
  {
    ReplayBounded(s, frames);
    if frames != [] && InPlay(s) && frames[0].Captured? {
      ReplayExit(FrameScores(s, frames[0].hands, frames[0].computerMove), frames[1..]);
    }
  }

  /** Once a side has won, frames that come later change nothing. */
  lemma {:induction false} LaterFramesIgnored(s: Scores, frames: seq<Frame>, more: seq<Frame>)
    requires !InPlay(Replay(s, frames).scores)
    ensures Replay(s, frames + more).scores == Replay(s, frames).scores
    decreases |frames|
  {
    if frames == [] {
      if more != [] {
        assert !InPlay(s);
      }
    } else {
      assert (frames + more)[0] == frames[0];
      assert (frames + more)[1..] == frames[1..] + more;
      if InPlay(s) && frames[0].Captured? {
        LaterFramesIgnored(FrameScores(s, frames[0].hands, frames[0].computerMove), frames[1..], more);
      }
    }
  }

  /** A failed read ends the match: nothing after it is looked at. */
  lemma {:induction false} ReadFailureEndsMatch(s: Scores, frames: seq<Frame>, rest: seq<Frame>)
    ensures Replay(s, frames + [ReadFailed] + rest).scores == Replay(s, frames).scores
    decreases |frames|
  {
    if frames == [] {
      assert ([] + [ReadFailed] + rest)[0] == ReadFailed;
    } else {
      assert (frames + [ReadFailed] + rest)[0] == frames[0];
      assert (frames + [ReadFailed] + rest)[1..] == frames[1..] + [ReadFailed] + rest;
      if InPlay(s) && frames[0].Captured? {
        ReadFailureEndsMatch(FrameScores(s, frames[0].hands, frames[0].computerMove), frames[1..], rest);
      }
    }
  }

  /** A frame whose player's move beats the computer's. */
  predicate PlayerWinsFrame(f: Frame) {
    f.Captured? && LastHandChoice(f.hands) != Waiting && Beats(LastHandChoice(f.hands), f.computerMove)
  }

  /** The match terminates: a run of winning frames long enough to close the
      gap ends it with the player at GameRounds and the player's verdict. */
  lemma {:induction false} WinningStreakDecides(s: Scores, frames: seq<Frame>)
    requires Bounded(s) && s.computer < GameRounds
    requires |frames| >= GameRounds - s.player
    requires forall i :: 0 <= i < |frames| ==> PlayerWinsFrame(frames[i])
    ensures Replay(s, frames).scores.player == GameRounds
    ensures VerdictOf(Replay(s, frames).scores) == PlayerWonGame
    decreases |frames|
  {
    if s.player < GameRounds {
      assert PlayerWinsFrame(frames[0]);
      var t := FrameScores(s, frames[0].hands, frames[0].computerMove);
      assert t == s.(player := s.player + 1);
      assert forall i :: 0 <= i < |frames[1..]| ==> frames[1..][i] == frames[i + 1];
      WinningStreakDecides(t, frames[1..]);
    } else if frames != [] {
      assert !InPlay(s);
    }
  }
}
