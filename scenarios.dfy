/**
  Properties that tie the pieces together: spelling does not matter,
  three example sessions end where expected, and the two variants of the
  tracker agree on every input.
 */
module Scenarios {
  import opened Wrappers
  import opened Commands
  import opened Moves
  import opened Session
  import SimpleTracker
  import ObjectTracker

  /** A command line is interpreted like any other spelling that differs
      from it only in letter case and surrounding whitespace, for moves
      and for STOP alike. */
  lemma InterpretIgnoresSpelling(a: string, s: string, b: string, t: string)
    requires AllSpace(a) && AllSpace(b)
    requires UpperString(s) == UpperString(t)
    ensures Normalize(a + s + b) == Normalize(t)
    ensures Interpret(a + s + b) == Interpret(t)
    ensures IsStop(a + s + b) <==> IsStop(t)
  {
    NormalizeIgnoresPadding(a, s, b);
    NormalizeIgnoresCase(s, t);
  }

  /** `n`, `N`, `north` and `North` all move north. */
  lemma NorthSpellings()
    ensures Interpret("n") == Some(North) && Interpret("N") == Some(North)
    ensures Interpret("north") == Some(North) && Interpret("North") == Some(North)
  {
    NormalizeOfWord("n");
    NormalizeOfWord("N");
    NormalizeOfWord("north");
    NormalizeOfWord("North");
  }

  lemma PaddedNorthNormal()
    ensures Normalize("  NORTH ") == "NORTH"
  {
    NormalizeOfWord("NORTH");
    assert AllSpace("  ") && AllSpace(" ");
    assert "  NORTH " == "  " + "NORTH" + " ";
    NormalizeIgnoresPadding("  ", "NORTH", " ");
  }

  /** Surrounding whitespace is ignored: `"  NORTH "` moves north. */
  lemma PaddedNorth()
    ensures Interpret("  NORTH ") == Some(North)
  {
    PaddedNorthNormal();
  }

  lemma PaddedStopNormal()
    ensures Normalize(" Stop ") == "STOP"
  {
    NormalizeOfWord("Stop");
    assert AllSpace(" ");
    assert " Stop " == " " + "Stop" + " ";
    NormalizeIgnoresPadding(" ", "Stop", " ");
  }

  /** `STOP` in any case and padding ends the session; it is never a move. */
  lemma StopSpellings()
    ensures IsStop("STOP") && IsStop("stop") && IsStop(" Stop ")
    ensures Interpret("STOP") == None
  {
    WordStopUpper();
    WordStop();
    PaddedStopNormal();
  }

  /** A session of direction lines followed by STOP accepts exactly those
      directions, whatever comes after the STOP. */
  lemma MovesThenStop(before: seq<string>, stop: string, after: seq<string>, ds: seq<Direction>)
    requires |before| == |ds|
    requires forall j :: 0 <= j < |ds| ==> Interpret(before[j]) == Some(ds[j])
    requires IsStop(stop)
    ensures AcceptedMoves(SessionPrefix(before + [stop] + after)) == ds
    ensures FinalPosition(before + [stop] + after) == Walk(Origin, ds)
  {
    StopEndsSession(before, stop, after);
    AcceptedMovesOfMoves(before, ds);
  }

  // The lines of the sessions below, each read on its own.

  lemma WordNorth()
    ensures Interpret("north") == Some(North) && !IsStop("north")
  {
    NormalizeOfWord("north");
  }

  lemma WordEast()
    ensures Interpret("East") == Some(East) && !IsStop("East")
  {
    NormalizeOfWord("East");
  }

  lemma WordE()
    ensures Interpret("e") == Some(East) && !IsStop("e")
  {
    NormalizeOfWord("e");
  }

  lemma WordN()
    ensures Interpret("N") == Some(North) && !IsStop("N")
  {
    NormalizeOfWord("N");
  }

  lemma WordS()
    ensures Interpret("S") == Some(South) && !IsStop("S")
  {
    NormalizeOfWord("S");
  }

  lemma WordJump()
    ensures Interpret("jump") == None && !IsStop("jump")
  {
    NormalizeOfWord("jump");
    assert UpperString("jump") == "JUMP";
  }

  lemma WordStopUpper()
    ensures IsStop("STOP") && Interpret("STOP") == None
  {
    NormalizeOfWord("STOP");
  }

  lemma WordStop()
    ensures IsStop("stop")
  {
    NormalizeOfWord("stop");
  }

  lemma WalkNorthEastEast()
    ensures Walk(Origin, [North, East, East]) == (2, 1)
  {
    var ds := [North, East, East];
    assert ds[..2] == [North, East] && ds[..2][..1] == [North];
    assert Walk(Origin, [North]) == (0, 1);
  }

  /** `["north", "East", "e", "STOP"]` ends at (2, 1) after three moves. */
  lemma SessionNorthEastEast()
    ensures AcceptedMoves(SessionPrefix(["north", "East", "e", "STOP"])) == [North, East, East]
    ensures FinalPosition(["north", "East", "e", "STOP"]) == (2, 1)
  {
    WordNorth();
    WordEast();
    WordE();
    WordStopUpper();
    var before, ds := ["north", "East", "e"], [North, East, East];
    assert forall j :: 0 <= j < |ds| ==> Interpret(before[j]) == Some(ds[j]) by {
      forall j | 0 <= j < |ds| ensures Interpret(before[j]) == Some(ds[j]) {
        if j == 0 { assert before[j] == "north"; }
        else if j == 1 { assert before[j] == "East"; }
        else { assert before[j] == "e"; }
      }
    }
    assert ["north", "East", "e", "STOP"] == before + ["STOP"] + [];
    MovesThenStop(before, "STOP", [], ds);
    WalkNorthEastEast();
  }

  /** `["N", "S", "stop"]` comes back to the origin. */
  lemma SessionNorthSouth()
    ensures AcceptedMoves(SessionPrefix(["N", "S", "stop"])) == [North, South]
    ensures FinalPosition(["N", "S", "stop"]) == Origin
  {
    WordN();
    WordS();
    WordStop();
    assert ["N", "S", "stop"] == ["N", "S"] + ["stop"] + [];
    MovesThenStop(["N", "S"], "stop", [], [North, South]);
  }

  /** `["jump", "STOP"]` is rejected once and moves nothing. */
  lemma SessionJump()
    ensures AcceptedMoves(SessionPrefix(["jump", "STOP"])) == []
    ensures FinalPosition(["jump", "STOP"]) == Origin
  {
    WordJump();
    WordStopUpper();
    assert ["jump", "STOP"] == ["jump"] + ["STOP"] + [];
    StopEndsSession(["jump"], "STOP", []);
    AcceptedMovesCount(["jump"]);
  }

  /** The two variants are interchangeable: on the same command lines,
      `gps_tracker` and a fresh `GPSTracker` running `run_simulation` end
      at the same position with the same origin verdict, and the object's
      history has one entry per accepted move. */
  method VariantsAgree(commands: seq<string>)
    returns (x: int, y: int, returnedToOrigin: bool, summary: ObjectTracker.Summary)
    ensures summary.finalPosition == (x, y) == FinalPosition(commands)
    ensures summary.returnedToOrigin == returnedToOrigin
    ensures summary.totalMoves == |AcceptedMoves(SessionPrefix(commands))|
  {
    x, y, returnedToOrigin := SimpleTracker.GpsTracker(commands);
    var tracker := new ObjectTracker.GPSTracker();
    summary := tracker.RunSimulation(commands);
  }
}
