/**
  The object-oriented variant, class `GPSTracker`: the position and the
  move history are fields that the move methods update in place, and
  `RunSimulation` is the session loop over the command lines. The
  interactive reads become the sequence `commands`; the printed feedback
  and banners are not modelled, and the end-of-session report is returned
  as a `Summary` value instead.
 */
module ObjectTracker {
  import opened Wrappers
  import opened Commands
  import opened Moves
  import opened Session

  /** What the end-of-session report shows: final position, number of
      accepted moves, the origin verdict and the trail of directions. */
  datatype Summary = Summary(finalPosition: Position, totalMoves: nat, returnedToOrigin: bool, trail: seq<string>)

  class GPSTracker {
    var x: int
    var y: int
    var moveHistory: seq<string>
    /** The accepted moves, of which `moveHistory` is the list of labels. */
    ghost var moves: seq<Direction>

    /** The tracker's invariant: the history is the labels of the accepted
        moves and the position is its vector sum, `x = #East - #West` and
        `y = #North - #South`. */
    ghost predicate Valid()
      reads this
    {
      moveHistory == Labels(moves) &&
      (x, y) == Displacement(moveHistory)
    }

    /** A fresh tracker stands at the origin with an empty history. */
    constructor ()
      ensures Valid()
      ensures x == 0 && y == 0 && moveHistory == [] && moves == []
    {
      x := 0;
      y := 0;
      moveHistory := [];
      moves := [];
    }

    /** The current position; on a valid tracker it is the vector sum of
        the history. */
    function GetPosition(): (p: Position)
      reads this
      ensures p.0 == x && p.1 == y
      ensures Valid() ==> p == Displacement(moveHistory)
    {
      (x, y)
    }

    /** True exactly at the origin; on a valid tracker, exactly when the
        history holds as many North as South and as many East as West
        moves. */
    function IsAtOrigin(): (b: bool)
      reads this
      ensures b <==> x == 0 && y == 0
      ensures Valid() ==> (b <==> Count(moveHistory, "North") == Count(moveHistory, "South")
                                  && Count(moveHistory, "East") == Count(moveHistory, "West"))
    {
      x == 0 && y == 0
    }

    method MoveNorth() returns (p: Position)
      requires Valid()
      modifies this
      ensures Valid()
      ensures x == old(x) && y == old(y) + 1
      ensures moveHistory == old(moveHistory) + ["North"]
      ensures moves == old(moves) + [North]
      ensures p == (x, y)
    {
      DisplacementAppend(moveHistory, North);
      assert Labels(moves + [North]) == Labels(moves) + ["North"];
      y := y + 1;
      moveHistory := moveHistory + ["North"];
      moves := moves + [North];
      p := GetPosition();
    }

    method MoveSouth() returns (p: Position)
      requires Valid()
      modifies this
      ensures Valid()
      ensures x == old(x) && y == old(y) - 1
      ensures moveHistory == old(moveHistory) + ["South"]
      ensures moves == old(moves) + [South]
      ensures p == (x, y)
    {
      DisplacementAppend(moveHistory, South);
      assert Labels(moves + [South]) == Labels(moves) + ["South"];
      y := y - 1;
      moveHistory := moveHistory + ["South"];
      moves := moves + [South];
      p := GetPosition();
    }

    method MoveEast() returns (p: Position)
      requires Valid()
      modifies this
      ensures Valid()
      ensures x == old(x) + 1 && y == old(y)
      ensures moveHistory == old(moveHistory) + ["East"]
      ensures moves == old(moves) + [East]
      ensures p == (x, y)
    {
      DisplacementAppend(moveHistory, East);
      assert Labels(moves + [East]) == Labels(moves) + ["East"];
      x := x + 1;
      moveHistory := moveHistory + ["East"];
      moves := moves + [East];
      p := GetPosition();
    }

    method MoveWest() returns (p: Position)
      requires Valid()
      modifies this
      ensures Valid()
      ensures x == old(x) - 1 && y == old(y)
      ensures moveHistory == old(moveHistory) + ["West"]
      ensures moves == old(moves) + [West]
      ensures p == (x, y)
    {
      DisplacementAppend(moveHistory, West);
      assert Labels(moves + [West]) == Labels(moves) + ["West"];
      x := x - 1;
      moveHistory := moveHistory + ["West"];
      moves := moves + [West];
      p := GetPosition();
    }

    /** Applies one command line. The outcome depends only on its normal
        form: a direction token moves one unit that way, records its label
        and returns the new position; every other token, STOP included,
        returns None and changes nothing. */
    method ProcessCommand(command: string) returns (r: Option<Position>)
      requires Valid()
      modifies this
      ensures Valid()
      ensures (x, y) == StepBy(old((x, y)), Interpret(command))
      ensures moveHistory == old(moveHistory) + Recorded(Interpret(command))
      ensures moves == old(moves) + Moved(Interpret(command))
      ensures r == if Interpret(command).Some? then Some((x, y)) else None
      ensures r == None ==> x == old(x) && y == old(y) && moveHistory == old(moveHistory)
    {
      var commandUpper := UpperString(Strip(command));
      if commandUpper == "N" || commandUpper == "NORTH" {
        var p := MoveNorth();
        r := Some(p);
      } else if commandUpper == "S" || commandUpper == "SOUTH" {
        var p := MoveSouth();
        r := Some(p);
      } else if commandUpper == "E" || commandUpper == "EAST" {
        var p := MoveEast();
        r := Some(p);
      } else if commandUpper == "W" || commandUpper == "WEST" {
        var p := MoveWest();
        r := Some(p);
      } else {
        r := None;
      }
    }

    /** One session of `run_simulation` over `commands`: the lines before
        the first STOP are processed in order, the accepted ones extend
        the history by their labels and move the position by their steps,
        and nothing after STOP is looked at. */
    method RunSimulation(commands: seq<string>) returns (summary: Summary)
      requires Valid()
      modifies this
      ensures Valid()
      ensures moveHistory == old(moveHistory) + Labels(AcceptedMoves(SessionPrefix(commands)))
      ensures moves == old(moves) + AcceptedMoves(SessionPrefix(commands))
      ensures (x, y) == Walk(old((x, y)), AcceptedMoves(SessionPrefix(commands)))
      ensures summary == Summary((x, y), |moveHistory|, x == 0 && y == 0, moveHistory)
    {
      var i := 0;
      assert AcceptedMoves(commands[..0]) == [];
      assert moves + [] == moves;
      while i < |commands|
        invariant 0 <= i <= |commands|
        invariant Valid()
        invariant forall j :: 0 <= j < i ==> !IsStop(commands[j])
        invariant moves == old(moves) + AcceptedMoves(commands[..i])
      {
        var command := commands[i];
        if Normalize(command) == "STOP" {
          break;
        }
        assert forall j :: 0 <= j < i + 1 ==> !IsStop(commands[j]);
        ghost var movesBefore := moves;
        var newPosition := ProcessCommand(command);
        AcceptedMovesExtend(old(moves), commands, i, movesBefore, moves);
        i := i + 1;
      }
      SessionPrefixAt(commands, i);
      ghost var accepted := AcceptedMoves(SessionPrefix(commands));
      LabelsConcat(old(moves), accepted);
      DisplacementConcat(old(moveHistory), accepted);
      summary := Summary(GetPosition(), |moveHistory|, IsAtOrigin(), moveHistory);
    }
  }
}
