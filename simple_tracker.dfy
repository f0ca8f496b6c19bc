/**
  The plain-function variant, `gps_tracker`: two local integers updated by
  a loop over the command lines until STOP, then the origin verdict.
  The interactive reads become the sequence `commands`; the printed
  feedback and banners are not modelled.
 */
module SimpleTracker {
  import opened Wrappers
  import opened Commands
  import opened Moves
  import opened Session

  /** The dispatch inside the loop of `gps_tracker`: a normalised token
      moves the position by the unit step it names, and any other token
      leaves it where it is. */
  method Move(x: int, y: int, commandUpper: string) returns (x': int, y': int)
    ensures (x', y') == StepBy((x, y), ParseDirection(commandUpper))
  {
    x', y' := x, y;
    if commandUpper == "N" || commandUpper == "NORTH" {
      y' := y + 1;
    } else if commandUpper == "S" || commandUpper == "SOUTH" {
      y' := y - 1;
    } else if commandUpper == "E" || commandUpper == "EAST" {
      x' := x + 1;
    } else if commandUpper == "W" || commandUpper == "WEST" {
      x' := x - 1;
    }
  }

  /** Runs one session of `gps_tracker` over `commands` and returns the
      final position and whether it is the origin. */
  method GpsTracker(commands: seq<string>) returns (x: int, y: int, returnedToOrigin: bool)
    ensures (x, y) == FinalPosition(commands)
    ensures (x, y) == Displacement(Labels(AcceptedMoves(SessionPrefix(commands))))
    ensures returnedToOrigin <==> x == 0 && y == 0
  {
    x, y := 0, 0;
    var i := 0;
    while i < |commands|
      invariant 0 <= i <= |commands|
      invariant forall j :: 0 <= j < i ==> !IsStop(commands[j])
      invariant (x, y) == Walk(Origin, AcceptedMoves(commands[..i]))
    {
      var command := Strip(commands[i]);
      if UpperString(command) == "STOP" {
        break;
      }
      var commandUpper := UpperString(command);
      assert commandUpper == Normalize(commands[i]);
      assert forall j :: 0 <= j < i + 1 ==> !IsStop(commands[j]);
      WalkStep(Origin, commands, i);
      x, y := Move(x, y, commandUpper);
      i := i + 1;
    }
    SessionPrefixAt(commands, i);
    DisplacementIsWalk(AcceptedMoves(SessionPrefix(commands)));
    returnedToOrigin := x == 0 && y == 0;
  }
}
