/**
  The command vocabulary and the geometry of the grid: the four directions,
  the tokens that select them, the labels the move history records, unit
  steps on the unbounded integer grid, and the two ways of reading a
  position off a history (a walk of unit steps, or entry counts).
 */
module Moves {
  import opened Wrappers
  import opened Commands

  datatype Direction = North | South | East | West

  /** A position on the grid; coordinates are unbounded Python ints. */
  type Position = (int, int)

  const Origin: Position := (0, 0)

  /** The normalised tokens that select each direction. */
  function Tokens(d: Direction): set<string> {
    match d
    case North => {"N", "NORTH"}
    case South => {"S", "SOUTH"}
    case East => {"E", "EAST"}
    case West => {"W", "WEST"}
  }

  /** The entry appended to the move history for each direction. */
  function Label(d: Direction): string {
    match d
    case North => "North"
    case South => "South"
    case East => "East"
    case West => "West"
  }

  /** The dispatch of a normalised token: `Some(d)` exactly when the token is
      one of the spellings of `d`, `None` for every other token. */
  function ParseDirection(token: string): (r: Option<Direction>)
    ensures forall d :: r == Some(d) <==> token in Tokens(d)
    ensures r == None <==> forall d :: token !in Tokens(d)
  {
    if token == "N" || token == "NORTH" then Some(North)
    else if token == "S" || token == "SOUTH" then Some(South)
    else if token == "E" || token == "EAST" then Some(East)
    else if token == "W" || token == "WEST" then Some(West)
    else None
  }

  /** What a raw command line asks for: direction `d` exactly when its
      normal form is one of the spellings of `d`. */
  function Interpret(command: string): (r: Option<Direction>)
    ensures forall d :: r == Some(d) <==> Normalize(command) in Tokens(d)
  {
    ParseDirection(Normalize(command))
  }

  /** The loop's stop test: `command.strip().upper() == "STOP"`. */
  predicate IsStop(command: string)
    ensures IsStop(command) ==> Interpret(command) == None
  {
    Normalize(command) == "STOP"
  }

  /** STOP is not a move: only the session loop acts on it. */
  lemma StopIsNotAMove(command: string)
    requires IsStop(command)
    ensures Interpret(command) == None
  {
  }

  /** One unit step: exactly one coordinate changes, by exactly one. */
  function Step(p: Position, d: Direction): (q: Position)
    ensures (d == North || d == South) <==> q.0 == p.0
    ensures (d == East || d == West) <==> q.1 == p.1
    ensures q.0 - p.0 == (if d == East then 1 else if d == West then -1 else 0)
    ensures q.1 - p.1 == (if d == North then 1 else if d == South then -1 else 0)
  {
    match d
    case North => (p.0, p.1 + 1)
    case South => (p.0, p.1 - 1)
    case East => (p.0 + 1, p.1)
    case West => (p.0 - 1, p.1)
  }

  /** The step a command asks for, or none for a rejected command. */
  function StepBy(p: Position, move: Option<Direction>): Position {
    match move
    case Some(d) => Step(p, d)
    case None => p
  }

  /** The moves a command contributes: its direction, or none when it is
      rejected. */
  function Moved(move: Option<Direction>): seq<Direction> {
    match move
    case Some(d) => [d]
    case None => []
  }

  /** The history entries a command adds: its label, or none when it is
      rejected. */
  function Recorded(move: Option<Direction>): seq<string> {
    match move
    case Some(d) => [Label(d)]
    case None => []
  }

  /** The position reached from `p` by the unit steps `ds`, in order. */
  function Walk(p: Position, ds: seq<Direction>): Position {
    if ds == [] then p else Step(Walk(p, ds[..|ds| - 1]), ds[|ds| - 1])
  }

  /** The history entries recorded for a sequence of moves. */
  function Labels(ds: seq<Direction>): (h: seq<string>)
    ensures |h| == |ds|
    ensures forall i :: 0 <= i < |ds| ==> h[i] == Label(ds[i])
  {
    seq(|ds|, i requires 0 <= i < |ds| => Label(ds[i]))
  }

  lemma LabelsConcat(a: seq<Direction>, b: seq<Direction>)
    ensures Labels(a + b) == Labels(a) + Labels(b)
  {
  }

  /** How many entries of `h` equal `entry`. */
  function Count(h: seq<string>, entry: string): nat {
    if h == [] then 0 else Count(h[..|h| - 1], entry) + (if h[|h| - 1] == entry then 1 else 0)
  }

  /** The vector sum of a history: `x = #East - #West`, `y = #North - #South`. */
  function Displacement(h: seq<string>): Position {
    (Count(h, "East") - Count(h, "West"), Count(h, "North") - Count(h, "South"))
  }

  lemma {:induction false} CountAppend(h: seq<string>, s: string, entry: string)
    ensures Count(h + [s], entry) == Count(h, entry) + (if s == entry then 1 else 0)
  {
    assert (h + [s])[..|h|] == h;
  }

  /** Recording one more move moves the vector sum by that unit step. */
  lemma {:induction false} DisplacementAppend(h: seq<string>, d: Direction)
    ensures Displacement(h + [Label(d)]) == Step(Displacement(h), d)
  {
    CountAppend(h, Label(d), "North");
    CountAppend(h, Label(d), "South");
    CountAppend(h, Label(d), "East");
    CountAppend(h, Label(d), "West");
  }

  /** Appending the labels of `ds` to a history moves its vector sum exactly
      as walking `ds` does. */
  lemma {:induction false} DisplacementConcat(h: seq<string>, ds: seq<Direction>)
    ensures Displacement(h + Labels(ds)) == Walk(Displacement(h), ds)
    decreases |ds|
  {
    if ds == [] {
      assert h + Labels(ds) == h;
    } else {
      var n := |ds| - 1;
      DisplacementConcat(h, ds[..n]);
      assert h + Labels(ds) == (h + Labels(ds[..n])) + [Label(ds[n])];
      DisplacementAppend(h + Labels(ds[..n]), ds[n]);
    }
  }

  /** The two readings of a history agree: the entry counts of a history
      are the walk of its moves from the origin. */
  lemma DisplacementIsWalk(ds: seq<Direction>)
    ensures Displacement(Labels(ds)) == Walk(Origin, ds)
  {
    var empty: seq<string> := [];
    DisplacementConcat(empty, ds);
    assert Displacement(empty) == Origin;
    assert empty + Labels(ds) == Labels(ds);
  }

  /** Walking `a` then `b` is walking `a + b`. */
  lemma {:induction false} WalkConcat(p: Position, a: seq<Direction>, b: seq<Direction>)
    ensures Walk(p, a + b) == Walk(Walk(p, a), b)
    decreases |b|
  {
    if b == [] {
      assert a + b == a;
    } else {
      var n := |b| - 1;
      assert (a + b)[..|a + b| - 1] == a + b[..n];
      WalkConcat(p, a, b[..n]);
    }
  }

  /** A walk only translates its start: the route from `p` is the route
      from the origin shifted by `p`. */
  lemma {:induction false} WalkTranslates(p: Position, ds: seq<Direction>)
    ensures Walk(p, ds) == (p.0 + Walk(Origin, ds).0, p.1 + Walk(Origin, ds).1)
    decreases |ds|
  {
    if ds != [] {
      WalkTranslates(p, ds[..|ds| - 1]);
    }
  }

  /** Every history entry is itself a command for its own direction, and
      none of them is STOP. */
  lemma LabelIsCommand(d: Direction)
    ensures Interpret(Label(d)) == Some(d)
    ensures !IsStop(Label(d))
  {
    var l := Label(d);
    TrimStartOfTrimmed(l);
    TrimEndOfTrimmed(l);
    UpperStringAt(l);
    var u := UpperString(l);
    assert Normalize(l) == u;
    match d
    case North => assert u == "NORTH";
    case South => assert u == "SOUTH";
    case East => assert u == "EAST";
    case West => assert u == "WEST";
  }
}
