# GPS tracker, modelled in Dafny

`main.py` simulates a player who moves on an unbounded integer grid. The
player starts at the origin `(0, 0)` and types commands one per line. Each
line is normalised with `strip().upper()`:

- `N`/`NORTH` moves one unit north (y+1), `S`/`SOUTH` south (y−1),
  `E`/`EAST` east (x+1), `W`/`WEST` west (x−1);
- `STOP` ends the session;
- every other line is rejected and changes nothing.

At the end the program reports the final position and whether the player
came back to the origin.

The program has two variants:

- `gps_tracker` keeps only two local integers.
- The class `GPSTracker` keeps the position in fields. It also keeps a
  move history, the list of the labels `"North"`, `"South"`, `"East"` and
  `"West"`, and reports the number of moves and the trail.

This project models both variants. It proves them against one reference
definition of a session:

- the session is the lines before the first line that normalises to
  `STOP`;
- the accepted moves are the directions those lines name, in order;
- the final position is the walk of those unit steps from the start.

Modules:

- `Commands` (`commands.dfy`): ASCII `strip()` and `upper()`, and the
  normal form of a command line.
- `Moves` (`moves.dfy`): directions, tokens, history labels, unit steps,
  walks, and the entry-count reading of a history.
- `Session` (`session.dfy`): the reference definition of a session.
- `SimpleTracker` (`simple_tracker.dfy`): the loop of `gps_tracker` as a
  method.
- `ObjectTracker` (`tracker.dfy`): the class `GPSTracker`, whose methods
  update its fields in place.
- `Scenarios` (`scenarios.dfy`): spelling examples, example sessions, and
  the agreement of the two variants.
- `Wrappers` (`wrappers.dfy`): the `Option` type that stands for Python's
  `None` or a value.

The class invariant `Valid()` says two things. The history is the labels
of the accepted moves. The position is the vector sum of the history:
`x = #East − #West` and `y = #North − #South`. Every state-changing method
requires it and keeps it.

The interactive `input()` loop becomes a loop over a given `seq<string>` of
command lines. The loop ends at the first STOP line, or when the lines run
out.

## Model

| member | source | states |
|---|---|---|
| Commands.UpperString | main.py:28 | `upper()` keeps the length of the line; what each character becomes is stated by UpperStringAt |
| Commands.UpperStringAt | main.py:28 | each character of the upper-cased line is the ASCII upper-case of the character at the same position |
| Commands.Strip | main.py:21 | `strip()` is never longer than the line; StripSpec states what it keeps |
| Commands.Normalize | main.py:108 | `strip().upper()` is never longer than the line; NormalizeSpec, NormalizeIdempotent, NormalizeIgnoresCase and NormalizeIgnoresPadding state what it is |
| Commands.StripSpec | main.py:21 | `strip()` returns the slice of the line between leading and trailing whitespace, and that slice neither starts nor ends with whitespace |
| Commands.NormalizeSpec | main.py:108 | the normal form `strip().upper()` has no whitespace at either end and no lower-case letter |
| Commands.NormalizeIdempotent | main.py:108 | normalising a normal form changes nothing |
| Commands.NormalizeIgnoresCase | main.py:28 | two lines that upper-case to the same text have the same normal form |
| Commands.NormalizeIgnoresPadding | main.py:108 | whitespace added before and after a line does not change its normal form |
| Moves.ParseDirection | main.py:110-119 | a normalised token selects direction d exactly when it is one of d's two spellings (`N`/`NORTH`, …); it selects nothing exactly when it is none of the eight |
| Moves.Interpret | main.py:108-119 | a raw line selects direction d exactly when its normal form is one of d's two spellings |
| Moves.IsStop | main.py:136 | the loop's STOP test on the normal form; a STOP line is never interpreted as a move |
| Moves.StopIsNotAMove | main.py:118-119 | a STOP line is not a direction: `process_command` would reject it |
| Moves.Step | main.py:29-40 | a unit step changes exactly one coordinate by exactly one: North y+1, South y−1, East x+1, West x−1 |
| Moves.DisplacementAppend | main.py:75-97 | appending one label to a history moves its entry-count vector by that direction's unit step |
| Moves.DisplacementConcat | main.py:75-97 | appending the labels of a sequence of moves moves the entry-count vector exactly as walking those moves does |
| Moves.DisplacementIsWalk | main.py:67-97 | the entry counts of the labels of a sequence of moves equal the walk of those moves from the origin |
| Moves.WalkConcat | main.py:19-43 | walking moves a then b ends where walking a + b ends |
| Moves.WalkTranslates | main.py:7 | a walk from any start is the walk from the origin shifted by that start |
| Moves.LabelIsCommand | main.py:78-96 | every label the history records is itself a command for the same direction, and none of them is STOP |
| Session.SessionPrefix | main.py:133-137 | the processed lines are a prefix of the input; none of them is STOP; the line right after them, if there is one, is STOP |
| Session.SessionPrefixAt | main.py:19-25 | if no line before n is STOP and line n is STOP (or n is the end of the input), the session is exactly the first n lines |
| Session.StopEndsSession | main.py:24-25 | a session ends at its first STOP whatever follows it, and the STOP line moves nothing |
| Session.RejectedLineIsIgnored | main.py:41-43 | inserting a rejected line that is not STOP anywhere leaves the accepted moves of the session unchanged |
| Session.AcceptedMovesCount | main.py:139-151 | every line is accepted exactly when there are as many moves as lines; no line is accepted exactly when there are no moves |
| Session.AcceptedMovesOfMoves | main.py:110-117 | lines that each name a direction are all accepted, in order |
| Session.AcceptedMovesConcat | main.py:133-145 | the accepted moves of a + b are those of a followed by those of b |
| Session.AcceptedMovesStep | main.py:139 | processing one more line extends the accepted moves by that line's direction, if it names one |
| Session.WalkStep | main.py:28-43 | processing one more line moves the position by that line's step, if it has one |
| Session.AcceptedMovesOfLabels | main.py:78-96 | read back as commands, a history of labels is accepted move for move |
| Session.ReplayHistory | main.py:133-145 | replaying a history as a session processes every entry and ends at the walk of its moves |
| SimpleTracker.Move | main.py:28-43 | the dispatch on a normalised token moves the position by exactly the step that the token's direction names, and leaves it unchanged for any other token |
| SimpleTracker.GpsTracker | main.py:1-56 | the loop ends at the walk from the origin of the session's accepted moves; that point is the entry-count vector of their labels; the verdict is true exactly at the origin |
| ObjectTracker.GPSTracker.constructor | main.py:65-69 | a fresh tracker is at (0, 0) with an empty history and satisfies the invariant |
| ObjectTracker.GPSTracker.GetPosition | main.py:71-73 | returns (x, y); on a valid tracker, this is the vector sum of the history |
| ObjectTracker.GPSTracker.IsAtOrigin | main.py:99-101 | true exactly when x = 0 and y = 0; on a valid tracker, exactly when the history has as many North as South entries and as many East as West entries |
| ObjectTracker.GPSTracker.MoveNorth | main.py:75-79 | y grows by one and x is unchanged; "North" is appended to the history with earlier entries kept; the invariant holds; returns the new position |
| ObjectTracker.GPSTracker.MoveSouth | main.py:81-85 | y shrinks by one and x is unchanged; "South" is appended; the invariant holds; returns the new position |
| ObjectTracker.GPSTracker.MoveEast | main.py:87-91 | x grows by one and y is unchanged; "East" is appended; the invariant holds; returns the new position |
| ObjectTracker.GPSTracker.MoveWest | main.py:93-97 | x shrinks by one and y is unchanged; "West" is appended; the invariant holds; returns the new position |
| ObjectTracker.GPSTracker.ProcessCommand | main.py:103-119 | the outcome depends only on the line's normal form. An accepted line moves one step, appends its label and returns the new position. A rejected line, STOP included, returns None and leaves x, y and the history unchanged |
| ObjectTracker.GPSTracker.RunSimulation | main.py:121-161 | the history grows by the labels of the session's accepted moves; the position moves by their walk; the invariant holds; the summary reports the final position, the number of moves (the history length), the origin verdict and the trail |
| Scenarios.InterpretIgnoresSpelling | main.py:108-117 | a line that differs from another only in case and surrounding whitespace is handled the same way, as a move and as STOP |
| Scenarios.NorthSpellings | main.py:108-111 | `n`, `N`, `north` and `North` all move north |
| Scenarios.PaddedNorth | main.py:108 | `"  NORTH "` moves north |
| Scenarios.StopSpellings | main.py:134-137 | `STOP`, `stop` and `" Stop "` end the session, and STOP is not a move |
| Scenarios.MovesThenStop | main.py:133-145 | direction lines followed by STOP accept exactly those directions, whatever comes after the STOP |
| Scenarios.SessionNorthEastEast | main.py:19-48 | `north, East, e, STOP` accepts North, East, East and ends at (2, 1) |
| Scenarios.SessionNorthSouth | main.py:19-52 | `N, S, stop` accepts North, South and ends at the origin |
| Scenarios.SessionJump | main.py:41-54 | `jump, STOP` accepts nothing and ends at the origin |
| Scenarios.VariantsAgree | main.py:164-181 | on the same lines, `gps_tracker` and a fresh `GPSTracker` reach the same final position, the session's FinalPosition, with the same origin verdict, and the object counts one move per accepted line |

## Left out

- Printed output is not modelled: the banners, the per-move feedback, the
  invalid-command message and the end-of-session report.
  `RunSimulation` returns the report's contents as a `Summary` value.
- `input()` is not modelled. The lines come from a given sequence, and the
  session also ends when the sequence runs out. At that point Python would
  raise `EOFError`.
- The `__main__` version selector (main.py:164-181) is not modelled. It
  only reads a choice and calls one of the two variants.
  `Scenarios.VariantsAgree` states what choosing either variant means.
- Non-ASCII behaviour of Python's `str.strip()` and `str.upper()` is not
  modelled. `strip()` is modelled over the ASCII whitespace that Python
  removes (codes 9–13, 28–31 and space). `upper()` maps `a`–`z` and keeps
  every other character. So, for example, Python upper-cases U+017F
  (long s) to `S` and accepts it as South, while the model rejects it.
- The truthiness test `if new_position:` (main.py:141) is modelled as
  "the result is not None". A returned tuple is always truthy.
- ObjectTracker.GPSTracker.RunSimulation: the trail is returned as the list of labels. The model
  does not join it with `" -> "`, and does not print it only when the list
  is non-empty.
- SimpleTracker.Move: the dispatch chain inside the loop of
  `gps_tracker` (main.py:28-40) is written as a separate method. The loop
  calls it with the normalised line.
- ObjectTracker.GPSTracker: the class has a ghost field `moves` that the
  Python class does not have. It holds the directions whose labels make up
  the history, and proofs use it only.
