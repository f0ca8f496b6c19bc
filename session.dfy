/**
  The session controller as a reference definition over a finite sequence
  of command lines: the session consists of the lines before the first
  STOP, the accepted moves are the lines among those that name a
  direction, and the final position is the walk of those moves from the
  origin. Both loops of the program are proved against these functions.
 */
module Session {
  import opened Wrappers
  import opened Commands
  import opened Moves

  /** The lines the loop processes: those before the first line that
      normalises to STOP, or all of them when none does. */
  function SessionPrefix(commands: seq<string>): (r: seq<string>)
    ensures |r| <= |commands| && r == commands[..|r|]
    ensures forall j :: 0 <= j < |r| ==> !IsStop(r[j])
    ensures |r| < |commands| ==> IsStop(commands[|r|])
  {
    if commands == [] || IsStop(commands[0]) then []
    else
      var rest := SessionPrefix(commands[1..]);
      var r := [commands[0]] + rest;
      assert r == commands[..|r|] by {
        assert commands[..|r|] == [commands[0]] + commands[1..][..|rest|];
      }
      assert forall j :: 0 <= j < |r| ==> !IsStop(r[j]) by {
        forall j | 0 <= j < |r| ensures !IsStop(r[j]) {
          if j > 0 { assert r[j] == rest[j - 1]; }
        }
      }
      r
  }

  /** The characterisation above pins the session down: if no line before
      `n` is STOP and line `n` is STOP (or there is none), the session is
      exactly the first `n` lines. */
  lemma SessionPrefixAt(commands: seq<string>, n: nat)
    requires n <= |commands|
    requires forall j :: 0 <= j < n ==> !IsStop(commands[j])
    requires n == |commands| || IsStop(commands[n])
    ensures SessionPrefix(commands) == commands[..n]
  {
  }

  /** What each line asks for, line by line. */
  function Parsed(commands: seq<string>): (ms: seq<Option<Direction>>)
    ensures |ms| == |commands|
  {
    seq(|commands|, i requires 0 <= i < |commands| => Interpret(commands[i]))
  }

  /** The directions among `ms`, in order. */
  function Somes(ms: seq<Option<Direction>>): (r: seq<Direction>)
    ensures |r| <= |ms|
  {
    if ms == [] then [] else Somes(ms[..|ms| - 1]) + Moved(ms[|ms| - 1])
  }

  /** The moves the accepted lines ask for, in order; rejected lines
      contribute nothing. */
  function AcceptedMoves(commands: seq<string>): (r: seq<Direction>)
    ensures |r| <= |commands|
  {
    Somes(Parsed(commands))
  }

  lemma SomesAppend(ms: seq<Option<Direction>>, m: Option<Direction>)
    ensures Somes(ms + [m]) == Somes(ms) + Moved(m)
  {
    assert (ms + [m])[..|ms|] == ms;
  }

  lemma {:induction false} SomesConcat(a: seq<Option<Direction>>, b: seq<Option<Direction>>)
    ensures Somes(a + b) == Somes(a) + Somes(b)
    decreases |b|
  {
    if b == [] {
      assert a + b == a;
    } else {
      var n := |b| - 1;
      assert (a + b)[..|a + b| - 1] == a + b[..n];
      assert (a + b)[|a + b| - 1] == b[n];
      SomesConcat(a, b[..n]);
    }
  }

  /** When every entry is a direction, all of them are kept, in order. */
  lemma {:induction false} SomesOfMoves(ms: seq<Option<Direction>>, ds: seq<Direction>)
    requires |ms| == |ds|
    requires forall j :: 0 <= j < |ds| ==> ms[j] == Some(ds[j])
    ensures Somes(ms) == ds
    decreases |ds|
  {
    if ds != [] {
      var n := |ds| - 1;
      SomesOfMoves(ms[..n], ds[..n]);
      assert ds == ds[..n] + [ds[n]];
    }
  }

  /** All entries are kept exactly when all are directions. */
  lemma {:induction false} SomesKeepsAll(ms: seq<Option<Direction>>)
    ensures |Somes(ms)| == |ms| <==> forall j :: 0 <= j < |ms| ==> ms[j].Some?
    decreases |ms|
  {
    if ms != [] {
      var n := |ms| - 1;
      SomesKeepsAll(ms[..n]);
      assert forall j :: 0 <= j < n ==> ms[..n][j] == ms[j];
    }
  }

  /** Nothing is kept exactly when no entry is a direction. */
  lemma {:induction false} SomesKeepsNone(ms: seq<Option<Direction>>)
    ensures Somes(ms) == [] <==> forall j :: 0 <= j < |ms| ==> ms[j] == None
    decreases |ms|
  {
    if ms != [] {
      var n := |ms| - 1;
      SomesKeepsNone(ms[..n]);
      assert forall j :: 0 <= j < n ==> ms[..n][j] == ms[j];
    }
  }

  /** One move per accepted line: every line is accepted exactly when the
      moves are as many as the lines, and none is accepted exactly when
      there are no moves. */
  lemma AcceptedMovesCount(commands: seq<string>)
    ensures |AcceptedMoves(commands)| == |commands| <==> forall j :: 0 <= j < |commands| ==> Interpret(commands[j]).Some?
    ensures AcceptedMoves(commands) == [] <==> forall j :: 0 <= j < |commands| ==> Interpret(commands[j]) == None
  {
    var ms := Parsed(commands);
    SomesKeepsAll(ms);
    SomesKeepsNone(ms);
    assert forall j :: 0 <= j < |commands| ==> ms[j] == Interpret(commands[j]);
  }

  lemma ParsedConcat(a: seq<string>, b: seq<string>)
    ensures Parsed(a + b) == Parsed(a) + Parsed(b)
  {
  }

  /** Processing one more line extends the accepted moves by its move,
      if it has one. */
  lemma AcceptedMovesStep(commands: seq<string>, i: nat)
    requires i < |commands|
    ensures AcceptedMoves(commands[..i + 1]) == AcceptedMoves(commands[..i]) + Moved(Interpret(commands[i]))
  {
    assert commands[..i + 1] == commands[..i] + [commands[i]];
    ParsedConcat(commands[..i], [commands[i]]);
    SomesAppend(Parsed(commands[..i]), Interpret(commands[i]));
  }

  /** A state that records the accepted moves of the first `i` lines,
      extended by what line `i` contributes, records those of the first
      `i + 1` lines. */
  lemma AcceptedMovesExtend(start: seq<Direction>, commands: seq<string>, i: nat,
                            before: seq<Direction>, after: seq<Direction>)
    requires i < |commands|
    requires before == start + AcceptedMoves(commands[..i])
    requires after == before + Moved(Interpret(commands[i]))
    ensures after == start + AcceptedMoves(commands[..i + 1])
  {
    AcceptedMovesStep(commands, i);
  }

  /** Processing one more line moves the walk by that line's step, if any. */
  lemma WalkStep(p: Position, commands: seq<string>, i: nat)
    requires i < |commands|
    ensures Walk(p, AcceptedMoves(commands[..i + 1])) == StepBy(Walk(p, AcceptedMoves(commands[..i])), Interpret(commands[i]))
  {
    AcceptedMovesStep(commands, i);
    var a := AcceptedMoves(commands[..i]);
    match Interpret(commands[i])
    case Some(d) => assert (a + [d])[..|a|] == a;
    case None => assert a + [] == a;
  }

  lemma AcceptedMovesConcat(a: seq<string>, b: seq<string>)
    ensures AcceptedMoves(a + b) == AcceptedMoves(a) + AcceptedMoves(b)
  {
    ParsedConcat(a, b);
    SomesConcat(Parsed(a), Parsed(b));
  }

  /** The position a session ends at, starting from the origin. */
  function FinalPosition(commands: seq<string>): Position {
    Walk(Origin, AcceptedMoves(SessionPrefix(commands)))
  }

  /** STOP ends the session: no line after the first STOP is processed,
      and the STOP line itself moves nothing. */
  lemma StopEndsSession(before: seq<string>, stop: string, after: seq<string>)
    requires forall j :: 0 <= j < |before| ==> !IsStop(before[j])
    requires IsStop(stop)
    ensures SessionPrefix(before + [stop] + after) == before
    ensures FinalPosition(before + [stop] + after) == Walk(Origin, AcceptedMoves(before))
  {
    var c := before + [stop] + after;
    assert c[..|before|] == before;
    SessionPrefixAt(c, |before|);
  }

  /** A rejected line that is not STOP changes nothing: the session ends
      where it would have ended without it. */
  lemma {:induction false} RejectedLineIsIgnored(before: seq<string>, line: string, after: seq<string>)
    requires Interpret(line) == None && !IsStop(line)
    ensures AcceptedMoves(SessionPrefix(before + [line] + after)) == AcceptedMoves(SessionPrefix(before + after))
    decreases |before|
  {
    if before == [] {
      assert [line] + after == before + [line] + after;
      assert ([line] + after)[1..] == after;
      assert before + after == after;
      AcceptedMovesConcat([line], SessionPrefix(after));
      assert AcceptedMoves([line]) == [] by {
        assert [line][..0] == [];
      }
    } else if IsStop(before[0]) {
      assert (before + [line] + after)[0] == before[0];
      assert (before + after)[0] == before[0];
    } else {
      var c := before + [line] + after;
      var d := before + after;
      assert c[0] == before[0] && d[0] == before[0];
      assert c[1..] == before[1..] + [line] + after;
      assert d[1..] == before[1..] + after;
      RejectedLineIsIgnored(before[1..], line, after);
      AcceptedMovesConcat([before[0]], SessionPrefix(c[1..]));
      AcceptedMovesConcat([before[0]], SessionPrefix(d[1..]));
    }
  }

  /** No history label is STOP. */
  lemma LabelsNeverStop(ds: seq<Direction>)
    ensures forall j :: 0 <= j < |ds| ==> !IsStop(Labels(ds)[j])
  {
    forall j | 0 <= j < |ds| ensures !IsStop(Labels(ds)[j]) {
      LabelIsCommand(ds[j]);
    }
  }

  /** Lines that each name a direction are all accepted, in order. */
  lemma AcceptedMovesOfMoves(commands: seq<string>, ds: seq<Direction>)
    requires |commands| == |ds|
    requires forall j :: 0 <= j < |ds| ==> Interpret(commands[j]) == Some(ds[j])
    ensures AcceptedMoves(commands) == ds
  {
    SomesOfMoves(Parsed(commands), ds);
  }

  /** Every history label is accepted as its own direction. */
  lemma AcceptedMovesOfLabels(ds: seq<Direction>)
    ensures AcceptedMoves(Labels(ds)) == ds
  {
    var h := Labels(ds);
    forall j | 0 <= j < |ds| ensures Interpret(h[j]) == Some(ds[j]) {
      LabelIsCommand(ds[j]);
    }
    AcceptedMovesOfMoves(h, ds);
  }

  /** Replaying a move history as commands reproduces it: the whole history
      is processed and the session ends at the walk of its moves. */
  lemma ReplayHistory(ds: seq<Direction>)
    ensures SessionPrefix(Labels(ds)) == Labels(ds)
    ensures FinalPosition(Labels(ds)) == Walk(Origin, ds)
  {
    var h := Labels(ds);
    LabelsNeverStop(ds);
    SessionPrefixAt(h, |h|);
    assert h[..|h|] == h;
    AcceptedMovesOfLabels(ds);
  }
}
