/** A game session: the messages the program handles, one after another,
    until the handler asks to quit. Reachability properties of the state
    machine are stated over such runs. */
module SnakeSession {
  import opened Snake

  /** One message, with the fruit position the random draws would give if
      this message is a tick on which the fruit is eaten. */
  datatype Event = Event(msg: Msg, draw: FruitDraw)

  /** The model after handling `events` in order, stopping at the first
      message that quits; the flag says whether the program quit. */
  function Run(m: Model, events: seq<Event>): (res: (Model, bool))
    requires Live(m)
    ensures !res.1 ==> Live(res.0)
    ensures res.1 ==> Live(res.0) || Crashed(res.0)
    decreases |events|
  {
    if events == [] then (m, false)
    else
      var (m1, quit) := Next(m, events[0].msg, events[0].draw);
      if quit then (m1, true) else Run(m1, events[1..])
  }

  predicate NoTicks(events: seq<Event>) {
    forall i :: 0 <= i < |events| ==> !events[i].msg.TickMsg?
  }

  /** The score never goes down during a session. */
  lemma {:induction false} ScoreNeverDecreases(m: Model, events: seq<Event>)
    requires Live(m)
    ensures m.score <= Run(m, events).0.score
    decreases |events|
  {
    if events != [] {
      var (m1, quit) := Next(m, events[0].msg, events[0].draw);
      if !quit {
        ScoreNeverDecreases(m1, events[1..]);
      }
    }
  }

  /** Key presses alone never move the snake, change the score or move the
      fruit, and never end the game. */
  lemma {:induction false} KeysNeverMoveTheSnake(m: Model, events: seq<Event>)
    requires Live(m) && NoTicks(events)
    ensures var (last, _) := Run(m, events);
      last.snakeCells == m.snakeCells && last.score == m.score &&
      last.fruitCell == m.fruitCell && Live(last)
    decreases |events|
  {
    if events != [] {
      var (m1, quit) := Next(m, events[0].msg, events[0].draw);
      if !quit {
        assert NoTicks(events[1..]) by {
          forall i | 0 <= i < |events[1..]| ensures !events[1..][i].msg.TickMsg? {
            assert events[1..][i] == events[i + 1];
          }
        }
        KeysNeverMoveTheSnake(m1, events[1..]);
      }
    }
  }

  /** A crash always ends the session: the game is only ever `Ended` in the
      last state of a session that quit, and then it kept one cell fewer
      than three plus the score. */
  lemma EndedOnlyOnQuit(m: Model, events: seq<Event>)
    requires Live(m)
    ensures Run(m, events).0.gameState == Ended ==>
      Run(m, events).1 && |Run(m, events).0.snakeCells| == Run(m, events).0.score + 2
  {
  }

  /** A direction key pressed during play does not steer the tick that
      follows it: that tick still moves along the old current direction,
      and the new direction is adopted after it unless the tick crashed. */
  lemma DirectionTakesEffectNextTick(m: Model, key: string, d1: FruitDraw, d2: FruitDraw)
    requires Live(m) && m.gameState == Playing && KeyDirection(key).Some?
    ensures var (m1, _) := Next(m, KeyMsg(key), d1);
      var (m2, crash) := Next(m1, TickMsg, d2);
      var head := Advance(m.snakeCells[0], m.currentDirection);
      (!crash && !Eats(m1) ==> m2.snakeCells[0] == head) &&
      (!crash && Eats(m1) ==> m2.snakeCells[|m1.snakeCells|] == head) &&
      (!crash ==> m2.currentDirection == m1.newDirection) &&
      (crash ==> m2.currentDirection == m.currentDirection)
  {
  }

  /** Space sets the phase to playing from any phase, so pressing it again
      changes nothing more. */
  lemma SpaceIsIdempotent(m: Model, d1: FruitDraw, d2: FruitDraw)
    ensures var (m1, _) := Next(m, KeyMsg(" "), d1);
      m1.gameState == Playing && Next(m1, KeyMsg(" "), d2) == (m1, false)
  {
  }

  /** Space also revives a crashed game; it is then playing with a snake
      shorter than a live game of that score has. */
  lemma SpaceRevivesACrashedGame(m: Model, draw: FruitDraw)
    requires Crashed(m)
    ensures var (m1, quit) := Next(m, KeyMsg(" "), draw);
      !quit && m1.gameState == Playing && |m1.snakeCells| == m1.score + 2 && !Live(m1)
  {
  }

  // ---------------------------------------------------------------------
  // Scenarios

  /** The model `initialModel` builds (the contract of InitialModel), set
      playing. */
  predicate StartedGame(m: Model) {
    m.gameState == Playing && m.score == 0 &&
    m.snakeCells == [Cell(8, 5), Cell(8, 6), Cell(8, 7)] && m.fruitCell == Cell(8, 16) &&
    m.currentDirection == Right && m.newDirection == Right
  }

  /** The seeded snake has its head at the left end while moving right, so
      the first tick moves the head onto the second cell: the snake then
      occupies one cell twice, with no crash. */
  lemma FirstTickOverlapsTheBody(m: Model, draw: FruitDraw)
    requires StartedGame(m)
    ensures Next(m, TickMsg, draw).1 == false
    ensures Next(m, TickMsg, draw).0.snakeCells == [Cell(8, 6), Cell(8, 5), Cell(8, 6)]
  {
  }

  /** A head at the top row moving up leaves the board: the tick crashes. */
  lemma TopWallCrash(m: Model, draw: FruitDraw)
    requires m.gameState == Playing && |m.snakeCells| >= 3
    requires m.snakeCells[0] == Cell(0, 5) && m.currentDirection == Up
    ensures Next(m, TickMsg, draw).1 && Next(m, TickMsg, draw).0.gameState == Ended
  {
  }

  /** Eating: the score and the length grow by one, the fruit moves into
      its draw range, and the head cell is added at the tail end, so index
      0 stays where it was. */
  lemma EatingTick(m: Model, draw: FruitDraw)
    requires Live(m) && m.gameState == Playing
    requires m.snakeCells[0] == Cell(5, 5) && m.currentDirection == Right && m.fruitCell == Cell(5, 6)
    requires Cell(5, 6) !in m.snakeCells
    ensures var (m1, quit) := Next(m, TickMsg, draw);
      !quit && m1.score == m.score + 1 && |m1.snakeCells| == |m.snakeCells| + 1 &&
      m1.snakeCells[0] == Cell(5, 5) && m1.snakeCells[|m.snakeCells|] == Cell(5, 6) &&
      m1.fruitCell == draw
  {
  }

  /** With the snake moving right, a left key is ignored: the model,
      current direction included, is unchanged. */
  lemma NoReversal(m: Model, d1: FruitDraw)
    requires Live(m) && m.currentDirection == Right
    ensures Next(m, KeyMsg("left"), d1) == (m, false)
  {
  }
}
