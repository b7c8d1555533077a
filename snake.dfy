/** The state machine of a terminal snake game: the game model, its initial
    value, the key/tick handler and the one-tick movement engine.

    The Go model is a struct passed by value, so it is a datatype here. Each
    core Go function becomes a method with the same loops, branches and
    early returns; UpdateSnake and Update assign fields of a local copy of
    the model and return it. Those two are proved equal to functions
    (SnakeStep, Next) whose contracts state what the tick and the key
    handling promise. */
module Snake {

  /** Board size: columns and rows. */
  const WIDTH: nat := 20
  const HEIGHT: nat := 16

  datatype Option<T> = None | Some(value: T)

  datatype Direction = Up | Down | Left | Right

  datatype Phase = Starting | Playing | Ended

  /** A board position; the row grows downward, the column rightward. */
  datatype Cell = Cell(row: int, col: int)

  /** A fruit position as the two draws `rand.Intn(HEIGHT-1)` and
      `rand.Intn(WIDTH-1)` can produce it: the last row and the last column
      are never drawn. */
  type FruitDraw = c: Cell | 0 <= c.row < HEIGHT - 1 && 0 <= c.col < WIDTH - 1
    witness Cell(0, 0)

  /** The messages the handler reacts to: a key press (carrying the key's
      name as `msg.String()` gives it), a timer tick, and anything else. */
  datatype Msg = KeyMsg(key: string) | TickMsg | OtherMsg

  datatype Model = Model(
    gameState: Phase,
    board: seq<seq<string>>,
    snakeCells: seq<Cell>,  // head first
    score: int,
    fruitCell: Cell,
    currentDirection: Direction,
    newDirection: Direction)

  // ---------------------------------------------------------------------
  // Geometry

  function Reverse(d: Direction): (r: Direction)
    ensures r != d
  {
    match d
    case Up => Down
    case Down => Up
    case Left => Right
    case Right => Left
  }

  predicate InBounds(c: Cell) {
    0 <= c.row < HEIGHT && 0 <= c.col < WIDTH
  }

  predicate Adjacent(a: Cell, b: Cell) {
    (a.row == b.row && (a.col == b.col + 1 || b.col == a.col + 1)) ||
    (a.col == b.col && (a.row == b.row + 1 || b.row == a.row + 1))
  }

  /** The neighbour of `c` one step in direction `d`. */
  function Advance(c: Cell, d: Direction): (h: Cell)
    ensures Adjacent(c, h)
    ensures (d == Up || d == Down) <==> h.col == c.col
    ensures d == Down || d == Right <==> h.row + h.col > c.row + c.col
  {
    match d
    case Up => Cell(c.row - 1, c.col)
    case Down => Cell(c.row + 1, c.col)
    case Right => Cell(c.row, c.col + 1)
    case Left => Cell(c.row, c.col - 1)
  }

  /** Every row of the board has WIDTH columns and every cell is the
      empty-cell marker. */
  predicate IsBlankBoard(b: seq<seq<string>>) {
    |b| == HEIGHT &&
    forall r :: 0 <= r < |b| ==> |b[r]| == WIDTH && forall c :: 0 <= c < |b[r]| ==> b[r][c] == "[]"
  }

  // ---------------------------------------------------------------------
  // The one-tick movement engine, as a specification

  /** Where the head goes on this tick: one cell in the current direction. */
  function NextHead(m: Model): (h: Cell)
    requires |m.snakeCells| > 0
    ensures Adjacent(m.snakeCells[0], h)
  {
    Advance(m.snakeCells[0], m.currentDirection)
  }

  predicate Eats(m: Model)
    requires |m.snakeCells| > 0
  {
    NextHead(m) == m.fruitCell
  }

  /** One tick of movement: the next model and whether the snake crashed.
      The head cell is appended at the tail end when the snake eats; the
      collision test skips the first two cells of the snake as it stands
      at that point, which on a tick that does not eat has already lost
      its tail cell. */
  function SnakeStep(m: Model, draw: FruitDraw): (res: (Model, bool))
    requires |m.snakeCells| >= 3
    // a crash is a hit on a body cell from index 2 on (the tail cell
    // excluded when not eating), or a head off the board
    ensures var s, head := m.snakeCells, NextHead(m);
      var end := if Eats(m) then |s| else |s| - 1;
      res.1 <==> (exists k :: 2 <= k < end && s[k] == head) || !InBounds(head)
    // score and fruit change exactly when the fruit is eaten
    ensures res.0.score == if Eats(m) then m.score + 1 else m.score
    ensures Eats(m) ==> 0 <= res.0.fruitCell.row < HEIGHT - 1 && 0 <= res.0.fruitCell.col < WIDTH - 1
    ensures !Eats(m) ==> res.0.fruitCell == m.fruitCell
    // the snake after a successful step
    ensures !res.1 && !Eats(m) ==>
      res.0.snakeCells == [NextHead(m)] + m.snakeCells[..|m.snakeCells| - 1]
    ensures !res.1 && Eats(m) ==> res.0.snakeCells == m.snakeCells + [NextHead(m)]
    ensures !res.1 ==>
      |res.0.snakeCells| == |m.snakeCells| + (if Eats(m) then 1 else 0) &&
      InBounds(NextHead(m)) && res.0.gameState == m.gameState
    // the snake after a crash: the old one, without its tail when not eating
    ensures res.1 ==>
      res.0.gameState == Ended &&
      res.0.snakeCells == m.snakeCells[..if Eats(m) then |m.snakeCells| else |m.snakeCells| - 1]
    // nothing else changes
    ensures res.0.board == m.board
    ensures res.0.currentDirection == m.currentDirection && res.0.newDirection == m.newDirection
  {
    var s := m.snakeCells;
    var head := NextHead(m);
    var ate := Eats(m);
    var kept := if ate then s else s[..|s| - 1];
    var score := if ate then m.score + 1 else m.score;
    var fruit: Cell := if ate then draw else m.fruitCell;
    if head in kept[2..] || !InBounds(head) then
      (m.(snakeCells := kept, score := score, fruitCell := fruit, gameState := Ended), true)
    else
      (m.(snakeCells := if ate then s + [head] else [head] + kept, score := score, fruitCell := fruit), false)
  }

  // ---------------------------------------------------------------------
  // Invariants of a running game

  /** What holds of every state the game shows, ended or not. */
  predicate WellPlaced(m: Model) {
    (forall i :: 0 <= i < |m.snakeCells| ==> InBounds(m.snakeCells[i])) &&
    0 <= m.fruitCell.row < HEIGHT - 1 && 0 <= m.fruitCell.col < WIDTH - 1 &&
    m.newDirection != Reverse(m.currentDirection) &&
    IsBlankBoard(m.board)
  }

  /** A game that has not crashed: one cell of snake per point, on top of
      the three it starts with. */
  predicate Live(m: Model) {
    m.gameState != Ended && m.score >= 0 && |m.snakeCells| == m.score + 3 && WellPlaced(m)
  }

  /** A game that has just crashed: the collision step kept one cell fewer
      than a live game of that score has. */
  predicate Crashed(m: Model) {
    m.gameState == Ended && m.score >= 0 && |m.snakeCells| == m.score + 2 && WellPlaced(m)
  }

  // ---------------------------------------------------------------------
  // Key and tick handling, as a specification

  predicate IsQuitKey(key: string) {
    key == "ctrl+c" || key == "q"
  }

  function KeyDirection(key: string): (r: Option<Direction>)
    ensures r.Some? <==> key in ["up", "down", "left", "right"]
  {
    if key == "up" then Some(Up)
    else if key == "down" then Some(Down)
    else if key == "left" then Some(Left)
    else if key == "right" then Some(Right)
    else None
  }

  /** The handler can only run the movement engine on a snake of three cells
      or more. */
  predicate CanHandle(m: Model, msg: Msg) {
    msg.TickMsg? && m.gameState == Playing ==> |m.snakeCells| >= 3
  }

  /** The model after one message, and whether the program quits. */
  function Next(m: Model, msg: Msg, draw: FruitDraw): (res: (Model, bool))
    requires CanHandle(m, msg)
    // quit keys stop the program and change nothing
    ensures msg.KeyMsg? && IsQuitKey(msg.key) ==> res == (m, true)
    // a direction key changes only the pending direction, and only to a
    // direction that is not the reverse of the current one
    ensures msg.KeyMsg? && KeyDirection(msg.key).Some? ==>
      var d := KeyDirection(msg.key).value;
      !res.1 && res.0 == m.(newDirection := res.0.newDirection) &&
      (d != Reverse(m.currentDirection) ==> res.0.newDirection == d) &&
      (d == Reverse(m.currentDirection) ==> res.0 == m)
    // space starts play whatever the phase was
    ensures msg == KeyMsg(" ") ==> res == (m.(gameState := Playing), false)
    // other keys and messages change nothing
    ensures msg.KeyMsg? && !IsQuitKey(msg.key) && KeyDirection(msg.key).None? && msg.key != " " ==>
      res == (m, false)
    ensures msg.OtherMsg? ==> res == (m, false)
    // only ticks move the snake, the score and the fruit
    ensures !msg.TickMsg? ==>
      res.0.snakeCells == m.snakeCells && res.0.score == m.score && res.0.fruitCell == m.fruitCell
    // a tick outside play changes nothing
    ensures msg.TickMsg? && m.gameState != Playing ==> res == (m, false)
    // a tick in play moves along the current direction, quits exactly on a
    // crash, and adopts the pending direction only when it did not crash
    ensures msg.TickMsg? && m.gameState == Playing ==>
      var (stepped, ended) := SnakeStep(m, draw);
      res.1 == ended &&
      res.0 == (if ended then stepped else stepped.(currentDirection := m.newDirection))
    ensures m.score <= res.0.score <= m.score + 1
    // the invariant of a running game
    ensures Live(m) && !res.1 ==> Live(res.0)
    ensures Live(m) && res.1 ==> Live(res.0) || Crashed(res.0)
  {
    match msg
    case KeyMsg(key) =>
      if IsQuitKey(key) then (m, true)
      else if KeyDirection(key).Some? then
        var d := KeyDirection(key).value;
        (if m.currentDirection != Reverse(d) then m.(newDirection := d) else m, false)
      else if key == " " then (m.(gameState := Playing), false)
      else (m, false)
    case TickMsg =>
      if m.gameState == Playing then
        var (stepped, ended) := SnakeStep(m, draw);
        if ended then (stepped, true) else (stepped.(currentDirection := stepped.newDirection), false)
      else (m, false)
    case OtherMsg => (m, false)
  }

  // ---------------------------------------------------------------------
  // The source's functions, step by step

  /** initialModel: fills the board row by row and seeds the snake, the
      fruit and both directions. */
  method InitialModel() returns (m: Model)
    ensures m.gameState == Starting && m.score == 0
    ensures m.snakeCells == [Cell(8, 5), Cell(8, 6), Cell(8, 7)]
    ensures m.fruitCell == Cell(8, 16) && m.fruitCell !in m.snakeCells
    ensures m.currentDirection == Right && m.newDirection == Right
    ensures IsBlankBoard(m.board)
    ensures Live(m)
  {
    var gameBoard: seq<seq<string>> := seq(HEIGHT, _ => []);
    var i := 0;
    while i < HEIGHT
      invariant 0 <= i <= HEIGHT && |gameBoard| == HEIGHT
      invariant forall r :: 0 <= r < i ==>
        |gameBoard[r]| == WIDTH && forall c :: 0 <= c < WIDTH ==> gameBoard[r][c] == "[]"
    {
      var row: seq<string> := seq(WIDTH, _ => "");
      var j := 0;
      while j < WIDTH
        invariant 0 <= j <= WIDTH && |row| == WIDTH
        invariant forall c :: 0 <= c < j ==> row[c] == "[]"
      {
        row := row[j := "[]"];
        j := j + 1;
      }
      gameBoard := gameBoard[i := row];
      i := i + 1;
    }
    m := Model(
      Starting,
      gameBoard,
      [Cell(HEIGHT / 2, WIDTH / 2 - 5), Cell(HEIGHT / 2, WIDTH / 2 - 4), Cell(HEIGHT / 2, WIDTH / 2 - 3)],
      0,
      Cell(HEIGHT / 2, WIDTH / 2 + 6),
      Right,
      Right);
  }

  /** sliceContains: scans the cells in order and returns at the first one
      equal to `subslice`; `examined` counts the cells looked at. */
  method SliceContains(slice: seq<Cell>, subslice: Cell) returns (found: bool, ghost examined: nat)
    ensures found <==> subslice in slice
    ensures examined <= |slice|
    ensures found ==> 0 < examined && slice[examined - 1] == subslice && subslice !in slice[..examined - 1]
    ensures !found ==> examined == |slice|
  {
    examined := 0;
    for i := 0 to |slice|
      invariant examined == i
      invariant subslice !in slice[..i]
    {
      examined := i + 1;
      if slice[i] == subslice {
        found := true;
        return;
      }
    }
    found := false;
  }

  /** updateSnake: computes the new head, grows or shifts the body, and
      tests for a crash on the body and on the walls. */
  method UpdateSnake(m0: Model, draw: FruitDraw) returns (m: Model, ended: bool)
    requires |m0.snakeCells| >= 3
    ensures (m, ended) == SnakeStep(m0, draw)
  {
    m := m0;
    var head := Advance(m.snakeCells[0], m.currentDirection);
    var newSnakeCells: seq<Cell> := [];
    var ateFruit := false;
    if head == m.fruitCell {
      ateFruit := true;
    }

    if ateFruit {
      newSnakeCells := m.snakeCells + [head];
      m := m.(score := m.score + 1);
      m := m.(fruitCell := draw);
    } else {
      newSnakeCells := [head];
      m := m.(snakeCells := m.snakeCells[..|m.snakeCells| - 1]);
      for i := 0 to |m.snakeCells|
        invariant newSnakeCells == [head] + m.snakeCells[..i]
      {
        newSnakeCells := newSnakeCells + [m.snakeCells[i]];
      }
      assert m.snakeCells[..|m.snakeCells|] == m.snakeCells;
    }

    var hit;
    ghost var examined;
    hit, examined := SliceContains(m.snakeCells[2..], head);
    if hit {
      m := m.(gameState := Ended);
      return m, true;
    }

    if head.row > HEIGHT - 1 || head.row < 0 {
      m := m.(gameState := Ended);
      return m, true;
    } else if head.col > WIDTH - 1 || head.col < 0 {
      m := m.(gameState := Ended);
      return m, true;
    }

    m := m.(snakeCells := newSnakeCells);
    return m, false;
  }

  /** Update: the key and tick branches of the message switch. */
  method Update(m0: Model, msg: Msg, draw: FruitDraw) returns (m: Model, quit: bool)
    requires CanHandle(m0, msg)
    ensures (m, quit) == Next(m0, msg, draw)
  {
    m := m0;
    match msg {
      case KeyMsg(key) =>
        if key == "ctrl+c" || key == "q" {
          return m, true;
        } else if key == "up" {
          if m.currentDirection != Down {
            m := m.(newDirection := Up);
          }
        } else if key == "down" {
          if m.currentDirection != Up {
            m := m.(newDirection := Down);
          }
        } else if key == "left" {
          if m.currentDirection != Right {
            m := m.(newDirection := Left);
          }
        } else if key == "right" {
          if m.currentDirection != Left {
            m := m.(newDirection := Right);
          }
        } else if key == " " {
          m := m.(gameState := Playing);
        }
      case TickMsg =>
        if m.gameState == Playing {
          var ended;
          m, ended := UpdateSnake(m, draw);
          if ended {
            return m, true;
          }
          m := m.(currentDirection := m.newDirection);
        }
        return m, false;
      case OtherMsg =>
    }
    return m, false;
  }
}
