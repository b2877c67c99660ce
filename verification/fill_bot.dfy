/**
 * The bot that fills the board (place.client.bot.FillBot): one placement per
 * pass of its loop, walking the board in row-major order, with a colour mode
 * chosen by commands (cycle, sticky, rainbow, random). The random colour is an
 * input drawn from the palette; the sleeps are not part of this model.
 */
module FillBot {
  import opened Common
  import opened Canvas
  import opened BotProtocol

  const CYCLE := "cycle"

  /** A board position. The loop's row and column start at 0 and are only ever reduced modulo `dim`. */
  datatype Cell = Cell(row: nat, col: nat)

  /**
   * The bot's fields plus the cursor of its loop. With none of `sticky`,
   * `rainbow`, `random` set the bot is in cycle mode.
   */
  datatype State = State(
    username: string,
    cursor: Cell,
    color: nat,
    speed: int,
    sticky: bool,
    rainbow: bool,
    random: bool,
    go: bool,
    pause: bool)

  /** The fields' initial values. */
  function Initial(username: string): (b: State)
    ensures b.username == username && b.cursor == Cell(0, 0) && b.color == 0 && b.speed == DEFAULT_SPEED
    ensures CycleMode(b) && !b.go && !b.pause && b.color < TOTAL_COLORS && ValidSpeed(b.speed)
  {
    State(username, Cell(0, 0), 0, DEFAULT_SPEED, false, false, false, false, false)
  }

  /** `start`: `go` is set and the loop begins at (0, 0); the mode, colour and speed are kept. */
  function Start(b: State): (b': State)
    ensures b'.go && b'.cursor == Cell(0, 0)
    ensures b' == b.(go := true, cursor := Cell(0, 0))
  {
    b.(go := true, cursor := Cell(0, 0))
  }

  predicate CycleMode(b: State) {
    !b.sticky && !b.rainbow && !b.random
  }

  /** At most one of the colour-mode flags is set. */
  predicate AtMostOneMode(b: State) {
    && !(b.sticky && b.rainbow)
    && !(b.sticky && b.random)
    && !(b.rainbow && b.random)
  }

  // ---------------------------------------------------------------------------
  // The cursor

  predicate InGrid(p: Cell, dim: int) {
    p.row < dim && p.col < dim
  }

  /** The position's rank in row-major order. */
  function Index(p: Cell, dim: int): int {
    p.row * dim + p.col
  }

  /** The cursor update of one placement: next column, and next row when the column wraps. */
  function Advance(p: Cell, dim: int): Cell
    requires dim > 0
  {
    var col := (p.col + 1) % dim;
    Cell(if col == 0 then (p.row + 1) % dim else p.row, col)
  }

  /** The cursor after `k` placements. */
  function AdvanceN(p: Cell, dim: int, k: nat): Cell
    requires dim > 0
  {
    if k == 0 then p else Advance(AdvanceN(p, dim, k - 1), dim)
  }

  lemma MulSucc(a: int, n: int)
    ensures (a + 1) * n == a * n + n
  {
  }

  lemma MulMonotone(a: nat, b: nat, n: nat)
    requires a <= b
    ensures a * n <= b * n
  {
  }

  /** A cell of the grid has a rank below `dim * dim`. */
  lemma IndexBound(p: Cell, dim: int)
    requires dim > 0 && InGrid(p, dim)
    ensures 0 <= Index(p, dim) < dim * dim
  {
    MulMonotone(p.row + 1, dim, dim);
    MulSucc(p.row, dim);
  }

  /**
   * One placement moves the cursor to the cell of the next rank in row-major
   * order; after the last cell it goes back to (0, 0).
   */
  lemma AdvanceIsRowMajor(p: Cell, dim: int)
    requires dim > 0 && InGrid(p, dim)
    ensures InGrid(Advance(p, dim), dim)
    ensures Index(p, dim) + 1 < dim * dim ==> Index(Advance(p, dim), dim) == Index(p, dim) + 1
    ensures Index(p, dim) + 1 == dim * dim ==> Advance(p, dim) == Cell(0, 0)
  {
    var q := Advance(p, dim);
    IndexBound(p, dim);
    if p.col + 1 < dim {
      ModBelow(p.col + 1, dim);
      assert q == Cell(p.row, p.col + 1);
      IndexBound(Cell(p.row, dim - 1), dim);
    } else {
      ModBelow(0, dim);
      assert (p.col + 1) % dim == 0;
      MulSucc(p.row, dim);
      if p.row + 1 < dim {
        ModBelow(p.row + 1, dim);
        assert q == Cell(p.row + 1, 0);
        IndexBound(q, dim);
      } else {
        assert q == Cell(0, 0);
        assert p.row * dim + dim == dim * dim;
      }
    }
  }

  lemma ModBelow(a: int, n: int)
    requires 0 <= a < n
    ensures a % n == a && (a + n) % n == a
  {
  }

  /** Starting at (0, 0), the `k`-th placement of one sweep goes to the cell of rank `k`. */
  lemma {:induction false} SweepIsRowMajor(dim: int, k: nat)
    requires dim > 0 && k < dim * dim
    ensures InGrid(AdvanceN(Cell(0, 0), dim, k), dim)
    ensures Index(AdvanceN(Cell(0, 0), dim, k), dim) == k
  {
    if k > 0 {
      SweepIsRowMajor(dim, k - 1);
      AdvanceIsRowMajor(AdvanceN(Cell(0, 0), dim, k - 1), dim);
    }
  }

  /**
   * The cursor comes back to (0, 0) after exactly `dim * dim` placements, and
   * not before: one sweep visits every cell once.
   */
  lemma FullSweepReturnsToOrigin(dim: int, k: nat)
    requires dim > 0 && 0 < k <= dim * dim
    ensures AdvanceN(Cell(0, 0), dim, k) == Cell(0, 0) <==> k == dim * dim
  {
    SweepIsRowMajor(dim, k - 1);
    AdvanceIsRowMajor(AdvanceN(Cell(0, 0), dim, k - 1), dim);
  }

  // ---------------------------------------------------------------------------
  // One pass of the loop of `run`

  /**
   * One pass of the loop: paused, it only sleeps; otherwise it sends the tile at
   * the cursor in the current colour, moves the cursor, and changes the colour as
   * the mode says. `draw` is the random palette index of this pass.
   */
  function Place(b: State, dim: int, draw: nat): (r: (State, Option<Tile>))
    requires dim > 0
    requires draw < TOTAL_COLORS
    ensures b.pause ==> r == (b, None)
    ensures !b.pause ==> r.1 == Some(Tile(b.cursor.row, b.cursor.col, b.username, b.color))
    ensures !b.pause ==> r.0 == b.(cursor := Advance(b.cursor, dim), color := r.0.color)
    // the colour modes
    ensures b.sticky ==> r.0.color == b.color
    ensures !b.pause && !b.sticky && b.random ==> r.0.color == draw
    ensures !b.pause && !b.sticky && !b.random && b.rainbow ==> r.0.color == (b.color + 1) % TOTAL_COLORS
    ensures !b.pause && CycleMode(b) ==>
      r.0.color == (if r.0.cursor == Cell(0, 0) then (b.color + 1) % TOTAL_COLORS else b.color)
    // the colour stays a palette index
    ensures b.color < TOTAL_COLORS ==> r.0.color < TOTAL_COLORS
  {
    if b.pause then (b, None)
    else
      var tile := Tile(b.cursor.row, b.cursor.col, b.username, b.color);
      var next := Advance(b.cursor, dim);
      var color :=
        if (next == Cell(0, 0) || b.rainbow || b.random) && !b.sticky then
          (if b.random then draw else (b.color + 1) % TOTAL_COLORS)
        else b.color;
      (b.(cursor := next, color := color), Some(tile))
  }

  /** `k` unpaused passes of the loop in a mode that draws no random colour. */
  function Placements(b: State, dim: int, k: nat): State
    requires dim > 0
  {
    if k == 0 then b else Place(Placements(b, dim, k - 1), dim, 0).0
  }

  /**
   * In cycle mode one colour fills the whole board: starting at (0, 0), the
   * colour moves to the next palette entry exactly at the `dim * dim`-th placement.
   */
  lemma {:induction false} CycleFillsBoardPerColour(b: State, dim: int, k: nat)
    requires dim > 0 && k <= dim * dim
    requires CycleMode(b) && !b.pause && b.cursor == Cell(0, 0)
    ensures var bk := Placements(b, dim, k);
      && bk == b.(cursor := AdvanceN(Cell(0, 0), dim, k), color := bk.color)
      && bk.color == (if k == dim * dim then (b.color + 1) % TOTAL_COLORS else b.color)
  {
    if k > 0 {
      CycleFillsBoardPerColour(b, dim, k - 1);
      FullSweepReturnsToOrigin(dim, k);
      if k - 1 > 0 {
        FullSweepReturnsToOrigin(dim, k - 1);
      }
    }
  }

  // ---------------------------------------------------------------------------
  // Command dispatch

  /** The handler FillBot's command loop selects for a lower-cased word. */
  datatype Command =
    | HelpCommand | ExitCommand | PauseCommand | ResumeCommand | SpeedCommand
    | StickyCommand | CycleCommand | RainbowCommand | RandomCommand | Unrecognised

  /** The words FillBot's command loop has a case for. */
  function CommandWords(): (ws: seq<string>)
    ensures forall i :: 0 <= i < |ws| ==> LowerWord(ws[i])
    ensures forall i, j :: 0 <= i < j < |ws| ==> ws[i] != ws[j]
  {
    [HELP, EXIT, QUIT, PAUSE, STOP, RESUME, PLAY, SPEED, STICKY, CYCLE, RAINBOW, RANDOM]
  }

  /** The switch of FillBot's command loop: aliases select the same handler, any other word is unrecognised. */
  function CommandOf(word: string): (c: Command)
    ensures c == ExitCommand <==> word == EXIT || word == QUIT
    ensures c == PauseCommand <==> word == PAUSE || word == STOP
    ensures c == ResumeCommand <==> word == RESUME || word == PLAY
    ensures c == CycleCommand <==> word == CYCLE
    ensures c == Unrecognised <==> word !in CommandWords()
  {
    if word == HELP then HelpCommand
    else if word == EXIT || word == QUIT then ExitCommand
    else if word == PAUSE || word == STOP then PauseCommand
    else if word == RESUME || word == PLAY then ResumeCommand
    else if word == SPEED then SpeedCommand
    else if word == STICKY then StickyCommand
    else if word == CYCLE then CycleCommand
    else if word == RAINBOW then RainbowCommand
    else if word == RANDOM then RandomCommand
    else Unrecognised
  }

  // ---------------------------------------------------------------------------
  // Commands

  /**
   * `sticky(color)` as written: a colour that passes the bots' check becomes
   * the fixed colour, anything else changes nothing; the last palette entry is
   * among the refused.
   */
  function StickyOnAsWritten(b: State, c: int): (b': State)
    ensures ColorCheckAsWritten(c) ==> b' == b.(color := c, sticky := true, rainbow := false, random := false)
    ensures !ColorCheckAsWritten(c) ==> b' == b
    ensures c == TOTAL_COLORS - 1 ==> b' == b
  {
    if c < MIN_COLOR || c >= MAX_COLOR then b
    else b.(color := c, sticky := true, rainbow := false, random := false)
  }

  /**
   * `sticky(color)` with the check its help text describes: every palette
   * entry can be made the fixed colour.
   */
  function StickyOn(b: State, c: int): (b': State)
    ensures 0 <= c < TOTAL_COLORS ==> b' == b.(color := c, sticky := true, rainbow := false, random := false)
    ensures !(0 <= c < TOTAL_COLORS) ==> b' == b
    ensures AtMostOneMode(b) ==> AtMostOneMode(b')
    ensures b.color < TOTAL_COLORS ==> b'.color < TOTAL_COLORS
  {
    if c < MIN_COLOR || c > MAX_COLOR then b
    else b.(color := c, sticky := true, rainbow := false, random := false)
  }

  /** `sticky()`: sticky on the current colour, whichever palette entry it is. */
  function StickyCurrent(b: State): (b': State)
    requires b.color < TOTAL_COLORS
    ensures b'.sticky && b'.color == b.color && AtMostOneMode(b')
    ensures b' == b.(sticky := true, rainbow := false, random := false)
  {
    StickyOn(b, b.color)
  }

  /** As written, `sticky()` while the last colour is current does nothing. */
  lemma StickyCurrentAsWrittenStuckOnLastColour(b: State)
    requires b.color == TOTAL_COLORS - 1
    ensures StickyOnAsWritten(b, b.color) == b
    ensures StickyCurrent(b).sticky
  {
  }

  /** `cycle()`. */
  function Cycle(b: State): (b': State)
    ensures CycleMode(b') && AtMostOneMode(b')
    ensures b' == b.(sticky := false, rainbow := false, random := false)
  {
    b.(sticky := false, rainbow := false, random := false)
  }

  /** `rainbow()`. */
  function Rainbow(b: State): (b': State)
    ensures b'.rainbow && AtMostOneMode(b')
    ensures b' == b.(sticky := false, rainbow := true, random := false)
  {
    b.(sticky := false, rainbow := true, random := false)
  }

  /** `random()`. */
  function RandomMode(b: State): (b': State)
    ensures b'.random && AtMostOneMode(b')
    ensures b' == b.(sticky := false, rainbow := false, random := true)
  {
    b.(sticky := false, rainbow := false, random := true)
  }

  /** `speed(s)`. */
  function SetSpeed(b: State, s: int): (b': State)
    ensures ValidSpeed(s) ==> b'.speed == s
    ensures !ValidSpeed(s) ==> b'.speed == b.speed
    ensures b' == b.(speed := b'.speed)
  {
    b.(speed := AdjustSpeed(b.speed, s))
  }

  /** `speed()`. */
  function DefaultSpeed(b: State): (b': State)
    ensures b' == b.(speed := DEFAULT_SPEED)
  {
    b.(speed := ResetSpeed(b.speed))
  }

  /** `pause()`: no tile is placed until `resume`; nothing else changes. */
  function Pause(b: State): (b': State)
    ensures b'.pause && b' == b.(pause := true)
  {
    b.(pause := true)
  }

  /** `resume()`: placement goes on from where it stopped. */
  function Resume(b: State): (b': State)
    ensures !b'.pause && b' == b.(pause := false)
  {
    b.(pause := false)
  }

  /** `exit()`: the loop ends; nothing else changes. */
  function Exit(b: State): (b': State)
    ensures !b'.go && b' == b.(go := false)
  {
    b.(go := false)
  }

  /**
   * A pause holds the cursor and the colour: any number of paused passes
   * followed by `resume` leave the bot exactly where it was.
   */
  lemma {:induction false} PausedPassesChangeNothing(b: State, dim: int, draws: seq<nat>)
    requires dim > 0 && !b.pause
    requires forall i :: 0 <= i < |draws| ==> draws[i] < TOTAL_COLORS
    ensures Resume(PausedPasses(Pause(b), dim, draws)) == b
  {
    PausedPassesFixed(Pause(b), dim, draws);
  }

  /** Passes of the loop with one palette draw each. */
  function PausedPasses(b: State, dim: int, draws: seq<nat>): State
    requires dim > 0
    requires forall i :: 0 <= i < |draws| ==> draws[i] < TOTAL_COLORS
    decreases |draws|
  {
    if draws == [] then b else PausedPasses(Place(b, dim, draws[0]).0, dim, draws[1..])
  }

  lemma {:induction false} PausedPassesFixed(b: State, dim: int, draws: seq<nat>)
    requires dim > 0 && b.pause
    requires forall i :: 0 <= i < |draws| ==> draws[i] < TOTAL_COLORS
    ensures PausedPasses(b, dim, draws) == b
    decreases |draws|
  {
    if draws != [] {
      PausedPassesFixed(b, dim, draws[1..]);
    }
  }
}
