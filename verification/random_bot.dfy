/**
 * The bot that scatters tiles (place.client.bot.RandomBot): each pass of its
 * loop sends one tile at a random position, in a random colour unless it is
 * sticky. The random numbers are inputs, each drawn from its range.
 */
module RandomBot {
  import opened Common
  import opened Canvas
  import opened BotProtocol

  datatype State = State(username: string, color: int, speed: int, sticky: bool, go: bool, pause: bool)

  /** One pass's random numbers: row, column and palette index. */
  datatype Draw = Draw(row: nat, col: nat, color: nat)

  predicate DrawIn(d: Draw, dim: int) {
    d.row < dim && d.col < dim && d.color < TOTAL_COLORS
  }

  /** The fields' initial values. */
  function Initial(username: string): (b: State)
    ensures b.username == username && b.color == 0
    ensures !b.sticky && !b.go && !b.pause && b.speed == DEFAULT_SPEED && 0 <= b.color < TOTAL_COLORS
  {
    State(username, 0, DEFAULT_SPEED, false, false, false)
  }

  /** `start`: the loop begins; nothing else changes. */
  function Start(b: State): (b': State)
    ensures b'.go && b' == b.(go := true)
  {
    b.(go := true)
  }

  /**
   * One pass of the loop: paused, nothing is sent; otherwise the colour is
   * redrawn unless sticky, and the tile goes to the drawn position.
   */
  function Place(b: State, dim: int, d: Draw): (r: (State, Option<Tile>))
    requires dim > 0 && DrawIn(d, dim)
    ensures b.pause ==> r == (b, None)
    ensures !b.pause ==> r.1 == Some(Tile(d.row, d.col, b.username, r.0.color))
    ensures !b.pause ==> r.0 == b.(color := if b.sticky then b.color else d.color)
  {
    if b.pause then (b, None)
    else
      var b' := if b.sticky then b else b.(color := d.color);
      (b', Some(Tile(d.row, d.col, b.username, b'.color)))
  }

  /** The tiles of consecutive unpaused passes, one per draw. */
  function Placements(b: State, dim: int, ds: seq<Draw>): (r: (State, seq<Tile>))
    requires dim > 0 && !b.pause
    requires forall i :: 0 <= i < |ds| ==> DrawIn(ds[i], dim)
    ensures |r.1| == |ds| && !r.0.pause
    decreases |ds|
  {
    if ds == [] then (b, [])
    else
      var (b1, t) := Place(b, dim, ds[0]);
      var (bn, ts) := Placements(b1, dim, ds[1..]);
      (bn, [t.value] + ts)
  }

  /**
   * Every tile lands on the board in a palette colour under the bot's name;
   * while sticky, every tile has the sticky colour and the state does not move.
   */
  lemma {:induction false} PlacementsInRange(b: State, dim: int, ds: seq<Draw>)
    requires dim > 0 && !b.pause && 0 <= b.color < TOTAL_COLORS
    requires forall i :: 0 <= i < |ds| ==> DrawIn(ds[i], dim)
    ensures var (bn, ts) := Placements(b, dim, ds);
      && 0 <= bn.color < TOTAL_COLORS
      && forall i :: 0 <= i < |ts| ==>
           && 0 <= ts[i].row < dim && 0 <= ts[i].col < dim
           && 0 <= ts[i].color < TOTAL_COLORS && ts[i].owner == b.username
           && (b.sticky ==> ts[i].color == b.color)
    ensures b.sticky ==> Placements(b, dim, ds).0 == b
    decreases |ds|
  {
    if ds != [] {
      var b1 := Place(b, dim, ds[0]).0;
      assert b1.username == b.username && b1.sticky == b.sticky;
      assert b.sticky ==> b1 == b;
      PlacementsInRange(b1, dim, ds[1..]);
      var ts := Placements(b, dim, ds).1;
      forall i | 0 <= i < |ts|
        ensures 0 <= ts[i].row < dim && 0 <= ts[i].col < dim
        ensures 0 <= ts[i].color < TOTAL_COLORS && ts[i].owner == b.username
        ensures b.sticky ==> ts[i].color == b.color
      {
        if i > 0 {
          assert ts[i] == Placements(b1, dim, ds[1..]).1[i - 1];
          assert ds[1..][i - 1] == ds[i];
        }
      }
    }
  }

  // ---------------------------------------------------------------------------
  // Command dispatch

  /** The handler RandomBot's command loop selects for a lower-cased word. */
  datatype Command =
    | HelpCommand | ExitCommand | PauseCommand | ResumeCommand | SpeedCommand
    | StickyCommand | RandomCommand | Unrecognised

  /** The words RandomBot's command loop has a case for; "rainbow" is not among them. */
  function CommandWords(): (ws: seq<string>)
    ensures forall i :: 0 <= i < |ws| ==> LowerWord(ws[i])
    ensures forall i, j :: 0 <= i < j < |ws| ==> ws[i] != ws[j]
  {
    [HELP, EXIT, QUIT, PAUSE, STOP, RESUME, PLAY, SPEED, STICKY, RANDOM]
  }

  /** The switch of RandomBot's command loop: aliases select the same handler, any other word is unrecognised. */
  function CommandOf(word: string): (c: Command)
    ensures c == ExitCommand <==> word == EXIT || word == QUIT
    ensures c == PauseCommand <==> word == PAUSE || word == STOP
    ensures c == ResumeCommand <==> word == RESUME || word == PLAY
    ensures c == Unrecognised <==> word !in CommandWords()
    ensures word == RAINBOW ==> c == Unrecognised
  {
    if word == HELP then HelpCommand
    else if word == EXIT || word == QUIT then ExitCommand
    else if word == PAUSE || word == STOP then PauseCommand
    else if word == RESUME || word == PLAY then ResumeCommand
    else if word == SPEED then SpeedCommand
    else if word == STICKY then StickyCommand
    else if word == RANDOM then RandomCommand
    else Unrecognised
  }

  // ---------------------------------------------------------------------------
  // Commands

  /** `sticky(color)` as written: the last palette entry is refused with the out-of-range ones. */
  function StickyOnAsWritten(b: State, c: int): (b': State)
    ensures ColorCheckAsWritten(c) ==> b' == b.(color := c, sticky := true)
    ensures !ColorCheckAsWritten(c) ==> b' == b
    ensures c == TOTAL_COLORS - 1 ==> b' == b
  {
    if c < MIN_COLOR || c >= MAX_COLOR then b else b.(color := c, sticky := true)
  }

  /** `sticky(color)` with the check its help text describes: every palette entry is accepted. */
  function StickyOn(b: State, c: int): (b': State)
    ensures 0 <= c < TOTAL_COLORS ==> b' == b.(color := c, sticky := true)
    ensures !(0 <= c < TOTAL_COLORS) ==> b' == b
  {
    if c < MIN_COLOR || c > MAX_COLOR then b else b.(color := c, sticky := true)
  }

  /** `sticky()` with the corrected check: the colour of the last placement becomes the fixed one. */
  function StickyCurrent(b: State): (b': State)
    requires 0 <= b.color < TOTAL_COLORS
    ensures b' == b.(sticky := true)
  {
    StickyOn(b, b.color)
  }

  /**
   * As written, `sticky()` while the last colour is current does nothing, and the
   * placement loop can draw that colour.
   */
  lemma StickyCurrentAsWrittenStuckOnLastColour(b: State)
    requires b.color == TOTAL_COLORS - 1
    ensures StickyOnAsWritten(b, b.color) == b
    ensures StickyCurrent(b).sticky
  {
  }

  /** `random()`: only stops being sticky; the colour is redrawn at the next placement. */
  function RandomMode(b: State): (b': State)
    ensures b' == b.(sticky := false)
  {
    b.(sticky := false)
  }

  /** `random()` undoes `sticky(c)` up to the colour. */
  lemma RandomUndoesSticky(b: State, c: int)
    requires !b.sticky && 0 <= c < TOTAL_COLORS
    ensures RandomMode(StickyOn(b, c)) == b.(color := c)
  {
  }

  /** `speed(s)`. */
  function SetSpeed(b: State, s: int): (b': State)
    ensures ValidSpeed(s) ==> b' == b.(speed := s)
    ensures !ValidSpeed(s) ==> b' == b
  {
    b.(speed := AdjustSpeed(b.speed, s))
  }

  /** `speed()`. */
  function DefaultSpeed(b: State): (b': State)
    ensures b' == b.(speed := DEFAULT_SPEED)
  {
    b.(speed := ResetSpeed(b.speed))
  }

  /** `pause()`: no tile is sent until `resume`; nothing else changes. */
  function Pause(b: State): (b': State)
    ensures b'.pause && b' == b.(pause := true)
  {
    b.(pause := true)
  }

  /** `resume()`. */
  function Resume(b: State): (b': State)
    ensures !b'.pause && b' == b.(pause := false)
  {
    b.(pause := false)
  }

  /** `exit()`: the loop ends; nothing else changes. */
  function Exit(b: State): (b': State)
    ensures !b'.go && b' == b.(go := false)
  {
    b.(go := false)
  }

  /** Pausing sends nothing until `resume`, which restores the state. */
  lemma PauseResume(b: State, dim: int, d: Draw)
    requires dim > 0 && DrawIn(d, dim) && !b.pause
    ensures Place(Pause(b), dim, d) == (Pause(b), None)
    ensures Resume(Pause(b)) == b
  {
  }
}
