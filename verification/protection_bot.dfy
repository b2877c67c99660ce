/**
 * The bot that guards one tile (place.client.bot.ProtectionBot): it observes
 * the client's board model and, whenever someone else places a tile on the
 * protected position, sends its own tile back there in the protected colour.
 */
module ProtectionBot {
  import opened Common
  import opened Canvas
  import opened BotProtocol
  import BoardObservable

  /** The owner `resume` and `start` pass to force a placement: no user has it unless the bot's own name is empty. */
  const NO_OWNER := ""

  /** The bot's fields; `observing` is whether it was added as an observer of the board model. */
  datatype State = State(
    username: string,
    row: int,
    col: int,
    color: int,
    go: bool,
    pause: bool,
    observing: bool)

  /**
   * What a protection check does: nothing, send a tile, or fail because the
   * protected colour is no palette index (the palette lookup throws).
   */
  datatype Outcome = Ignore | Send(tile: Tile) | ColorFault

  /** The protected position is on the board and the colour is a palette entry. */
  predicate Protecting(b: State, dim: int) {
    0 <= b.row < dim && 0 <= b.col < dim && PaletteColor(b.color)
  }

  /**
   * `protectTile(row, col, owner)`: a change at the protected position by
   * anyone else is answered with the bot's own tile there.
   */
  function ProtectTile(b: State, row: int, col: int, owner: string): (o: Outcome)
    ensures o != Ignore <==> row == b.row && col == b.col && owner != b.username
    ensures o.Send? ==> o.tile == Tile(b.row, b.col, b.username, b.color)
    ensures o == ColorFault ==> !PaletteColor(b.color)
  {
    if row == b.row && col == b.col && owner != b.username then
      if 0 <= b.color < TOTAL_COLORS then Send(Tile(b.row, b.col, b.username, b.color)) else ColorFault
    else Ignore
  }

  /**
   * `start`: the three numbers after host, port and name are read in turn as
   * row, column and colour, without range checks; a missing or malformed one
   * stops the bot, leaving the fields not yet read at 0. A started bot
   * observes the model and checks its tile once.
   */
  function Start(username: string, args: seq<Option<int>>): (r: (State, Outcome))
    ensures var (b, o) := r;
      && b.username == username && !b.pause
      && b.observing == b.go
      && (b.go <==> |args| >= 6 && args[3].Some? && args[4].Some? && args[5].Some?)
      && (b.go ==> b.row == args[3].value && b.col == args[4].value && b.color == args[5].value)
      && (!b.go ==> o == Ignore)
      && (b.go && username != NO_OWNER ==> o != Ignore)
  {
    var b0 := State(username, 0, 0, 0, true, false, false);
    var b :=
      if |args| <= 3 || args[3].None? then b0.(go := false)
      else
        var b1 := b0.(row := args[3].value);
        if |args| <= 4 || args[4].None? then b1.(go := false)
        else
          var b2 := b1.(col := args[4].value);
          if |args| <= 5 || args[5].None? then b2.(go := false)
          else b2.(color := args[5].value);
    if b.go then (b.(observing := true), ProtectTile(b, b.row, b.col, NO_OWNER))
    else (b, Ignore)
  }

  /** The unchecked start colour: any colour outside the palette faults the first time the tile is protected. */
  lemma StartWithUncheckedColorFaults(username: string, row: int, col: int, color: int)
    requires username != NO_OWNER
    requires !(0 <= color < TOTAL_COLORS)
    ensures var (b, o) := Start(username, [None, None, None, Some(row), Some(col), Some(color)]);
      b.go && b.color == color && o == ColorFault
  {
  }

  /**
   * `update`: a tile reported by the model, while not paused, goes through the
   * protection check; anything else is ignored.
   */
  function Update(b: State, arg: Option<Tile>): (o: Outcome)
    ensures b.pause || !b.observing || arg.None? ==> o == Ignore
    ensures !b.pause && b.observing && arg.Some? ==>
      o == ProtectTile(b, arg.value.row, arg.value.col, arg.value.owner)
  {
    if !b.observing || b.pause then Ignore
    else match arg
      case None => Ignore
      case Some(t) => ProtectTile(b, t.row, t.col, t.owner)
  }

  /**
   * The bot's own reply does not trigger another: once the model reports the
   * tile it sent, nothing more is sent. A change by someone else at the
   * protected position always draws a reply when the state is in range.
   */
  lemma ProtectionSettles(b: State, dim: int, t: Tile)
    requires Protecting(b, dim) && b.observing && !b.pause
    ensures Update(b, Some(Tile(b.row, b.col, b.username, b.color))) == Ignore
    ensures t.row == b.row && t.col == b.col && t.owner != b.username ==>
      Update(b, Some(t)) == Send(Tile(b.row, b.col, b.username, b.color))
  {
  }

  /**
   * Replaying the model's notifications: the tiles the bot sends are exactly
   * one protected tile per notification of someone else's change at the
   * protected position.
   */
  function Replies(b: State, ns: seq<BoardObservable.Notification>): (out: seq<Tile>)
    requires PaletteColor(b.color) && b.observing && !b.pause
    ensures |out| == |Intrusions(b, ns)|
    ensures forall i :: 0 <= i < |out| ==> out[i] == Tile(b.row, b.col, b.username, b.color)
  {
    if ns == [] then []
    else
      var o := Update(b, Some(ns[0].tile));
      (if o.Send? then [o.tile] else []) + Replies(b, ns[1..])
  }

  /** The notifications of someone else's change at the protected position. */
  function Intrusions(b: State, ns: seq<BoardObservable.Notification>): seq<BoardObservable.Notification> {
    if ns == [] then []
    else
      var t := ns[0].tile;
      (if t.row == b.row && t.col == b.col && t.owner != b.username then [ns[0]] else []) + Intrusions(b, ns[1..])
  }

  // ---------------------------------------------------------------------------
  // Command dispatch

  const ABOUT := "about"
  const PROTECT := "protect"
  const CHANGE := "change"

  /** The handler ProtectionBot's command loop selects for a lower-cased word. */
  datatype Command =
    | HelpCommand | ExitCommand | AboutCommand | PauseCommand | ResumeCommand
    | ProtectCommand | ChangeCommand | Unrecognised

  /** The words ProtectionBot's command loop has a case for; the speed and colour-mode words are not among them. */
  function CommandWords(): (ws: seq<string>)
    ensures forall i :: 0 <= i < |ws| ==> LowerWord(ws[i])
    ensures forall i, j :: 0 <= i < j < |ws| ==> ws[i] != ws[j]
  {
    [HELP, EXIT, QUIT, ABOUT, PAUSE, STOP, RESUME, PLAY, PROTECT, CHANGE]
  }

  /** The switch of ProtectionBot's command loop: aliases select the same handler, any other word is unrecognised. */
  function CommandOf(word: string): (c: Command)
    ensures c == ExitCommand <==> word == EXIT || word == QUIT
    ensures c == PauseCommand <==> word == PAUSE || word == STOP
    ensures c == ResumeCommand <==> word == RESUME || word == PLAY
    ensures c == Unrecognised <==> word !in CommandWords()
    ensures word in {SPEED, STICKY, RAINBOW, RANDOM} ==> c == Unrecognised
  {
    if word == HELP then HelpCommand
    else if word == EXIT || word == QUIT then ExitCommand
    else if word == ABOUT then AboutCommand
    else if word == PAUSE || word == STOP then PauseCommand
    else if word == RESUME || word == PLAY then ResumeCommand
    else if word == PROTECT then ProtectCommand
    else if word == CHANGE then ChangeCommand
    else Unrecognised
  }

  // ---------------------------------------------------------------------------
  // Commands

  /** `exit`: the command loop ends; nothing else changes. */
  function Exit(b: State): (b': State)
    ensures !b'.go && b' == b.(go := false)
  {
    b.(go := false)
  }

  /** `pause`: changes are ignored until `resume`; nothing else changes. */
  function Pause(b: State): (b': State)
    ensures b'.pause && b' == b.(pause := true)
  {
    b.(pause := true)
  }

  /**
   * `resume`: the tile is checked at once as if someone else held it, then the
   * pause ends. A colour outside the palette throws in that check, before the
   * pause is cleared, so the bot stays paused.
   */
  function Resume(b: State): (r: (State, Outcome))
    ensures r.1 != ColorFault ==> r.0 == b.(pause := false)
    ensures r.1 == ColorFault ==> r.0 == b
    ensures r.1 == ColorFault <==> b.username != NO_OWNER && !PaletteColor(b.color)
    ensures b.username != NO_OWNER && PaletteColor(b.color) ==>
      r.1 == Send(Tile(b.row, b.col, b.username, b.color))
    ensures b.username == NO_OWNER ==> r.1 == Ignore
  {
    var o := ProtectTile(b, b.row, b.col, NO_OWNER);
    (if o == ColorFault then b else b.(pause := false), o)
  }

  /** A paused bot ignores changes; resuming reclaims the tile whatever happened meanwhile. */
  lemma PausedChangesReclaimedOnResume(b: State, t: Tile)
    requires b.observing && b.username != NO_OWNER && PaletteColor(b.color)
    ensures Update(Pause(b), Some(t)) == Ignore
    ensures Resume(Pause(b)).1 == Send(Tile(b.row, b.col, b.username, b.color))
  {
  }

  /**
   * `protect row col color` as written: all three change when the position is
   * on the board and the colour passes the bots' check; the last palette entry
   * is refused.
   */
  function ChangeAllAsWritten(b: State, model: BoardObservable.Model, row: int, col: int, color: int): (b': State)
    ensures var dim := BoardObservable.GetDim(model);
      b' == if 0 <= row < dim && 0 <= col < dim && ColorCheckAsWritten(color)
            then b.(row := row, col := col, color := color) else b
    ensures color == TOTAL_COLORS - 1 ==> b' == b
  {
    var dim := BoardObservable.GetDim(model);
    if row < 0 || row >= dim || col < 0 || col >= dim || color < MIN_COLOR || color >= MAX_COLOR then b
    else b.(row := row, col := col, color := color)
  }

  /** `protect row col color` with the colour range its help text gives. */
  function ChangeAll(b: State, model: BoardObservable.Model, row: int, col: int, color: int): (b': State)
    ensures var dim := BoardObservable.GetDim(model);
      && (Protecting(b', dim) || b' == b)
      && (0 <= row < dim && 0 <= col < dim && 0 <= color < TOTAL_COLORS ==> b' == b.(row := row, col := col, color := color))
      && (b' != b ==> b'.row == row && b'.col == col && b'.color == color)
      && b'.username == b.username && b'.go == b.go && b'.pause == b.pause && b'.observing == b.observing
  {
    var dim := BoardObservable.GetDim(model);
    if row < 0 || row >= dim || col < 0 || col >= dim || color < MIN_COLOR || color > MAX_COLOR then b
    else b.(row := row, col := col, color := color)
  }

  /** `change row r`. */
  function ChangeRow(b: State, model: BoardObservable.Model, row: int): (b': State)
    ensures var dim := BoardObservable.GetDim(model);
      b' == if 0 <= row < dim then b.(row := row) else b
    ensures Protecting(b, BoardObservable.GetDim(model)) ==> Protecting(b', BoardObservable.GetDim(model))
  {
    if row < 0 || row >= BoardObservable.GetDim(model) then b else b.(row := row)
  }

  /** `change col c`. */
  function ChangeCol(b: State, model: BoardObservable.Model, col: int): (b': State)
    ensures var dim := BoardObservable.GetDim(model);
      b' == if 0 <= col < dim then b.(col := col) else b
    ensures Protecting(b, BoardObservable.GetDim(model)) ==> Protecting(b', BoardObservable.GetDim(model))
  {
    if col < 0 || col >= BoardObservable.GetDim(model) then b else b.(col := col)
  }

  /** `change color c` as written: the last palette entry is refused. */
  function ChangeColorAsWritten(b: State, color: int): (b': State)
    ensures b' == if ColorCheckAsWritten(color) then b.(color := color) else b
    ensures color == TOTAL_COLORS - 1 ==> b' == b
  {
    if color < MIN_COLOR || color >= MAX_COLOR then b else b.(color := color)
  }

  /** `change color c` with the colour range its help text gives. */
  function ChangeColor(b: State, color: int): (b': State)
    ensures 0 <= color < TOTAL_COLORS ==> b' == b.(color := color)
    ensures !(0 <= color < TOTAL_COLORS) ==> b' == b
  {
    if color < MIN_COLOR || color > MAX_COLOR then b else b.(color := color)
  }

  /** The commands keep the bot protecting a tile on the board in a palette colour, so it never faults. */
  lemma CommandsKeepProtecting(b: State, model: BoardObservable.Model, row: int, col: int, color: int, t: Tile)
    requires Protecting(b, BoardObservable.GetDim(model))
    ensures var dim := BoardObservable.GetDim(model);
      && Protecting(ChangeAll(b, model, row, col, color), dim)
      && Protecting(ChangeRow(b, model, row), dim)
      && Protecting(ChangeCol(b, model, col), dim)
      && Protecting(ChangeColor(b, color), dim)
      && Update(ChangeColor(b, color), Some(t)) != ColorFault
  {
  }
}
