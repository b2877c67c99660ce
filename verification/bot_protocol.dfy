/**
 * What every bot shares (place.client.bot.BotProtocol): the command words,
 * the colour bounds and the speed bounds, in milliseconds between placements.
 */
module BotProtocol {
  import opened Canvas

  const PROMPT := ">>> "
  const HELP := "help"
  const EXIT := "exit"
  const QUIT := "quit"
  const PAUSE := "pause"
  const STOP := "stop"
  const RESUME := "resume"
  const PLAY := "play"
  const SPEED := "speed"
  const STICKY := "sticky"
  const RAINBOW := "rainbow"
  const RANDOM := "random"

  /** The highest palette index, the last colour a user may choose. */
  const MAX_COLOR: int := TOTAL_COLORS - 1
  const MIN_COLOR: int := 0

  // The source's doc comments call 3600 the minimum and 600 the maximum; the values are what count.
  const MAX_SPEED: int := 3600
  const DEFAULT_SPEED: int := 1000
  const MIN_SPEED: int := 600

  /** How long a paused bot sleeps before it looks again. */
  const PAUSED_CHECK: int := 1000

  /** The command words the protocol defines; each bot handles its own subset of them, plus words of its own. */
  function Words(): (ws: seq<string>)
    ensures forall i :: 0 <= i < |ws| ==> LowerWord(ws[i])
    ensures forall i, j :: 0 <= i < j < |ws| ==> ws[i] != ws[j]
  {
    [HELP, EXIT, QUIT, PAUSE, STOP, RESUME, PLAY, SPEED, STICKY, RAINBOW, RANDOM]
  }

  predicate LowerWord(w: string) {
    |w| > 0 && forall i :: 0 <= i < |w| ==> 'a' <= w[i] <= 'z'
  }

  /** The bots' `speed(s)` check. */
  predicate ValidSpeed(s: int) {
    MIN_SPEED <= s <= MAX_SPEED
  }

  /**
   * The colour check as the bots write it: `c >= MAX_COLOR` is refused, so
   * the last palette index, which their help text offers, can never be chosen.
   */
  predicate ColorCheckAsWritten(c: int) {
    MIN_COLOR <= c < MAX_COLOR
  }

  /** The colour check the help text describes: `MIN_COLOR` to `MAX_COLOR`, both included. */
  predicate PaletteColor(c: int) {
    MIN_COLOR <= c <= MAX_COLOR
  }

  /** The corrected check accepts exactly the palette; the written one misses its last entry. */
  lemma ColorChecksDiffer(c: int)
    ensures PaletteColor(c) <==> 0 <= c < TOTAL_COLORS
    ensures ColorCheckAsWritten(c) <==> PaletteColor(c) && c != MAX_COLOR
    ensures PaletteColor(MAX_COLOR) && !ColorCheckAsWritten(MAX_COLOR)
  {
  }

  /** `speed(s)`: the new wait, or the old one when `s` is out of bounds. */
  function AdjustSpeed(current: int, requested: int): (r: int)
    ensures ValidSpeed(requested) ==> r == requested
    ensures !ValidSpeed(requested) ==> r == current
  {
    if requested < MIN_SPEED || requested > MAX_SPEED then current else requested
  }

  /** `speed()` with no argument: the default passes the check, so the wait becomes the default. */
  function ResetSpeed(current: int): (r: int)
    ensures r == DEFAULT_SPEED
    ensures MIN_SPEED < r < MAX_SPEED
  {
    AdjustSpeed(current, DEFAULT_SPEED)
  }
}
