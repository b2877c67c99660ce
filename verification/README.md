# Place: a Dafny model of the hub, sessions, client and bots

Place is a shared pixel board. Clients log in under a username, receive the
board, and then send tile changes. The server checks each change and
broadcasts it to every logged-in user. Bots are clients that place tiles
automatically.

This project models the parts of the system with real logic, as immutable
datatypes and pure transition functions:

- **The server hub** (`place.network.NetworkServer`), in `network_server.dfy`.
  - Login admission: username uniqueness, at most 10 connections per host, at most 100 in total.
  - Logout bookkeeping.
  - Tile validation and broadcast, and the server-error and bad-request messages.
  - Each output stream is an opaque sink id. The `Outbox` records every message each sink has received, and the set of sinks whose writes throw.
  - The registry's iteration order is an input: a sequence that lists every username exactly once.
- **The earlier hub** (`place.server.NetworkServer`), in `legacy_server.dfy`. It only checks that the username is free.
- **The server-side session** (`place.server.PlaceClientThread`), in `client_thread.dfy`.
  - It is modelled against an abstract hub. Each step returns its effects: messages written to the client, and calls into the hub.
  - It cannot use the real hub because its calls do not match the hub's signatures.
- **The client connection** (`place.network.NetworkClient`), in `network_client.dfy`. This covers the login handshake, the receive loop and `sendTile`.
- **The client board model** (`place.PlaceBoardObservable`), in `board_observable.dfy`. It writes a tile, then notifies observers with it.
- **The bots**:
  - the shared words and bounds (`bot_protocol.dfy`);
  - `FillBot` (`fill_bot.dfy`): a row-major sweep with colour modes;
  - `RandomBot` (`random_bot.dfy`);
  - `ProtectionBot` (`protection_bot.dfy`).

Several classes are used but not part of this model: `PlaceBoard`, `PlaceTile`, `PlaceColor` and `PlaceRequest`. They are represented abstractly:

- The board (`canvas.dfy`) is a dimension plus a map from (row, col) to tile.
- The board's validity check is a parameter.
- `PlaceColor.TOTAL_COLORS` is a positive constant with no fixed value.
- A request (`protocol.dfy`) is one constructor per kind, plus `Other` for kinds the code does not know.

The model follows the code, including these behaviours:

- There is no cooldown or rate limit anywhere in the hub or the session.
- A rejected login is answered with an ERROR request. No separate login-error kind exists.
- `logout` is not idempotent. While the host's count was 2 or more, a second call for the same user decrements the counters again (`NetworkServer.LogoutTwiceBreaksValid`). When the first call took the count to zero, the host's entry is gone and a second call would throw (`NetworkServer.LastLogoutRemovesHostEntry`).
- A LOGIN may carry a null name. The session then passes it to the hub and keeps no name, so a later LOGIN is acted on too (`ClientThread.NullLoginLetsLoginAgain`).
- Each bot has its own command words: FillBot adds `cycle`, RandomBot has no `rainbow`, and ProtectionBot has `about`, `protect` and `change` but none of the speed or colour-mode words.
- The master board is written only inside the broadcast loop, after a successful write to some sink. With no users, or with every write failing, a valid tile is accepted but not stored.
- The session calls `login`, `tileChangeRequest` and `logout` with argument lists that do not match the hub.

## Model

| member | source | states |
|---|---|---|
| NetworkServer.Login | src/place/network/NetworkServer.java:109-171 | The three rejections in order: name taken, host at 10, total at 100. Each sends one ERROR with its message and leaves users and the total unchanged. On admission the user is registered, the host count and the total each rise by one, and LOGIN_SUCCESS then BOARD go to the new sink. The result is true exactly when the login was admitted and the sink's writes succeed. An unseen host always gains an entry. No other sink is touched. |
| NetworkServer.RejectionReasonIff | src/place/network/NetworkServer.java:30-35 | "Too many connections from your IP" is sent exactly when the name is free and the host has 10 or more. "Server full" is sent exactly when the name is free, the host is under 10 and the total is 100 or more. |
| NetworkServer.LoginPreservesValid | src/place/network/NetworkServer.java:116-117 | Both admission and rejection keep three invariants: the total equals the sum of the per-host counts, the registry size equals the total, and the counts are non-negative. |
| NetworkServer.RejectedLoginAddsHostEntry | src/place/network/NetworkServer.java:116-117 | A rejected login from an unseen host still leaves a zero entry for that host. |
| NetworkServer.FailedReplyLeavesUserRegistered | src/place/network/NetworkServer.java:145-170 | If writing the replies throws, login returns false but the user remains registered and counted. |
| NetworkServer.Logout | src/place/network/NetworkServer.java:225-242 | Decrements the host's count and removes the host once it reaches zero or below. Decrements the total and removes the username. |
| NetworkServer.LogoutPreservesValid | src/place/network/NetworkServer.java:225-242 | Logging out a registered user whose host count is at least 1 keeps the hub invariants. |
| NetworkServer.LogoutUndoesLogin | src/place/network/NetworkServer.java:145-154 | Logout after an admitted login restores the registry, the total and the sum of the host counts. The host map itself comes back unless the host had a zero entry, which logout then removes. |
| NetworkServer.LastLogoutRemovesHostEntry | src/place/network/NetworkServer.java:228-232 | A logout that takes the host's count to zero removes the host's entry, so a second logout from that host has no count to read. |
| NetworkServer.Init | src/place/network/NetworkServer.java:77-89 | The hub starts with nobody registered, no host counted, a total of 0 and a fresh board of the given dimension, and the counter invariants hold. |
| NetworkServer.UsernameTakenTracksRegistry | src/place/network/NetworkServer.java:180-184 | A name is free before its admitted login, taken right after it, and free again right after its logout. |
| NetworkServer.LogoutTwiceBreaksValid | src/place/network/NetworkServer.java:225-242 | Logout never checks presence. A second logout for the same user takes the total two below its value before the first logout, and the invariants no longer hold. |
| NetworkServer.Broadcast | src/place/network/NetworkServer.java:263-272 | Every sink gets one copy of the message per username registered to it, whatever the iteration order, unless its writes throw. Failures are swallowed. The flag is true exactly when some registered sink is writable. |
| NetworkServer.TileChangeRequest | src/place/network/NetworkServer.java:252-275 | An invalid tile gives false and changes nothing. A valid tile gives true and is sent as TILE_CHANGED to every user. The board takes the tile exactly when some write succeeded. The registry and counters are unchanged. |
| NetworkServer.ValidTileLostWithoutUsers | src/place/network/NetworkServer.java:262-274 | With nobody registered, no write can succeed, so the tile is accepted but never stored on the server's board. |
| NetworkServer.ServerError | src/place/network/NetworkServer.java:350-372 | The server-error ERROR goes to every registered sink. Failures are swallowed. Nothing else changes. |
| NetworkServer.BadRequest | src/place/network/NetworkServer.java:195-215 | One ERROR naming the kind goes to the user's sink. The result is false when that write throws, and then nothing changes at all. No other sink or field changes. |
| NetworkServer.BadRequestThenLogoutKeepsValid | src/place/network/NetworkServer.java:195-242 | The bad-request teardown, the ERROR followed by the user's logout, keeps the counter invariants and frees the name, whether or not the ERROR was written. |
| LegacyServer.Init | src/place/server/NetworkServer.java:13-17 | The registry starts empty, whatever the dimension. |
| LegacyServer.Login | src/place/server/NetworkServer.java:27-39 | True exactly when the name is free. On success the map gains the name and keeps every other entry. On failure the map is unchanged. |
| LegacyServer.SecondLoginRefused | src/place/server/NetworkServer.java:31-38 | An existing entry is never overwritten by a second login with the same name. |
| ClientThread.Open | src/place/server/PlaceClientThread.java:31-52 | The session exists exactly when both streams open. It starts alive, with no username. |
| ClientThread.BadRequest | src/place/server/PlaceClientThread.java:121-133 | One ERROR naming the kind, then a hub logout, then the session is no longer alive. When the write throws, nothing happens. |
| ClientThread.Step | src/place/server/PlaceClientThread.java:64-119 | LOGIN is acted on only while no name is set: the name is taken from it, null included, and the hub's login is called. CHANGE_TILE is forwarded with no check. Every other kind leads to a bad request. A failed read changes nothing. |
| ClientThread.Run | src/place/server/PlaceClientThread.java:64-119 | A dead session reads nothing. Once set, the name never changes. The hub's login is called with a non-null name at most once, and only if no name was set. Logout is called at most once, and only as the session ends. |
| ClientThread.SecondLoginIgnored | src/place/server/PlaceClientThread.java:79-89 | Once the name is set, a LOGIN draws no reply, makes no hub call and changes nothing. |
| ClientThread.NullLoginLetsLoginAgain | src/place/server/PlaceClientThread.java:79-89 | A LOGIN with a null name leaves the name unset, so the next LOGIN calls the hub's login a second time. |
| ClientThread.ChangeTileBeforeLogin | src/place/server/PlaceClientThread.java:90-93 | A CHANGE_TILE sent before any LOGIN reaches the hub. |
| ClientThread.IllegalRequestEndsRun | src/place/server/PlaceClientThread.java:94-110 | A kind the client may not send ends the loop. Later inputs are never read. |
| ClientThread.ReadFailuresKeepAlive | src/place/server/PlaceClientThread.java:113-117 | Any number of failed reads leave the session alive and cause no effects. |
| NetworkClient.Connect | src/place/network/NetworkClient.java:64-128 | LOGIN with the username is sent first. Only a LOGIN_SUCCESS reply gets past the handshake. Any other reply closes the connection and fails. A BOARD reply initialises the model and starts the client. Anything else closes it and stops. |
| NetworkClient.SendTile | src/place/network/NetworkClient.java:130-140 | Sends one CHANGE_TILE carrying the tile. A failed write is swallowed. |
| NetworkClient.SendTiles | src/place/network/NetworkClient.java:130-140 | Sending tiles in turn adds exactly their CHANGE_TILE requests, in order, and changes nothing else. |
| ClientThread.SentTilesReachHub | src/place/server/PlaceClientThread.java:90-93 | The CHANGE_TILE requests the client sends, read in order by a live session, become the hub's tile-change calls for exactly those tiles, in order. The session itself is unchanged. |
| NetworkClient.Receive | src/place/network/NetworkClient.java:146-208 | TILE_CHANGED is applied to the model. ERROR stops the loop, and so does any other kind. A failed read changes nothing. The tiles notified grow by exactly the tile received. |
| NetworkClient.Run | src/place/network/NetworkClient.java:146-187 | When the loop ends the connection is closed. While it runs, only TILE_CHANGED messages arrived, and each was applied to the model in order. |
| NetworkClient.Stop | src/place/network/NetworkClient.java:59-62 | Clears go and nothing else. |
| NetworkClient.StopIdempotent | src/place/network/NetworkClient.java:59-62 | Stopping twice is the same as stopping once. |
| NetworkClient.ErrorEndsRun | src/place/network/NetworkClient.java:146-199 | An ERROR from the server stops and closes the client. Nothing read after it is applied. |
| NetworkClient.Close | src/place/network/NetworkClient.java:213-226 | Marks the connection closed and keeps the model and what was sent. |
| BoardObservable.InitializeBoard | src/place/PlaceBoardObservable.java:29-35 | The board is stored and the dimension becomes the board's. Every tile read afterwards is the board's own. |
| BoardObservable.Empty | src/place/PlaceBoardObservable.java:12 | The dimension is 0 before any board is stored. |
| BoardObservable.TileChanged | src/place/PlaceBoardObservable.java:74-80 | The tile is written, every other cell is unchanged, and one notification is added carrying exactly that tile and the already-updated board. The dimension still agrees with the board. |
| BoardObservable.NotifiedAfterWrite | src/place/PlaceBoardObservable.java:70-80 | Observers are told about exactly the changed tile, once, and the board they see already holds it. |
| BoardObservable.GetDim | src/place/PlaceBoardObservable.java:42-46 | Returns the board's dimension once a board is stored, and 0 before. |
| BoardObservable.GetTile | src/place/PlaceBoardObservable.java:56-60 | Returns a tile exactly when one was written at that cell, and it is that tile. |
| BoardObservable.GetTileIsLastWrite | src/place/PlaceBoardObservable.java:29-80 | After a board is received and tiles are reported, each cell reads as the last tile reported there, or as the received board's when none was. |
| BotProtocol.Words | src/place/client/bot/BotProtocol.java:17-71 | The protocol's command words are lower-case and pairwise distinct. |
| BotProtocol.ResetSpeed | src/place/client/bot/BotProtocol.java:83-96 | The default lies strictly between the speed bounds, so `speed()` always sets it. |
| BotProtocol.AdjustSpeed | src/place/client/bot/FillBot.java:391-403 | A requested speed takes effect exactly when it is within [600, 3600]. Otherwise the old speed stays. |
| FillBot.Initial | src/place/client/bot/FillBot.java:69-109 | Starts in cycle mode on colour 0 at the default speed, with the cursor at (0, 0), not running and not paused. |
| FillBot.Start | src/place/client/bot/FillBot.java:177-199 | Starts the loop at (0, 0) and keeps mode, colour and speed. |
| FillBot.CommandOf | src/place/client/bot/FillBot.java:265-318 | exit/quit, pause/stop and resume/play each select one handler, and only those words do. `cycle` has its own handler. Any word outside FillBot's twelve is unrecognised. |
| FillBot.AdvanceIsRowMajor | src/place/client/bot/FillBot.java:221-225 | One placement stays on the board and moves to the next cell in row-major order. After the last cell it returns to (0, 0). |
| FillBot.SweepIsRowMajor | src/place/client/bot/FillBot.java:198-199 | Starting at (0, 0), the k-th placement of a sweep goes to the cell of rank k. |
| FillBot.FullSweepReturnsToOrigin | src/place/client/bot/FillBot.java:221-225 | The cursor is back at (0, 0) after exactly dim * dim placements, and not before. |
| FillBot.Place | src/place/client/bot/FillBot.java:205-239 | Paused, nothing is sent and nothing changes. Otherwise the tile at the cursor in the current colour is sent and the cursor advances. Sticky keeps the colour. Random takes the drawn colour. Rainbow moves to the next colour. Cycle moves to the next colour exactly when the cursor wraps to (0, 0). |
| FillBot.CycleFillsBoardPerColour | src/place/client/bot/FillBot.java:228-232 | In cycle mode from (0, 0), the colour changes exactly once over a full sweep, at its last placement. |
| FillBot.StickyOnAsWritten | src/place/client/bot/FillBot.java:419-438 | sticky(c) takes effect exactly when 0 <= c < MAX_COLOR. It then sets the colour and the sticky flag and clears rainbow and random. The last palette colour is refused. |
| FillBot.StickyCurrent | src/place/client/bot/FillBot.java:408-412 | Makes the current colour sticky and clears rainbow and random, using the corrected check. Nothing else changes. |
| FillBot.Cycle | src/place/client/bot/FillBot.java:443-452 | Clears all three mode flags. |
| FillBot.Rainbow | src/place/client/bot/FillBot.java:457-466 | Sets rainbow only. At most one mode flag is then set. |
| FillBot.RandomMode | src/place/client/bot/FillBot.java:471-480 | Sets random only. At most one mode flag is then set. |
| FillBot.SetSpeed | src/place/client/bot/FillBot.java:391-403 | The speed changes exactly when the request is in bounds. |
| FillBot.DefaultSpeed | src/place/client/bot/FillBot.java:380-384 | Sets the default speed. |
| FillBot.Pause | src/place/client/bot/FillBot.java:358-364 | Sets pause and nothing else. |
| FillBot.Resume | src/place/client/bot/FillBot.java:369-375 | Clears pause and nothing else. |
| FillBot.Exit | src/place/client/bot/FillBot.java:347-353 | Clears go and nothing else. |
| FillBot.PausedPassesChangeNothing | src/place/client/bot/FillBot.java:205-211 | Any number of passes while paused, followed by resume, leave the bot exactly as it was. |
| RandomBot.Initial | src/place/client/bot/RandomBot.java:48-72 | Starts on colour 0 at the default speed, not sticky, not running and not paused. |
| RandomBot.Start | src/place/client/bot/RandomBot.java:140-153 | Sets go and nothing else. |
| RandomBot.CommandOf | src/place/client/bot/RandomBot.java:221-269 | exit/quit, pause/stop and resume/play each select one handler, and only those words do. `rainbow` is unrecognised, as is any word outside RandomBot's ten. |
| RandomBot.Place | src/place/client/bot/RandomBot.java:167-195 | Paused, nothing is sent. Otherwise the tile goes to the drawn position. The colour is redrawn unless sticky. |
| RandomBot.PlacementsInRange | src/place/client/bot/RandomBot.java:178-183 | Every tile is on the board, in a palette colour, under the bot's name. While sticky, every tile has the sticky colour. |
| RandomBot.StickyOnAsWritten | src/place/client/bot/RandomBot.java:378-395 | sticky(c) takes effect exactly when 0 <= c < MAX_COLOR, so the last palette colour is refused. On success it sets the colour and the sticky flag. |
| RandomBot.StickyCurrent | src/place/client/bot/RandomBot.java:368-372 | Makes the current colour sticky and changes nothing else, using the corrected check. |
| RandomBot.StickyCurrentAsWrittenStuckOnLastColour | src/place/client/bot/RandomBot.java:368-385 | As written, sticky() does nothing while the last palette colour is current, a colour the placement loop can draw. The corrected StickyCurrent makes it sticky. |
| RandomBot.RandomUndoesSticky | src/place/client/bot/RandomBot.java:356-395 | From a non-sticky bot, sticky(c) followed by random() leaves only the new colour behind. |
| RandomBot.RandomMode | src/place/client/bot/RandomBot.java:356-363 | Only clears sticky. |
| RandomBot.SetSpeed | src/place/client/bot/RandomBot.java:339-351 | The speed changes exactly when the request is in bounds. |
| RandomBot.DefaultSpeed | src/place/client/bot/RandomBot.java:328-332 | Sets the default speed. |
| RandomBot.Pause | src/place/client/bot/RandomBot.java:306-312 | Sets pause and nothing else. |
| RandomBot.Resume | src/place/client/bot/RandomBot.java:317-323 | Clears pause and nothing else. |
| RandomBot.Exit | src/place/client/bot/RandomBot.java:295-301 | Clears go and nothing else. |
| RandomBot.PauseResume | src/place/client/bot/RandomBot.java:167-172 | A paused bot sends nothing on a pass, and resume after pause restores the bot. |
| ProtectionBot.ProtectTile | src/place/client/bot/ProtectionBot.java:215-223 | Acts exactly when the position is the protected one and the owner is someone else. What it sends is the protected tile under the bot's name. |
| ProtectionBot.Update | src/place/client/bot/ProtectionBot.java:192-206 | Nothing happens while paused, while not observing, or when the argument is not a tile. Otherwise the tile's position and owner are checked. |
| ProtectionBot.ProtectionSettles | src/place/client/bot/ProtectionBot.java:215-223 | The bot's own reply triggers no further reply. Someone else's change at the protected position always draws one. |
| ProtectionBot.Replies | src/place/client/bot/ProtectionBot.java:192-223 | Over a run of notifications, exactly one protected tile is sent per intrusion by another user. |
| ProtectionBot.Start | src/place/client/bot/ProtectionBot.java:141-184 | Row, column and colour are read in turn without range checks. A missing or malformed one stops the bot, and nothing is observed or sent. A started bot checks its tile once. |
| ProtectionBot.StartWithUncheckedColorFaults | src/place/client/bot/ProtectionBot.java:154-161 | Any start colour outside [0, TOTAL_COLORS), negative ones included, is accepted and then faults at the first protection check. |
| ProtectionBot.CommandOf | src/place/client/bot/ProtectionBot.java:249-309 | exit/quit, pause/stop and resume/play each select one handler, and only those words do. `about`, `protect` and `change` have handlers. speed, sticky, rainbow, random and any other word are unrecognised. |
| ProtectionBot.Resume | src/place/client/bot/ProtectionBot.java:352-360 | Checks the tile as if the owner were "", so it sends whenever the bot's name is non-empty, then clears the pause. A colour outside the palette faults in that check, and the bot then stays paused and unchanged. |
| ProtectionBot.Pause | src/place/client/bot/ProtectionBot.java:341-347 | Sets pause and nothing else. |
| ProtectionBot.Exit | src/place/client/bot/ProtectionBot.java:318-324 | Clears go and nothing else. |
| ProtectionBot.PausedChangesReclaimedOnResume | src/place/client/bot/ProtectionBot.java:341-360 | A paused bot ignores changes. Resuming reclaims the tile. |
| ProtectionBot.ChangeAllAsWritten | src/place/client/bot/ProtectionBot.java:369-390 | Row, column and colour all change exactly when both coordinates are in [0, dim) and 0 <= colour < MAX_COLOR. Otherwise nothing changes. |
| ProtectionBot.ChangeRow | src/place/client/bot/ProtectionBot.java:397-411 | Only the row changes, and only to a value in [0, dim). |
| ProtectionBot.ChangeCol | src/place/client/bot/ProtectionBot.java:418-431 | Only the column changes, and only to a value in [0, dim). |
| ProtectionBot.ChangeColorAsWritten | src/place/client/bot/ProtectionBot.java:438-451 | Only the colour changes, and only to a value in [0, MAX_COLOR). |
| ProtectionBot.CommandsKeepProtecting | src/place/client/bot/ProtectionBot.java:369-451 | The change commands keep the protected tile on the board and in a palette colour, so protection never faults afterwards. |

## Left out

- Logging: the hub's `log`, `logErr`, `logSilent` and `now`, the never-called `fastRequest`, and every bot and client log line. All of these only write text.
- `PlaceServer`: the socket accept loop and the log files. Also left out are the bot and console launchers, and the GUI and text clients. These are I/O and UI wiring with no state of their own.
- Concurrency: `synchronized`, the unsynchronised `logout`, worker threads and `sleep`. Each operation is one atomic step, and the wait lengths (`speed`, `PAUSED_CHECK`) are kept only as values.
- Command tokenising with `Scanner` (`toLowerCase`, `split`, `parseInt`). The handlers are modelled on the numbers they receive. `ProtectionBot.Start` models a failed parse as a missing number.
- Java serialisation, `flush` and stream closing. A write is an append to a sink's log or a failure, and a sink either always fails or never does. A sink whose first write succeeds and later write fails (part of a login reply) is not modelled.
- Randomness: `Math.random` and `java.util.Random` become draw parameters within their stated ranges.
- `PlaceTile`'s timestamp, and the contents and bounds checks of `PlaceBoard`, are not part of this model. The board's validity check is a parameter.
- The `ClassCastException` a wrongly typed payload would raise is not modelled. Each request kind carries its expected payload type.
- `NetworkClient.Receive`: the `Platform.exit` call a failed read makes is not modelled. The state is left as it is.
- `NetworkClient.Connect`: a LOGIN write that throws in the constructor is not modelled. The LOGIN is always sent.
- `NetworkServer.Logout`: the host is a parameter, as in the source. The hub does not record which host each user came from.
- `NetworkServer.Logout` accepts only a host that has an entry. For a host without one, the source throws a NullPointerException when it unboxes the missing count (NetworkServer.java:228), and that path is not modelled.
- `NetworkServer.BadRequest` accepts only a registered user. For anyone else, `users.get` returns null and the write throws a NullPointerException (NetworkServer.java:202-207), and that path is not modelled.
- `BoardObservable.GetTile` requires a stored board. Before `initializeBoard`, the source throws a NullPointerException (PlaceBoardObservable.java:59), and that path is not modelled. Every caller runs after the board is stored (`NetworkClient.Ready`).
- `BoardObservable.TileChanged` requires a stored board, for the same reason (PlaceBoardObservable.java:74). Its only caller is the client's receive loop, which runs only once the board is stored.
- `ProtectionBot`'s `about` and its help and bad-format messages are left out. They only print.
- `ProtectionBot.CommandOf`: the `ABOUT` constant its switch uses is not defined in any file of this model. The model takes it to be the word `about`, which the bot's help text lists.
- `ProtectionBot.ColorFault` stands for the exception thrown by an out-of-range palette lookup. What that exception does to the calling thread is not modelled.
- `FillBot.Place`, `RandomBot.Place`: `dim` is taken as positive because the source divides by it or draws below it. With a zero dimension the Java code throws, and that case is not modelled.

## Findings

| source | as written | input that shows it | evidently intended | confidence | as-written member | corrected member |
|---|---|---|---|---|---|---|
| src/place/client/bot/FillBot.java:422 | `sticky(c)` refuses `c >= MAX_COLOR` | `sticky(TOTAL_COLORS - 1)` is refused, yet the help text (line 336) offers colours `MIN_COLOR`-`MAX_COLOR` and `MAX_COLOR` is documented as a choosable colour | refuse only `c > MAX_COLOR` | high, not executed | FillBot.StickyOnAsWritten | FillBot.StickyOn |
| src/place/client/bot/RandomBot.java:381 | `sticky(c)` refuses `c >= MAX_COLOR` | `sticky(TOTAL_COLORS - 1)` is refused although the help text (line 286) offers it | refuse only `c > MAX_COLOR` | high, not executed | RandomBot.StickyOnAsWritten | RandomBot.StickyOn |
| src/place/client/bot/ProtectionBot.java:440 | `change color c` refuses `c >= MAX_COLOR` | `change color TOTAL_COLORS-1` is refused although the help text (line 63) offers it | refuse only `c > MAX_COLOR` | high, not executed | ProtectionBot.ChangeColorAsWritten | ProtectionBot.ChangeColor |
| src/place/client/bot/ProtectionBot.java:373 | `protect r c color` refuses `color >= MAX_COLOR` | `protect 0 0 TOTAL_COLORS-1` is refused on any board | refuse only `color > MAX_COLOR` | high, not executed | ProtectionBot.ChangeAllAsWritten | ProtectionBot.ChangeAll |

`BotProtocol.ColorChecksDiffer` states how the two checks relate. The corrected check accepts exactly the palette indices [0, TOTAL_COLORS). The check as written accepts the same set minus `MAX_COLOR`. The rest of the model uses the corrected setters, so `FillBot.StickyCurrent` and `RandomBot.StickyCurrent` work on every colour. As written, each does nothing while the last colour is current (`FillBot.StickyCurrentAsWrittenStuckOnLastColour`, `RandomBot.StickyCurrentAsWrittenStuckOnLastColour`). RandomBot's placement loop can draw that colour.
