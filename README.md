# Saved-game model of JSettlers2

A Dafny model of `SavedGameModel`, the data model that JSettlers2's server
uses to save a running Settlers-of-Catan game to a file and to resume a
loaded one. It covers:

- **capture** (`SavedGameModel(SOCGame)`): refuses a game still in its setup
  states (below `ROLL_OR_CARD`), stamps `MODEL_VERSION`, copies the game's
  name, packed options, current player, state and minimum client version,
  rounds the elapsed time to whole seconds, captures the board and builds
  one `PlayerInfo` per seat, vacant or not;
- **one seat** (`PlayerInfo(SOCPlayer, boolean)`): the player's identity and
  bot flags, the flattened list of (element type, value) pairs, the
  development cards split into new and old ones by inventory state, a copy
  of the pieces, and the fortress kept apart from them;
- **the board** (`BoardInfo(SOCGame)`): exactly one of the two layout
  message kinds, `SOCBoardLayout` or `SOCBoardLayout2`, or
  `IllegalArgumentException` for any other message;
- **resume** (`resumePlay`): allowed only while the game is `LOADING`, then
  restores the saved state code.

Modules: `SocGame` holds what the model reads from the live game (constants,
an abstract player record, the layout messages, and a `Game` class whose
state code is the one thing resume changes); `SaveGamePlayer`,
`SaveGameBoard` and `SaveGame` follow the nested classes `PlayerInfo`,
`BoardInfo` and the outer class of `SavedGameModel.java`; `SaveGameErrors`
turns the thrown exceptions into values of a `Result`.

`PlayerInfo` and `BoardInfo` are datatypes: the source sets their fields in
their constructors and never changes them. `SavedGameModel` is a class with
the source's data fields; `playerSeats` is an array. The capture
constructor becomes the static method `Capture`, which starts from the empty
model (as the source's `this()` does) and returns it or the exception. A
seat is built by the loop method `CapturePlayer` (its element loops are the
method `CaptureElements`), proved equal to the specification function
`PlayerInfoOf`; the order of the pairs, what a
reader can recover from them, and the card split are lemmas about that
function.

The element, piece, inventory and game-state constants come from
`SOCPlayerElement`, `SOCPlayingPiece`, `SOCInventory`, `SOCGame` and
`SOCBoard`, which are not part of this model. The values used are those of
JSettlers2 2.3 (`CLAY`..`UNKNOWN` = 1..6, `ROADS`..`SHIPS` = 10..13,
`NUMKNIGHTS` = 15, `SCENARIO_WARSHIP_COUNT` = 107, `ROAD`..`SHIP` = 0..3,
`FORTRESS` = 4, `NEW`/`PLAYABLE`/`KEPT` = 1/2/3, `ROLL_OR_CARD` = 15,
`LOADING` = 990, `BOARD_ENCODING_ORIGINAL` = 1). The proofs use these
relations among them: `CLAY`..`UNKNOWN` and `ROAD`..`SHIP` are runs of
consecutive codes, the count element of a piece type is `ROADS` plus that
type, and the element tags are distinct. `ElementsLayout` states its offsets
through the constants (`2 * (UNKNOWN - CLAY + 1)` resource entries, two per
piece type from the start type down to `ROAD`).

Where the code does less than its own comments and the feature's intent
describe, the model follows the code:

- The piece-count loop (`SavedGameModel.java:220-227`) lowers the piece
  type but never the element type, so every piece-count pair carries
  `SHIPS` (sea board) or `CITIES`. A reader applying the pairs in order
  (`ApplyElements`) therefore recovers the resources, knights and warships
  but, under that one tag, only the count of roads; there is no `ROADS` or
  `SETTLEMENTS` pair (`AppliedElements`). The pairs do not reconstruct every
  counter of the seat.
- Capture never assigns `currentDice`, although the field is documented as
  taken from the game's current dice (`SavedGameModel.java:74-75`), so a
  captured model holds 0 there whatever the game's dice (`IsSnapshotOf`).
- A vacant seat still gets all its pairs from its (empty) player object:
  the element list has the same length as for an occupied seat
  (`ElementsLayout` does not depend on vacancy).
- Inventory items that are not development cards are skipped without any
  warning (`SavedDevCards`).

## Model

| member | source | states |
|---|---|---|
| `SaveGame.DurationSeconds` | src/main/java/soc/server/savegame/SavedGameModel.java:119 | for elapsed times from 0 up to about 68 years the saved seconds are non-negative and round half up (within 500 ms of the elapsed time, ties up); a small negative elapsed time gives 0, as Java's division truncates toward zero |
| `SaveGame.DurationWrapsAfter68Years` | src/main/java/soc/server/savegame/SavedGameModel.java:119 | at 2^31 seconds the `(int)` cast wraps and the saved duration is negative |
| `SaveGame.ToLong` | src/main/java/soc/server/savegame/SavedGameModel.java:119 | a value that fits in a long is kept; any other is wrapped to the long that is congruent to it modulo 2^64 |
| `SaveGame.ToInt` | src/main/java/soc/server/savegame/SavedGameModel.java:119 | the `(int)` cast keeps a value that fits in an int and otherwise gives the int congruent to it modulo 2^32 |
| `SaveGame.JavaDiv` | src/main/java/soc/server/savegame/SavedGameModel.java:119 | Java's `/` on longs: the quotient truncated toward zero, so the remainder has the dividend's sign and is smaller than the divisor |
| `SaveGame.SavedGameModel.IsSnapshotOf` | src/main/java/soc/server/savegame/SavedGameModel.java:103-130 | besides the copied fields, a snapshot has one seat per player of the game, each seat records that seat's vacancy and has an even-length element list, and the board holds exactly one layout |
| `SaveGame.SavedGameModel.constructor` | src/main/java/soc/server/savegame/SavedGameModel.java:91-93 | the empty model for loading: no game bound, no board, no seats, every number 0 |
| `SaveGame.SavedGameModel.Capture` | src/main/java/soc/server/savegame/SavedGameModel.java:103-130 | a game below `ROLL_OR_CARD` gives `IllegalState`; otherwise an unknown layout message gives the board's error; capture succeeds exactly when neither happens, and the fresh model then holds `MODEL_VERSION`, the game's name, options, current player, state and minimum version, the rounded duration, the board, and one seat per seat |
| `SaveGame.SavedGameModel.NewPlayerSeats` | src/main/java/soc/server/savegame/SavedGameModel.java:127-129 | the seat array has length `maxPlayers` and seat `pn` is built from player `pn` with vacancy `isSeatVacant(pn)`; no seat is skipped |
| `SaveGame.SavedGameModel.ResumePlay` | src/main/java/soc/server/savegame/SavedGameModel.java:148-159 | outside `LOADING` it fails with `UnsupportedOperation` and leaves the state as it was; in `LOADING` it sets the game's state to the saved state and returns that game; `ignoreConstraints` has no effect |
| `SaveGame.SaveThenResume` | src/main/java/soc/server/savegame/SavedGameModel.java:141-159 | saving a playable game, holding it in `LOADING` and resuming it returns the game in the state it was saved in |
| `SaveGameBoard.BoardInfoOf` | src/main/java/soc/server/savegame/SavedGameModel.java:282-295 | a `SOCBoardLayout` sets only `layout1` (original encoding), a `SOCBoardLayout2` sets only `layout2` (its own encoding), with the encoding given by `BoardInfo.BoardEncodingFormat`; any other message fails naming its type and class; a captured board has exactly one layout and the potentials gathered for the game |
| `SaveGamePlayer.PlayerInfoOf` | src/main/java/soc/server/savegame/SavedGameModel.java:201-247 | a seat records the vacancy it was given, has an even-length element list, no more new dev cards than `NEW` items, the player's pieces and fortress, and for a well-formed player no saved piece is a fortress |
| `SaveGamePlayer.CapturePlayer` | src/main/java/soc/server/savegame/SavedGameModel.java:201-247 | the loops build exactly the seat `PlayerInfoOf` specifies; its element list has even length |
| `SaveGamePlayer.CaptureElements` | src/main/java/soc/server/savegame/SavedGameModel.java:212-233 | the resource, knight, piece and warship steps build exactly the element list `ElementsOf` specifies |
| `SaveGamePlayer.StartPieceType` | src/main/java/soc/server/savegame/SavedGameModel.java:220 | the piece count starts at `SHIP` exactly on a sea board and at `CITY` otherwise |
| `SaveGamePlayer.PieceCountTag` | src/main/java/soc/server/savegame/SavedGameModel.java:221 | the one tag of all piece-count pairs is the count element of the start piece type (`SHIPS` or `CITIES`), never `ROADS` or `SETTLEMENTS` |
| `SaveGamePlayer.WarshipPairs` | src/main/java/soc/server/savegame/SavedGameModel.java:228-233 | one pair (`SCENARIO_WARSHIP_COUNT`, n) when n is not 0, nothing when it is 0 |
| `SaveGamePlayer.DevCardTypes` | src/main/java/soc/server/savegame/SavedGameModel.java:236-242 | never more types than items, and one type per item when every item is a development card |
| `SaveGamePlayer.OldDevCardTypes` | src/main/java/soc/server/savegame/SavedGameModel.java:239-242 | over the `PLAYABLE` state alone, the dev cards among the playable items; over both states, the dev cards among the playable items followed by the kept ones |
| `SaveGamePlayer.AppendDevCardTypes` | src/main/java/soc/server/savegame/SavedGameModel.java:236-242 | the loop over an item list appends the types of its development cards, in list order, skipping other items |
| `SaveGamePlayer.ResourcePairs` | src/main/java/soc/server/savegame/SavedGameModel.java:213-217 | two entries per resource type covered |
| `SaveGamePlayer.PiecePairs` | src/main/java/soc/server/savegame/SavedGameModel.java:220-227 | two entries per piece type covered |
| `SaveGamePlayer.ElementsOf` | src/main/java/soc/server/savegame/SavedGameModel.java:173-178 | the element list always has even length |
| `SaveGamePlayer.ResourcePairsLayout` | src/main/java/soc/server/savegame/SavedGameModel.java:213-217 | pair i is (CLAY + i, amount of CLAY + i), ascending |
| `SaveGamePlayer.PiecePairsLayout` | src/main/java/soc/server/savegame/SavedGameModel.java:220-227 | every pair carries the same element type; pair i holds the count of piece type top - i, descending |
| `SaveGamePlayer.ElementsLayout` | src/main/java/soc/server/savegame/SavedGameModel.java:212-233 | the whole order: six resource pairs `CLAY`..`UNKNOWN`, then (`NUMKNIGHTS`, knights), then one pair per piece type from `SHIP` or `CITY` down to `ROAD` all tagged `SHIPS` or `CITIES`, then (`SCENARIO_WARSHIP_COUNT`, n) only when n is not 0; the exact length |
| `SaveGamePlayer.ApplyElementsConcat` | src/main/java/soc/server/savegame/SavedGameModel.java:173-178 | applying two pair lists one after the other gives the first's values overridden by the second's |
| `SaveGamePlayer.ApplyResourcePairs` | src/main/java/soc/server/savegame/SavedGameModel.java:213-217 | reading the six resource pairs back gives, type by type, each resource amount (`ResourceMapContents`: exactly the types `CLAY`..`UNKNOWN`) |
| `SaveGamePlayer.ResourceMapContents` | src/main/java/soc/server/savegame/SavedGameModel.java:213-217 | the resources read back are exactly `CLAY` up to the bound, each with its amount |
| `SaveGamePlayer.ApplyPiecePairs` | src/main/java/soc/server/savegame/SavedGameModel.java:220-227 | as every piece-count pair carries the same tag, reading them back leaves one entry, the count of the last piece type written |
| `SaveGamePlayer.AppliedElements` | src/main/java/soc/server/savegame/SavedGameModel.java:212-233 | reading the pairs back gives every resource amount, the knights, the warships exactly when non-zero, and under the piece tag only the road count; `ROADS` and `SETTLEMENTS` are never set, and no other element is |
| `SaveGamePlayer.DevCardTypesMembership` | src/main/java/soc/server/savegame/SavedGameModel.java:236-242 | a type is listed exactly when some development card among the items has it |
| `SaveGamePlayer.SavedDevCards` | src/main/java/soc/server/savegame/SavedGameModel.java:235-243 | `newDevCards` are the `NEW` dev card types in inventory order, `oldDevCards` the `PLAYABLE` then the `KEPT` ones; each list holds a type exactly when a development card of that state has it |
| `SaveGamePlayer.SavedPiecesAndFortress` | src/main/java/soc/server/savegame/SavedGameModel.java:201-247 | the seat keeps name, vacancy, VP, bot flags and face, copies the pieces in order, keeps the fortress (None when there is none) and, for a well-formed player, the fortress is not among the pieces |
| `SaveGamePlayer.StartOfPlaySeat` | src/main/java/soc/server/savegame/SavedGameModel.java:201-247 | a seat with 2 clay, 1 wood and 14 roads left on a board without sea lists (CLAY, 2), (WOOD, 1) and (CITIES, 14), 20 entries in all, and its one playable card as an old dev card |

## Left out

- The clock and the start time: `Capture` takes the elapsed milliseconds as a parameter; only the rounding and Java's long and int arithmetic are modelled.
- `SOCGameOption.packOptionsToString`, `SOCGameHandler.getBoardLayoutMessage` and `SOCGameHandler.gatherBoardPotentials` are calls into code outside this model: the game carries their results (an optional packed options string, a layout message that is one of the two layouts or some other message, and a sequence of potentials).
- The internals of `SOCPlayer`, `SOCResourceSet`, `SOCInventory`, `SOCPlayingPiece` and `SOCFortress` are not part of this model: a player is a record of resource amounts, knights, piece counts, warships, inventory by state, pieces and an optional fortress; a fortress is a piece of type `FORTRESS`.
- `SOCGame.setGameState` is reduced to assigning the state code.
- `Constraint` is an empty class and the constraint check in `resumePlay` is not written yet, so there is nothing to model beyond `ignoreConstraints` having no effect.
- How a loaded game gets bound to the model is not in this file: `ResumePlay` requires a bound game, where the source would fail with a null pointer.
- `getGame` is a plain accessor of the bound game and has no member of its own.
- MODEL_VERSION: the source declares it `public static int` without `final`; the model treats it as the fixed value 2300.
- DurationSeconds: its round-half-up ensures is stated only for elapsed times up to 2^31 seconds less half a second, because above that the source's `(int)` cast wraps (see `DurationWrapsAfter68Years`).
- The mutual-exclusion of the two layouts is stated on captured boards (`BoardInfoOf`); a `BoardInfo` value built by other means is not constrained.
- File serialisation and loading, and locking against concurrent play during capture, are outside this file.
- The human-readable size formatting helper `I18n.bytesToHumanUnits` is not part of this model.
