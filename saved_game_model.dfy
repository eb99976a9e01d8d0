/**
 * The data model of a saved game: capture of a running game into a
 * snapshot, and resumption of a loaded game.
 */
module SaveGame {
  import opened Wrappers
  import opened SocGame
  import opened SaveGameErrors
  import opened SaveGamePlayer
  import opened SaveGameBoard

  /** Version of this model, in the same form as the game's version numbers: 2300 for 2.3.00. */
  const MODEL_VERSION := 2300

  // ----- Java's long and int arithmetic, for the game duration -----

  const MIN_LONG := -0x8000_0000_0000_0000
  const MAX_LONG := 0x7FFF_FFFF_FFFF_FFFF
  const MIN_INT := -0x8000_0000
  const MAX_INT := 0x7FFF_FFFF

  type Long = x: int | MIN_LONG <= x <= MAX_LONG
  type Int32 = x: int | MIN_INT <= x <= MAX_INT

  /** A long result: the mathematical value wrapped to 64-bit two's complement. */
  function ToLong(x: int): (r: Long)
    ensures MIN_LONG <= x <= MAX_LONG ==> r == x
    ensures (x - r) % 0x1_0000_0000_0000_0000 == 0
  {
    (x - MIN_LONG) % 0x1_0000_0000_0000_0000 + MIN_LONG
  }

  /** The (int) cast of a long: its low 32 bits, as two's complement. */
  function ToInt(x: int): (r: Int32)
    ensures MIN_INT <= x <= MAX_INT ==> r == x
    ensures (x - r) % 0x1_0000_0000 == 0
  {
    (x - MIN_INT) % 0x1_0000_0000 + MIN_INT
  }

  /** Java's integer division, which rounds toward zero. */
  function JavaDiv(a: int, b: int): (q: int)
    requires b > 0
    ensures 0 <= a ==> 0 <= a - q * b < b
    ensures a < 0 ==> -b < a - q * b <= 0
  {
    if a >= 0 then a / b else -((-a) / b)
  }

  /** The largest elapsed time, in milliseconds, whose rounded seconds still fit in an int. */
  const MAX_EXACT_MILLIS := 0x8000_0000 * 1000 - 501

  /**
   * Elapsed milliseconds rounded half up to whole seconds, computed in long
   * arithmetic and cast to int. The result is exact and non-negative for
   * elapsed times up to about 68 years; a negative elapsed time of less
   * than 1.5 seconds rounds to 0, because the division truncates toward zero.
   */
  function DurationSeconds(elapsedMillis: Long): (s: Int32)
    ensures 0 <= elapsedMillis <= MAX_EXACT_MILLIS ==>
      0 <= s && s * 1000 - 500 <= elapsedMillis < s * 1000 + 500
    ensures -1500 < elapsedMillis < 500 ==> s == 0
  {
    ToInt(JavaDiv(ToLong(elapsedMillis + 500), 1000))
  }

  /** Past 2^31 seconds the int cast wraps and the saved duration turns negative. */
  lemma DurationWrapsAfter68Years()
    ensures DurationSeconds(0x8000_0000 * 1000) < 0
  {
  }

  // ----- The model -----

  class SavedGameModel {
    /** The game saved into this model, or the loaded game; null until one is bound. */
    var game: Game?

    var modelVersion: int
    var gameMinVersion: int
    var gameName: Option<string>
    var gameOptions: Option<string>
    var gameDurationSeconds: int
    var currentPlayerNumber: int
    var gameState: int
    var currentDice: int
    var boardInfo: Option<BoardInfo>
    /** One entry per seat, vacant or not. */
    var playerSeats: array?<PlayerInfo>

    /** An empty model, to load a saved game into. */
    constructor ()
      ensures game == null && boardInfo == None && playerSeats == null
      ensures gameName == None && gameOptions == None
      ensures modelVersion == 0 && gameMinVersion == 0 && gameDurationSeconds == 0
      ensures currentPlayerNumber == 0 && gameState == 0 && currentDice == 0
    {
      game := null;
      modelVersion, gameMinVersion := 0, 0;
      gameName, gameOptions := None, None;
      gameDurationSeconds, currentPlayerNumber, gameState, currentDice := 0, 0, 0, 0;
      boardInfo := None;
      playerSeats := null;
    }

    /**
     * This model holds what capturing ga, elapsedMillis after its start,
     * saves: the current model version, the game's name, options, current
     * player, state and minimum version, the rounded duration, the board,
     * and one seat per seat of the game built from that seat's player and
     * vacancy. The current dice are not saved and stay 0.
     */
    ghost predicate IsSnapshotOf(ga: Game, elapsedMillis: Long)
      reads this, playerSeats, ga
      requires ga.Valid()
      ensures IsSnapshotOf(ga, elapsedMillis) ==>
        && playerSeats != null && playerSeats.Length == |ga.players|
        && (forall pn :: 0 <= pn < playerSeats.Length ==>
              playerSeats[pn].isSeatVacant == ga.seatVacant[pn] && |playerSeats[pn].elements| % 2 == 0)
        && boardInfo.Some? && (boardInfo.value.layout1.Some? <==> boardInfo.value.layout2.None?)
    {
      && game == ga
      && modelVersion == MODEL_VERSION
      && gameName == Some(ga.name)
      && gameOptions == ga.packedOptions
      && gameDurationSeconds == DurationSeconds(elapsedMillis)
      && currentPlayerNumber == ga.currentPlayerNumber
      && gameState == ga.gameState
      && gameMinVersion == ga.clientVersionMinRequired
      && currentDice == 0
      && BoardInfoOf(ga.layoutMessage, ga.potentials).Success?
      && boardInfo == Some(BoardInfoOf(ga.layoutMessage, ga.potentials).value)
      && playerSeats != null
      && playerSeats.Length == ga.maxPlayers
      && forall pn :: 0 <= pn < ga.maxPlayers ==>
           playerSeats[pn] == PlayerInfoOf(ga.players[pn], ga.seatVacant[pn], ga.hasSeaBoard)
    }

    /**
     * Capture of a game to save. A game still in its setup states is
     * refused, and so is a board whose layout message is of neither layout
     * kind; the game itself is not changed.
     */
    static method Capture(ga: Game, elapsedMillis: Long) returns (r: Result<SavedGameModel, SaveError>)
      requires ga.Valid()
      ensures ga.gameState < ROLL_OR_CARD ==> r == Failure(IllegalState("gameState"))
      ensures ga.gameState >= ROLL_OR_CARD && ga.layoutMessage.OtherMessage? ==>
        r == Failure(UnexpectedLayoutMessage(ga.layoutMessage.msgType, ga.layoutMessage.className))
      ensures r.Success? <==> ga.gameState >= ROLL_OR_CARD && !ga.layoutMessage.OtherMessage?
      ensures r.Success? ==> fresh(r.value) && fresh(r.value.playerSeats) && r.value.IsSnapshotOf(ga, elapsedMillis)
    {
      var sgm := new SavedGameModel();

      if ga.gameState < ROLL_OR_CARD {
        return Failure(IllegalState("gameState"));
      }

      sgm.modelVersion := MODEL_VERSION;
      sgm.game := ga;

      sgm.gameName := Some(ga.name);
      sgm.gameOptions := ga.packedOptions;
      sgm.gameDurationSeconds := DurationSeconds(elapsedMillis);
      sgm.currentPlayerNumber := ga.currentPlayerNumber;
      sgm.gameState := ga.gameState;
      sgm.gameMinVersion := ga.clientVersionMinRequired;

      var board := BoardInfoOf(ga.layoutMessage, ga.potentials);
      if board.Failure? {
        return Failure(board.error);
      }
      sgm.boardInfo := Some(board.value);

      sgm.playerSeats := NewPlayerSeats(ga);
      return Success(sgm);
    }

    /** The seats of a captured game: every seat, in seat order, vacant or not. */
    static method NewPlayerSeats(ga: Game) returns (seats: array<PlayerInfo>)
      requires ga.Valid()
      ensures fresh(seats)
      ensures seats.Length == ga.maxPlayers
      ensures forall pn :: 0 <= pn < ga.maxPlayers ==>
        seats[pn] == PlayerInfoOf(ga.players[pn], ga.seatVacant[pn], ga.hasSeaBoard)
    {
      seats := new PlayerInfo[ga.maxPlayers];
      for pn := 0 to ga.maxPlayers
        invariant forall k :: 0 <= k < pn ==>
          seats[k] == PlayerInfoOf(ga.players[k], ga.seatVacant[k], ga.hasSeaBoard)
      {
        seats[pn] := CapturePlayer(ga.players[pn], ga.seatVacant[pn], ga.hasSeaBoard);
      }
    }

    /**
     * Resume play of a loaded game: allowed only while the game is LOADING,
     * and then it returns the game in the state it was saved in. There are
     * no constraints to check yet, so ignoreConstraints changes nothing.
     */
    method ResumePlay(ignoreConstraints: bool) returns (r: Result<Game, SaveError>)
      requires game != null
      modifies game`gameState
      ensures old(game.gameState) == LOADING ==> r == Success(game) && game.gameState == gameState
      ensures old(game.gameState) != LOADING ==>
        r == Failure(UnsupportedOperation("gameState")) && game.gameState == old(game.gameState)
    {
      if game.gameState != LOADING {
        return Failure(UnsupportedOperation("gameState"));
      }

      game.SetGameState(gameState);
      return Success(game);
    }
  }

  /**
   * Save a game, hold it in LOADING as a loader does, then resume it: play
   * continues in the state the game was in when it was saved.
   */
  method SaveThenResume(ga: Game, elapsedMillis: Long) returns (r: Result<Game, SaveError>)
    requires ga.Valid()
    requires ga.gameState >= ROLL_OR_CARD && !ga.layoutMessage.OtherMessage?
    modifies ga
    ensures r == Success(ga) && ga.gameState == old(ga.gameState)
  {
    var saved := SavedGameModel.Capture(ga, elapsedMillis);
    var sgm := saved.value;
    ga.SetGameState(LOADING);
    r := sgm.ResumePlay(false);
  }
}
