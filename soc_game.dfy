/**
 * The parts of the live game that the save-game model reads or changes:
 * the element, piece, inventory and state constants it uses, an abstract
 * player record, the board layout messages, and the game object whose
 * state code resume changes.
 */
module SocGame {
  import opened Wrappers

  // Game state codes (SOCGame)
  const ROLL_OR_CARD := 15
  const LOADING := 990

  // Player element types (SOCPlayerElement); CLAY .. UNKNOWN equal the resource types
  const CLAY := 1
  const ORE := 2
  const SHEEP := 3
  const WHEAT := 4
  const WOOD := 5
  const UNKNOWN := 6
  const ROADS := 10
  const SETTLEMENTS := 11
  const CITIES := 12
  const SHIPS := 13
  const NUMKNIGHTS := 15
  const SCENARIO_WARSHIP_COUNT := 107

  // Piece types (SOCPlayingPiece)
  const ROAD := 0
  const SETTLEMENT := 1
  const CITY := 2
  const SHIP := 3
  const FORTRESS := 4

  // Inventory item states (SOCInventory)
  const NEW := 1
  const PLAYABLE := 2
  const KEPT := 3

  // Board encoding of a layout sent as SOCBoardLayout (SOCBoard)
  const BOARD_ENCODING_ORIGINAL := 1

  /** A player's resource amounts, one per resource type, plus the unknown bucket. */
  datatype ResourceSet = ResourceSet(clay: int, ore: int, sheep: int, wheat: int, wood: int, unknown: int)
  {
    function GetAmount(rtype: int): int
    {
      if rtype == CLAY then clay
      else if rtype == ORE then ore
      else if rtype == SHEEP then sheep
      else if rtype == WHEAT then wheat
      else if rtype == WOOD then wood
      else if rtype == UNKNOWN then unknown
      else 0
    }
  }

  /** How many pieces of each buildable type a player has left to place. */
  datatype PieceCounts = PieceCounts(roads: int, settlements: int, cities: int, ships: int)
  {
    function NumPieces(ptype: int): int
      requires ROAD <= ptype <= SHIP
    {
      if ptype == ROAD then roads
      else if ptype == SETTLEMENT then settlements
      else if ptype == CITY then cities
      else ships
    }
  }

  /** One item of a player's inventory; isDevCard tells a standard development card from other item kinds. */
  datatype InventoryItem = InventoryItem(itype: int, isDevCard: bool)

  /** A player's inventory, one list per item state. */
  datatype Inventory = Inventory(news: seq<InventoryItem>, playables: seq<InventoryItem>, kept: seq<InventoryItem>)
  {
    function GetByState(state: int): seq<InventoryItem>
    {
      if state == NEW then news
      else if state == PLAYABLE then playables
      else if state == KEPT then kept
      else []
    }
  }

  /** A piece on the board: its type, its coordinate and its owner's seat number. */
  datatype PlayingPiece = PlayingPiece(ptype: int, coordinates: int, playerNumber: int)

  /** Everything the save-game model reads from one seat's player object. */
  datatype Player = Player(
    name: Option<string>,
    totalVP: int,
    isRobot: bool,
    isBuiltInRobot: bool,
    faceId: int,
    resources: ResourceSet,
    numKnights: int,
    numPieces: PieceCounts,
    numWarships: int,
    inventory: Inventory,
    pieces: seq<PlayingPiece>,
    fortress: Option<PlayingPiece>)
  {
    /** The player keeps its fortress apart from its list of pieces. */
    predicate Valid()
    {
      && (forall p :: p in pieces ==> p.ptype != FORTRESS)
      && (fortress.Some? ==> fortress.value.ptype == FORTRESS)
    }
  }

  /** Layout of a board in the original encoding (SOCBoardLayout). */
  datatype BoardLayout = BoardLayout(hexLayout: seq<int>, numberLayout: seq<int>, robberHex: int)

  /** Layout of a board in any encoding, as named parts (SOCBoardLayout2). */
  datatype BoardLayout2 = BoardLayout2(boardEncodingFormat: int, layoutParts: map<string, seq<int>>)

  /** The message the game handler produces for a game's board: one of the two layouts, or some other message. */
  datatype LayoutMessage =
    | Layout1Message(layout1: BoardLayout)
    | Layout2Message(layout2: BoardLayout2)
    | OtherMessage(msgType: int, className: string)

  /** One potential-settlements message: for one player, or for all players when playerNumber is -1. */
  datatype PotentialSettlements = PotentialSettlements(playerNumber: int, nodes: seq<int>)

  /**
   * The live game. Only its state code changes here; every other input is
   * fixed while the game is captured. packedOptions is the packed options
   * string of a game that has options, None for a game without;
   * layoutMessage and potentials are what the game handler produces for
   * this game's board.
   */
  class Game {
    const name: string
    const packedOptions: Option<string>
    const currentPlayerNumber: int
    const clientVersionMinRequired: int
    const currentDice: int
    const maxPlayers: nat
    const hasSeaBoard: bool
    const players: seq<Player>
    const seatVacant: seq<bool>
    const layoutMessage: LayoutMessage
    const potentials: seq<PotentialSettlements>
    var gameState: int

    /** There is one player object and one vacancy flag per seat. */
    predicate Valid()
    {
      |players| == maxPlayers && |seatVacant| == maxPlayers
    }

    constructor (name: string, packedOptions: Option<string>, currentPlayerNumber: int,
                 clientVersionMinRequired: int, currentDice: int, maxPlayers: nat, hasSeaBoard: bool,
                 players: seq<Player>, seatVacant: seq<bool>, layoutMessage: LayoutMessage,
                 potentials: seq<PotentialSettlements>, gameState: int)
      ensures this.name == name && this.packedOptions == packedOptions
      ensures this.currentPlayerNumber == currentPlayerNumber
      ensures this.clientVersionMinRequired == clientVersionMinRequired
      ensures this.currentDice == currentDice && this.maxPlayers == maxPlayers
      ensures this.hasSeaBoard == hasSeaBoard && this.players == players && this.seatVacant == seatVacant
      ensures this.layoutMessage == layoutMessage && this.potentials == potentials
      ensures this.gameState == gameState
    {
      this.name := name;
      this.packedOptions := packedOptions;
      this.currentPlayerNumber := currentPlayerNumber;
      this.clientVersionMinRequired := clientVersionMinRequired;
      this.currentDice := currentDice;
      this.maxPlayers := maxPlayers;
      this.hasSeaBoard := hasSeaBoard;
      this.players := players;
      this.seatVacant := seatVacant;
      this.layoutMessage := layoutMessage;
      this.potentials := potentials;
      this.gameState := gameState;
    }

    method SetGameState(gs: int)
      modifies this`gameState
      ensures gameState == gs
    {
      gameState := gs;
    }
  }
}
