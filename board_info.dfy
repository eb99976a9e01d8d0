/**
 * The saved board: the layout message of the board, which is one of two
 * layout kinds, and the players' potential settlements.
 */
module SaveGameBoard {
  import opened Wrappers
  import opened SocGame
  import opened SaveGameErrors

  /** Exactly one of layout1 and layout2 is present in a captured board. */
  datatype BoardInfo = BoardInfo(
    layout1: Option<BoardLayout>,
    layout2: Option<BoardLayout2>,
    playerPotentials: seq<PotentialSettlements>)
  {
    /** The board's encoding: layout2's own, or the original encoding when layout1 is used. */
    function BoardEncodingFormat(): (r: int)
      ensures layout2.None? ==> r == BOARD_ENCODING_ORIGINAL
      ensures layout2.Some? ==> r == layout2.value.boardEncodingFormat
    {
      if layout2.Some? then layout2.value.boardEncodingFormat else BOARD_ENCODING_ORIGINAL
    }
  }

  /**
   * Capture of the board from the game handler's layout message and the
   * potentials it gathers for all players.
   */
  function BoardInfoOf(m: LayoutMessage, potentials: seq<PotentialSettlements>): (r: Result<BoardInfo, SaveError>)
    ensures r.Success? <==> !m.OtherMessage?
    ensures r.Success? ==> (r.value.layout1.Some? <==> !r.value.layout2.Some?)
    ensures r.Success? ==> r.value.playerPotentials == potentials
    ensures m.Layout1Message? ==> r.Success? && r.value.layout1 == Some(m.layout1)
                                  && r.value.BoardEncodingFormat() == BOARD_ENCODING_ORIGINAL
    ensures m.Layout2Message? ==> r.Success? && r.value.layout2 == Some(m.layout2)
                                  && r.value.BoardEncodingFormat() == m.layout2.boardEncodingFormat
    ensures m.OtherMessage? ==> r == Failure(UnexpectedLayoutMessage(m.msgType, m.className))
  {
    match m
    case Layout1Message(l) => Success(BoardInfo(Some(l), None, potentials))
    case Layout2Message(l) => Success(BoardInfo(None, Some(l), potentials))
    case OtherMessage(t, c) => Failure(UnexpectedLayoutMessage(t, c))
  }
}
