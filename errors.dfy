/** The exceptions the save-game model throws, as values. */
module SaveGameErrors {

  datatype SaveError =
      /** IllegalStateException("gameState"): capture of a game still in its setup states. */
    | IllegalState(what: string)
      /** IllegalArgumentException: the board layout message is of neither known type;
          the message text names the message's type number and class. */
    | UnexpectedLayoutMessage(msgType: int, className: string)
      /** UnsupportedOperationException("gameState"): resume of a game not in LOADING. */
    | UnsupportedOperation(what: string)
}
