/** Values shared by the match engine and the statistics screen. */
module GameRecords {

  datatype Option<T> = None | Some(value: T)

  /** One finished match as it is stored and later read back for statistics.
      `result` holds one of the outcome tags "WIN", "DRAW" or "LOSE" as the
      match engine writes it; records read back from storage may hold anything. */
  datatype GameResult = GameResult(
    myPoints: int,
    opponentPoints: int,
    result: string,
    gotBonus: bool,
    gotYahtzee: bool,
    timestamp: int)

  /** Where a finished match is saved: the cloud store when a user is signed in,
      the local database otherwise. */
  datatype SaveTarget = CloudStore | LocalStore

  /** The single save call made when a match ends; the sink adds the timestamp. */
  datatype SaveRequest = SaveRequest(
    target: SaveTarget,
    myPoints: int,
    opponentPoints: int,
    result: string,
    gotBonus: bool,
    gotYahtzee: bool)
}
