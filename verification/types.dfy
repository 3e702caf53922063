/**
 * The game's value types (src/types/game.ts): an item with its two labels,
 * a content group ("sub learning objective"), the variation mode and the
 * eight-field session state kept in the store.
 */
module GameTypes {

  datatype Option<T> = None | Some(value: T)

  /** An item shows either its own name or a "similar" confusable name. */
  datatype GameItem = GameItem(name: string, similar: string)

  /** A content group; its position in the table is the level. */
  datatype SubLO = SubLO(id: int, name: string, items: seq<GameItem>)

  /** The variation mode is one of the numbers 1, 2 and 3. */
  type Variation = v: int | 1 <= v <= 3 witness 1

  /**
   * The session state. JavaScript numbers are modelled as unbounded
   * integers: every counter here is a small non-negative whole number.
   */
  datatype GameState = GameState(
    currentSubLO: int,
    currentVariation: Variation,
    currentTarget: string,
    score: int,
    attempts: int,
    consecutiveNoResponse: int,
    stars: int,
    isGameOver: bool)

  /** Math.min on two integers. */
  function Min(a: int, b: int): int {
    if a <= b then a else b
  }
}
