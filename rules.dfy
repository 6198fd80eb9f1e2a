/**
 * The legality rules for a move, as playCard checks them before it changes anything.
 */
module Rules {
  import opened Wrappers
  import opened Cards
  import opened Table

  /** Which check turned a move down. The engine itself only answers `false`. */
  datatype Refusal =
    | PlayerNotFound
    | NotYourTurn
    | InvalidCardIndex
    | TableFull
    | RankMismatch
    | MissingTarget
    | InvalidTarget
    | AlreadyDefended
    | CannotBeat
    | NoRole
    | CannotTakeNow

  /**
   * The answer to a move: accepted, refused, or the TypeError playCard throws when
   * it reads the id of a current player that was never set.
   */
  datatype Outcome = Ok | Refused(reason: Refusal) | Threw

  /**
   * The attack rule: any card opens an empty table; a throw-in needs a free slot and
   * the rank of one of the attack cards already laid.
   */
  function AttackRefusal(table: seq<Slot>, c: Card): (r: Option<Refusal>)
    ensures r.None? <==>
      (|table| == 0 || (|table| < MaxSlots && exists i :: 0 <= i < |table| && table[i].attack.rank == c.rank))
    ensures r == Some(TableFull) <==> |table| >= MaxSlots
    ensures r.Some? ==> r.value in {TableFull, RankMismatch}
  {
    if |table| == 0 then None
    else if |table| < MaxSlots then
      if c.rank in AttackRanks(table) then None else Some(RankMismatch)
    else Some(TableFull)
  }

  /**
   * The defence rule: the target must name an existing slot that has not been
   * beaten, and the card must beat that slot's attack card.
   */
  function DefenceRefusal(trump: Suit, table: seq<Slot>, target: Option<int>, c: Card): (r: Option<Refusal>)
    ensures r.None? <==>
      (target.Some? && 0 <= target.value < |table| && table[target.value].defence.None?
       && CanBeat(trump, table[target.value].attack, c))
    ensures r == Some(MissingTarget) <==> target.None?
    ensures r == Some(InvalidTarget) <==> (target.Some? && !(0 <= target.value < |table|))
    ensures r == Some(AlreadyDefended) <==>
      (target.Some? && 0 <= target.value < |table| && table[target.value].defence.Some?)
    ensures r == Some(CannotBeat) <==>
      (target.Some? && 0 <= target.value < |table| && table[target.value].defence.None?
       && !CanBeat(trump, table[target.value].attack, c))
  {
    match target
    case None => Some(MissingTarget)
    case Some(j) =>
      if j < 0 || j >= |table| then Some(InvalidTarget)
      else if table[j].defence.Some? then Some(AlreadyDefended)
      else if CanBeat(trump, table[j].attack, c) then None
      else Some(CannotBeat)
  }
}
