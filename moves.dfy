/**
 * The engine's state written out as plain values, the invariant it keeps, and one
 * lemma per kind of move showing that the move keeps it. Every card of the pack is
 * always in exactly one place: the deck, a hand, the table, the pile of beaten
 * rounds, or the hands of players who left.
 */
module Moves {
  import opened Wrappers
  import opened Cards
  import opened Table
  import opened Hands
  import opened Rules

  /** `gameState`. The engine moves between Waiting and Playing; Finished is written by the session layer. */
  datatype Phase = Waiting | Playing | Finished

  /** The cards still in play: deck, hands and table. */
  function InPlay(deck: seq<Card>, ps: seq<Player>, table: seq<Slot>): (cs: multiset<Card>)
  {
    multiset(deck) + HandCards(ps) + TableCards(table)
  }

  /** The cards in play together with the beaten rounds and the hands of players who left. */
  function Everywhere(deck: seq<Card>, ps: seq<Player>, table: seq<Slot>,
                      discard: multiset<Card>, departed: multiset<Card>): (cs: multiset<Card>)
  {
    InPlay(deck, ps, table) + discard + departed
  }

  /**
   * The engine's fields as one value. `discard` (cards of fully beaten rounds) and
   * `departed` (hands of players who left) are bookkeeping that the engine drops.
   */
  datatype Engine = Engine(players: seq<Player>, deck: seq<Card>, table: seq<Slot>,
                           currentPlayer: Option<PlayerId>, attacker: Option<PlayerId>, defender: Option<PlayerId>,
                           trumpSuit: Suit, gameState: Phase, discard: multiset<Card>, departed: multiset<Card>)

  /** Both seats are taken and the three role references name the two seated players. */
  predicate Seated(ps: seq<Player>, attacker: Option<PlayerId>, defender: Option<PlayerId>,
                   currentPlayer: Option<PlayerId>)
  {
    && |ps| == 2
    && attacker.Some? && defender.Some? && currentPlayer.Some?
    && ((attacker.value == ps[0].id && defender.value == ps[1].id)
        || (attacker.value == ps[1].id && defender.value == ps[0].id))
    && (currentPlayer.value == ps[0].id || currentPlayer.value == ps[1].id)
  }

  /**
   * The shape kept between moves: at most two seats and six slots, the three role
   * references set together, no role flag before the first start, and a game in play
   * only with both seats taken by the role holders.
   */
  predicate WellFormed(e: Engine)
  {
    && |e.players| <= 2
    && |e.table| <= MaxSlots
    && (e.attacker.Some? <==> e.defender.Some?)
    && (e.attacker.Some? <==> e.currentPlayer.Some?)
    && (e.attacker.None? ==> forall j :: 0 <= j < |e.players| ==> !e.players[j].isAttacker && !e.players[j].isDefender)
    && (|e.players| < 2 ==> e.gameState == Waiting)
    && (e.gameState == Playing ==> Seated(e.players, e.attacker, e.defender, e.currentPlayer))
  }

  /** Every card of the pack is in exactly one place. */
  predicate Conserved(e: Engine)
  {
    AllCards(e) == multiset(FreshPack())
  }

  /** Every card the engine accounts for, in play or set aside. */
  function AllCards(e: Engine): (cs: multiset<Card>)
  {
    Everywhere(e.deck, e.players, e.table, e.discard, e.departed)
  }

  /** What holds between moves. */
  predicate Inv(e: Engine)
  {
    WellFormed(e) && Conserved(e)
  }

  /** players[k] after hand card i has left their hand, the other players as they were. */
  function Played(ps: seq<Player>, k: nat, i: nat): (qs: seq<Player>)
    requires k < |ps| && i < |ps[k].hand|
    ensures |qs| == |ps|
    ensures qs[k] == ps[k].(hand := RemoveAt(ps[k].hand, i))
    ensures forall j :: 0 <= j < |ps| && j != k ==> qs[j] == ps[j]
  {
    ps[k := ps[k].(hand := RemoveAt(ps[k].hand, i))]
  }

  /** A card leaving a hand leaves the bag of hand cards and nothing else. */
  lemma PlayedCards(ps: seq<Player>, k: nat, i: nat)
    requires k < |ps| && i < |ps[k].hand|
    ensures HandCards(Played(ps, k, i)) + multiset{ps[k].hand[i]} == HandCards(ps)
    ensures forall j :: 0 <= j < |ps| ==> Played(ps, k, i)[j].id == ps[j].id
  {
    var p := ps[k].(hand := RemoveAt(ps[k].hand, i));
    HandCardsUpdate(ps, k, p);
    var a, h, r := HandCards(ps[k := p]), multiset(ps[k].hand), multiset(p.hand);
    assert a + h == HandCards(ps) + r;
    assert r + multiset{ps[k].hand[i]} == h;
    forall x ensures (a + multiset{ps[k].hand[i]})[x] == HandCards(ps)[x] {
      assert (a + h)[x] == (HandCards(ps) + r)[x];
      assert (r + multiset{ps[k].hand[i]})[x] == h[x];
    }
  }

  /** A card moving from a hand onto the table: hands and table together hold the same cards. */
  lemma PlayedOnto(ps: seq<Player>, table: seq<Slot>, t': seq<Slot>, k: nat, i: nat)
    requires k < |ps| && i < |ps[k].hand|
    requires TableCards(t') == TableCards(table) + multiset{ps[k].hand[i]}
    ensures HandCards(Played(ps, k, i)) + TableCards(t') == HandCards(ps) + TableCards(table)
  {
    PlayedCards(ps, k, i);
    ShiftCard(HandCards(Played(ps, k, i)), HandCards(ps), TableCards(table), TableCards(t'), ps[k].hand[i]);
  }

  /** One card moved from one bag to another leaves their sum unchanged. */
  lemma ShiftCard(a: multiset<Card>, b: multiset<Card>, t: multiset<Card>, t': multiset<Card>, c: Card)
    requires a + multiset{c} == b && t' == t + multiset{c}
    ensures a + t' == b + t
  {
    forall x ensures (a + t')[x] == (b + t)[x] {
      assert (a + multiset{c})[x] == b[x];
    }
  }

  /** A played card leaves every seat's id and flags as they were. */
  lemma PlayedFlags(ps: seq<Player>, k: nat, i: nat)
    requires k < |ps| && i < |ps[k].hand|
    ensures forall j :: 0 <= j < |ps| ==>
      Played(ps, k, i)[j].id == ps[j].id && Played(ps, k, i)[j].isAttacker == ps[j].isAttacker
      && Played(ps, k, i)[j].isDefender == ps[j].isDefender
  {
  }

  /** The table after slot j is beaten by card c of player id. */
  function Beaten(table: seq<Slot>, j: nat, c: Card, id: PlayerId): (t: seq<Slot>)
    requires j < |table|
    ensures |t| == |table|
    ensures t[j] == Slot(table[j].attack, table[j].attackerId, Some(c), Some(id))
    ensures forall m :: 0 <= m < |table| && m != j ==> t[m] == table[m]
  {
    table[j := table[j].(defence := Some(c), defenderId := Some(id))]
  }


  /** Two states whose deck, set-aside piles, and hands and table together hold the same cards account for the same cards. */
  lemma SameCards(e: Engine, e': Engine)
    requires multiset(e'.deck) == multiset(e.deck) && e'.discard == e.discard && e'.departed == e.departed
    requires HandCards(e'.players) + TableCards(e'.table) == HandCards(e.players) + TableCards(e.table)
    ensures AllCards(e') == AllCards(e)
  {
    forall x ensures AllCards(e')[x] == AllCards(e)[x] {
      assert (HandCards(e'.players) + TableCards(e'.table))[x] == (HandCards(e.players) + TableCards(e.table))[x];
    }
  }

  /** Two states whose table and set-aside piles agree, and whose deck and hands together hold the same cards, account for the same cards. */
  lemma MovedIntoHands(e: Engine, e': Engine)
    requires e'.table == e.table && e'.discard == e.discard && e'.departed == e.departed
    requires HandCards(e'.players) + multiset(e'.deck) == HandCards(e.players) + multiset(e.deck)
    ensures AllCards(e') == AllCards(e)
  {
    forall x ensures AllCards(e')[x] == AllCards(e)[x] {
      assert (HandCards(e'.players) + multiset(e'.deck))[x] == (HandCards(e.players) + multiset(e.deck))[x];
    }
  }

  /** A new engine: no players, an empty table, and a pack whose first card fixes trump. */
  function Fresh(deck: seq<Card>): (e: Engine)
    requires |deck| > 0
    ensures e.players == [] && e.table == [] && e.deck == deck && e.trumpSuit == deck[0].suit
  {
    Engine([], deck, [], None, None, None, deck[0].suit, Waiting, multiset{}, multiset{})
  }

  /** A fresh engine over any ordering of the pack keeps the invariant. */
  lemma FreshKeepsInv(deck: seq<Card>)
    requires multiset(deck) == multiset(FreshPack())
    ensures |deck| == PackSize && Inv(Fresh(deck))
  {
    assert |deck| == |multiset(deck)| == |FreshPack()|;
    assert HandCards([]) == multiset{};
    assert TableCards([]) == multiset{};
  }

  /** `players.forEach(p => dealCards(p, 6))`: every hand dealt back up to six cards in join order. */
  function Refilled(e: Engine): (r: Engine)
    ensures r == e.(players := r.players, deck := r.deck)
    ensures |r.players| == |e.players|
    ensures forall j :: 0 <= j < |e.players| ==> r.players[j] == e.players[j].(hand := r.players[j].hand)
  {
    DealRoundKeepsSeats(e.players, e.deck, HandSize, |e.players|);
    var dealt := DealRound(e.players, e.deck, HandSize, |e.players|);
    e.(players := dealt.0, deck := dealt.1)
  }

  /** A refill changes hands and the deck only, so it keeps the shape. */
  lemma RefilledKeepsShape(e: Engine)
    requires WellFormed(e)
    ensures WellFormed(Refilled(e))
  {
  }

  /** A refill only moves cards from the deck into hands. */
  lemma RefilledConserves(e: Engine)
    ensures AllCards(Refilled(e)) == AllCards(e)
  {
    DealRoundConserves(e.players, e.deck, HandSize, |e.players|);
    MovedIntoHands(e, Refilled(e));
  }

  /** What a refill promises each seat: no hand shrinks, and every hand is full unless the deck ran out. */
  lemma RefilledFillsHands(e: Engine)
    ensures var r := Refilled(e);
      && (forall j :: 0 <= j < |e.players| ==> |e.players[j].hand| <= |r.players[j].hand| <= Max(|e.players[j].hand|, HandSize))
      && (forall j :: 0 <= j < |e.players| ==> |r.players[j].hand| >= HandSize || r.deck == [])
      && |r.deck| <= |e.deck| && r.deck == e.deck[..|r.deck|]
  {
    DealRoundRefills(e.players, e.deck, HandSize, |e.players|);
    DealRoundKeepsBottom(e.players, e.deck, HandSize, |e.players|);
  }

  /**
   * A refill seen from seat j: only its hand changes, the new cards go behind the
   * ones it held, it grows no further than six unless it held more, and it is full
   * unless the deck ran out.
   */
  lemma RefilledSeat(e: Engine, j: nat)
    requires j < |e.players|
    ensures var r := Refilled(e);
      && r.players[j] == e.players[j].(hand := r.players[j].hand)
      && |e.players[j].hand| <= |r.players[j].hand| && r.players[j].hand[..|e.players[j].hand|] == e.players[j].hand
      && |r.players[j].hand| <= Max(|e.players[j].hand|, HandSize)
      && (|r.players[j].hand| >= HandSize || r.deck == [])
  {
    DealRoundExtends(e.players, e.deck, HandSize, |e.players|, j);
    DealRoundServed(e.players, e.deck, HandSize, |e.players|, j);
  }

  /**
   * startGame on two seated players: both are dealt up to six cards in join order,
   * then the first is flagged attacker and the second defender and has the move.
   * Flags set in an earlier game are not cleared.
   */
  function Started(e: Engine): (r: Engine)
    requires |e.players| == 2
    ensures |r.players| == 2 && r.players[0].id == e.players[0].id && r.players[1].id == e.players[1].id
    ensures r.players[0].isAttacker && r.players[1].isDefender
    ensures r.attacker == r.currentPlayer == Some(e.players[0].id) && r.defender == Some(e.players[1].id)
    ensures r.gameState == Playing && r.table == e.table && r.trumpSuit == e.trumpSuit
    ensures r == e.(players := r.players, deck := r.deck, attacker := r.attacker, defender := r.defender,
                    currentPlayer := r.currentPlayer, gameState := Playing)
    ensures r.players[0] == e.players[0].(hand := r.players[0].hand, isAttacker := true)
    ensures r.players[1] == e.players[1].(hand := r.players[1].hand, isDefender := true)
  {
    Opened(Refilled(e.(gameState := Playing)))
  }

  /** The roles of a new game: the first seat attacks and has the move, the second defends. */
  function Opened(d: Engine): (r: Engine)
    requires |d.players| == 2
    ensures |r.players| == 2 && r.players[0] == d.players[0].(isAttacker := true) && r.players[1] == d.players[1].(isDefender := true)
    ensures r == d.(players := r.players, attacker := Some(d.players[0].id), defender := Some(d.players[1].id),
                    currentPlayer := Some(d.players[0].id))
  {
    d.(players := [d.players[0].(isAttacker := true), d.players[1].(isDefender := true)],
       attacker := Some(d.players[0].id), defender := Some(d.players[1].id), currentPlayer := Some(d.players[0].id))
  }

  /**
   * addPlayer: refused with nothing changed once two players are seated; otherwise
   * the player takes the next seat and the second arrival starts the game.
   */
  function Join(e: Engine, p: Player): (r: (bool, Engine))
    ensures r.0 <==> |e.players| < 2
    ensures !r.0 ==> r.1 == e
    ensures r.0 ==> |r.1.players| == |e.players| + 1
    ensures r.0 ==> forall j :: 0 <= j < |r.1.players| ==> r.1.players[j].id == (e.players + [p])[j].id
    ensures r.1.trumpSuit == e.trumpSuit
    ensures |e.players| == 0 ==> r.1 == e.(players := [p])
    ensures |e.players| == 1 ==> r.1 == Started(e.(players := e.players + [p]))
  {
    if |e.players| >= 2 then (false, e)
    else
      var e1 := e.(players := e.players + [p]);
      (true, if |e1.players| == 2 then Started(e1) else e1)
  }

  /** removePlayer: every seat with that id empties; below two players the game waits again. */
  function Leave(e: Engine, id: PlayerId): (r: Engine)
    ensures r == e.(players := r.players, departed := r.departed, gameState := r.gameState)
    ensures |r.players| < 2 ==> r.gameState == Waiting
    ensures |r.players| >= 2 ==> r.gameState == e.gameState
  {
    var qs := Without(e.players, id);
    e.(players := qs, departed := e.departed + Departing(e.players, id),
       gameState := if |qs| < 2 then Waiting else e.gameState)
  }

  /** After removePlayer no seat has that id and every other seated player is still seated. */
  lemma LeaveDropsPlayer(e: Engine, id: PlayerId)
    ensures forall j :: 0 <= j < |Leave(e, id).players| ==> Leave(e, id).players[j].id != id
    ensures forall j :: 0 <= j < |e.players| && e.players[j].id != id ==> e.players[j] in Leave(e, id).players
  {
    var qs := Leave(e, id).players;
    forall j | 0 <= j < |qs| ensures qs[j].id != id {
      assert qs[j] in qs;
    }
    forall j | 0 <= j < |e.players| && e.players[j].id != id ensures e.players[j] in qs {
      assert e.players[j] in e.players;
    }
  }


  /** An accepted attack: the card leaves the hand for a new open slot and the defender has the move. */
  function Attacked(e: Engine, k: nat, i: nat): (r: Engine)
    requires k < |e.players| && i < |e.players[k].hand|
    ensures |r.table| == |e.table| + 1 && r.table[..|e.table|] == e.table
    ensures r.table[|e.table|] == Slot(e.players[k].hand[i], e.players[k].id, None, None)
    ensures r.players == Played(e.players, k, i) && r.currentPlayer == e.defender
    ensures r == e.(players := r.players, table := r.table, currentPlayer := r.currentPlayer)
  {
    e.(players := Played(e.players, k, i), table := e.table + [Slot(e.players[k].hand[i], e.players[k].id, None, None)],
       currentPlayer := e.defender)
  }

  /** The attack branch of playCard for players[k] and hand card i. */
  function AttackMove(e: Engine, k: nat, i: nat): (r: (Outcome, Engine))
    requires k < |e.players| && i < |e.players[k].hand|
    ensures r.0 != Ok ==> r.1 == e
    ensures r.0 == Ok <==> AttackRefusal(e.table, e.players[k].hand[i]).None?
    ensures r.0 == Ok ==> r.1 == Attacked(e, k, i)
  {
    match AttackRefusal(e.table, e.players[k].hand[i])
    case Some(why) => (Refused(why), e)
    case None => (Ok, Attacked(e, k, i))
  }

  /** The table cleared into the pile of beaten cards. */
  function Cleared(e: Engine): (r: Engine)
    ensures r == e.(table := [], discard := e.discard + TableCards(e.table))
    ensures AllCards(r) == AllCards(e)
  {
    var r := e.(table := [], discard := e.discard + TableCards(e.table));
    assert TableCards([]) == multiset{};
    r
  }

  /** switchRoles: the two references swap and every flag is recomputed from them. */
  function Switched(e: Engine): (r: Engine)
    requires e.attacker.Some? && e.defender.Some?
    ensures r == e.(attacker := e.defender, defender := e.attacker, players := r.players)
    ensures r.players == WithRoles(e.players, e.defender.value, e.attacker.value)
    ensures AllCards(r) == AllCards(e)
  {
    var ws := WithRoles(e.players, e.defender.value, e.attacker.value);
    HandCardsSameHands(ws, e.players);
    e.(attacker := e.defender, defender := e.attacker, players := ws)
  }

  /**
   * A fully beaten round: its cards go to the discard, the roles swap, the new
   * attacker has the move, and every hand is refilled in join order.
   */
  function RoundEnd(e: Engine): (r: Engine)
    requires e.attacker.Some? && e.defender.Some?
    ensures r.table == [] && r.attacker == r.currentPlayer == e.defender && r.defender == e.attacker
    ensures |r.players| == |e.players| && r.trumpSuit == e.trumpSuit
    ensures r == e.(players := r.players, deck := r.deck, table := [], currentPlayer := e.defender,
                    attacker := e.defender, defender := e.attacker, discard := e.discard + TableCards(e.table))
  {
    Refilled(Switched(Cleared(e)).(currentPlayer := e.defender))
  }

  /** Who had the move before a round ends makes no difference to the next round. */
  lemma RoundEndIgnoresMove(e: Engine, c: Option<PlayerId>)
    requires e.attacker.Some? && e.defender.Some?
    ensures RoundEnd(e.(currentPlayer := c)) == RoundEnd(e)
  {
    assert Switched(Cleared(e.(currentPlayer := c))).(currentPlayer := e.defender)
        == Switched(Cleared(e)).(currentPlayer := e.defender);
  }

  /**
   * After switchRoles on two seated players with distinct ids, exactly one seat
   * attacks, and it is the seat of the former defender.
   */
  lemma SwitchedOneAttacker(e: Engine)
    requires Seated(e.players, e.attacker, e.defender, e.currentPlayer) && e.players[0].id != e.players[1].id
    ensures var qs := Switched(e).players;
      && |qs| == 2
      && (qs[0].isAttacker <==> !qs[1].isAttacker)
      && (forall j :: 0 <= j < 2 ==> (qs[j].isAttacker <==> !qs[j].isDefender))
      && (forall j :: 0 <= j < 2 ==> (qs[j].isAttacker <==> qs[j].id == e.defender.value))
  {
    RolesExclusive(e.players, e.defender.value, e.attacker.value);
  }

  /**
   * What the end of a round promises seat j: same player with the roles swapped,
   * the new cards behind the ones held, and a full hand unless the deck ran out.
   */
  lemma RoundEndRefills(e: Engine, j: nat)
    requires e.attacker.Some? && e.defender.Some? && j < |e.players|
    ensures var r := RoundEnd(e);
      && r.players[j] == e.players[j].(hand := r.players[j].hand,
                                       isAttacker := e.players[j].id == e.defender.value,
                                       isDefender := e.players[j].id == e.attacker.value)
      && |e.players[j].hand| <= |r.players[j].hand| && r.players[j].hand[..|e.players[j].hand|] == e.players[j].hand
      && |r.players[j].hand| <= Max(|e.players[j].hand|, HandSize)
      && (|r.players[j].hand| >= HandSize || r.deck == [])
      && |r.deck| <= |e.deck| && r.deck == e.deck[..|r.deck|]
  {
    var s := Switched(Cleared(e)).(currentPlayer := e.defender);
    RefilledSeat(s, j);
    RefilledFillsHands(s);
  }

  /** An accepted defence: the card leaves the hand and beats slot j; the attacker has the move. */
  function Beat(e: Engine, k: nat, i: nat, j: nat): (r: Engine)
    requires k < |e.players| && i < |e.players[k].hand| && j < |e.table|
    ensures r.table == Beaten(e.table, j, e.players[k].hand[i], e.players[k].id)
    ensures r.players == Played(e.players, k, i) && r.currentPlayer == e.attacker
    ensures r == e.(players := r.players, table := r.table, currentPlayer := r.currentPlayer)
  {
    e.(players := Played(e.players, k, i), table := Beaten(e.table, j, e.players[k].hand[i], e.players[k].id),
       currentPlayer := e.attacker)
  }

  /**
   * The defence branch of playCard for players[k], hand card i and the target slot.
   * Once every slot is beaten the round ends; otherwise the move goes back to the attacker.
   */
  function DefendMove(e: Engine, k: nat, i: nat, target: Option<int>): (r: (Outcome, Engine))
    requires k < |e.players| && i < |e.players[k].hand|
    requires e.attacker.Some? && e.defender.Some?
    ensures r.0 != Ok ==> r.1 == e
    ensures r.0 == Ok <==> DefenceRefusal(e.trumpSuit, e.table, target, e.players[k].hand[i]).None?
    ensures r.0 == Ok ==>
      var b := Beat(e, k, i, target.value);
      && CanBeat(e.trumpSuit, e.table[target.value].attack, e.players[k].hand[i])
      && r.1 == if AllDefended(b.table) then RoundEnd(b) else b
  {
    match DefenceRefusal(e.trumpSuit, e.table, target, e.players[k].hand[i])
    case Some(why) => (Refused(why), e)
    case None =>
      var b := Beat(e, k, i, target.value);
      (Ok, if AllDefended(b.table) then RoundEnd(b) else b)
  }

  /**
   * playCard: the checks in the source's order, then the attack or the defence branch.
   * A move before any role holder exists dereferences a null current player: Threw.
   */
  function Play(e: Engine, id: PlayerId, cardIndex: int, target: Option<int>): (r: (Outcome, Engine))
    requires WellFormed(e)
    ensures r.0 != Ok ==> r.1 == e
    ensures Find(e.players, id).None? ==> r.0 == Refused(PlayerNotFound)
    ensures r.0 == Threw <==> Find(e.players, id).Some? && e.currentPlayer.None?
    ensures r.0 == Ok ==> e.currentPlayer == Some(id) && 0 <= cardIndex
    ensures Find(e.players, id).Some? && e.currentPlayer.Some? && e.currentPlayer.value != id ==>
      r.0 == Refused(NotYourTurn)
    ensures Find(e.players, id).Some? && e.currentPlayer == Some(id) ==>
      var k := Find(e.players, id).value;
      var p := e.players[k];
      && (!(0 <= cardIndex < |p.hand|) ==> r.0 == Refused(InvalidCardIndex))
      && (0 <= cardIndex < |p.hand| && p.isAttacker ==> r == AttackMove(e, k, cardIndex))
      && (0 <= cardIndex < |p.hand| && !p.isAttacker && p.isDefender ==> r == DefendMove(e, k, cardIndex, target))
      && (0 <= cardIndex < |p.hand| && !p.isAttacker && !p.isDefender ==> r.0 == Refused(NoRole))
    ensures r.1.trumpSuit == e.trumpSuit
  {
    match Find(e.players, id)
    case None => (Refused(PlayerNotFound), e)
    case Some(k) =>
      var p := e.players[k];
      if e.currentPlayer.None? then (Threw, e)
      else if e.currentPlayer.value != id then (Refused(NotYourTurn), e)
      else if cardIndex < 0 || cardIndex >= |p.hand| then (Refused(InvalidCardIndex), e)
      else if p.isAttacker then AttackMove(e, k, cardIndex)
      else if p.isDefender then DefendMove(e, k, cardIndex, target)
      else (Refused(NoRole), e)
  }

  /** players[k] with every table card appended to their hand in table order. */
  function PickedUp(ps: seq<Player>, table: seq<Slot>, k: nat): (qs: seq<Player>)
    requires k < |ps|
    ensures |qs| == |ps| && qs[k].hand == ps[k].hand + Gathered(table)
    ensures forall j :: 0 <= j < |ps| ==> qs[j] == ps[j].(hand := qs[j].hand)
  {
    ps[k := ps[k].(hand := ps[k].hand + Gathered(table))]
  }

  /** Picking up one more slot appends that slot's cards to the hand. */
  lemma PickedUpStep(ps: seq<Player>, table: seq<Slot>, k: nat, i: nat)
    requires k < |ps| && i < |table|
    ensures var q := PickedUp(ps, table[..i], k);
      PickedUp(ps, table[..i + 1], k) == q[k := q[k].(hand := q[k].hand + SlotCards(table[i]))]
  {
    GatheredPrefix(table, i);
    var q, r := PickedUp(ps, table[..i], k), PickedUp(ps, table[..i + 1], k);
    var g, c := Gathered(table[..i]), SlotCards(table[i]);
    assert ps[k].hand + (g + c) == (ps[k].hand + g) + c;
    assert r[k] == q[k].(hand := q[k].hand + c);
    assert forall j :: 0 <= j < |r| && j != k ==> r[j] == ps[j] == q[j];
  }

  /** Picking up an empty table changes nothing. */
  lemma PickedUpNothing(ps: seq<Player>, k: nat)
    requires k < |ps|
    ensures PickedUp(ps, [], k) == ps
  {
    assert ps[k].hand + Gathered([]) == ps[k].hand;
  }

  /** The move after players[k] picked up: the first other seated player's, kept when there is none. */
  function NextAfterTake(ps: seq<Player>, id: PlayerId, cur: Option<PlayerId>): (r: Option<PlayerId>)
    ensures r != cur ==> r.Some? && r.value != id && exists j :: 0 <= j < |ps| && ps[j].id == r.value
    ensures FindOther(ps, id).Some? ==> r == Some(ps[FindOther(ps, id).value].id)
    ensures FindOther(ps, id).None? ==> r == cur
  {
    match FindOther(ps, id)
    case Some(o) => Some(ps[o].id)
    case None => cur
  }

  /**
   * The accepted part of takeCards: players[k] picks up the table, the move passes to
   * the first other seated player (and stays put when there is none), and every hand
   * is refilled in join order.
   */
  function Took(e: Engine, k: nat): (r: Engine)
    requires k < |e.players|
    ensures r.table == [] && r.attacker == e.attacker && r.defender == e.defender && r.trumpSuit == e.trumpSuit
    ensures |r.players| == |e.players|
    ensures r == e.(players := r.players, deck := r.deck, table := [], currentPlayer := r.currentPlayer)
    ensures r.currentPlayer == NextAfterTake(PickedUp(e.players, e.table, k), e.players[k].id, e.currentPlayer)
    ensures (forall j :: 0 <= j < |e.players| ==> e.players[j].id == e.players[k].id) ==> r.currentPlayer == e.currentPlayer
  {
    var ps1 := PickedUp(e.players, e.table, k);
    Refilled(e.(players := ps1, table := [], currentPlayer := NextAfterTake(ps1, e.players[k].id, e.currentPlayer)))
  }

  /** takeCards: only the defender, on their turn, may pick up the table. */
  function Take(e: Engine, id: PlayerId): (r: (Outcome, Engine))
    ensures r.0 != Ok ==> r.1 == e
    ensures Find(e.players, id).None? ==> r.0 == Refused(PlayerNotFound)
    ensures r.0 == Ok <==> Find(e.players, id).Some? && e.players[Find(e.players, id).value].isDefender
                           && e.currentPlayer == Some(id)
    ensures r.0 == Threw <==> Find(e.players, id).Some? && e.players[Find(e.players, id).value].isDefender
                              && e.currentPlayer.None?
    ensures r.0 == Ok ==> r.1 == Took(e, Find(e.players, id).value)
    ensures r.1.trumpSuit == e.trumpSuit
  {
    match Find(e.players, id)
    case None => (Refused(PlayerNotFound), e)
    case Some(k) =>
      if !e.players[k].isDefender then (Refused(CannotTakeNow), e)
      else if e.currentPlayer.None? then (Threw, e)
      else if e.currentPlayer.value != id then (Refused(CannotTakeNow), e)
      else (Ok, Took(e, k))
  }

  /** With two players of distinct ids, the one who picked up hands the move to the other. */
  lemma TookPassesMove(e: Engine, k: nat)
    requires |e.players| == 2 && e.players[0].id != e.players[1].id && k < 2
    ensures Took(e, k).currentPlayer == Some(e.players[1 - k].id)
  {
    var ps1 := PickedUp(e.players, e.table, k);
    assert ps1[0].id == e.players[0].id && ps1[1].id == e.players[1].id;
    if k == 1 {
      assert FindOther(ps1, e.players[1].id) == Some(0);
    } else {
      assert FindOther(ps1[1..], e.players[0].id) == Some(0);
    }
  }

  /**
   * What takeCards promises seat j: same player and roles, the taker's hand begins
   * with what it held followed by the table's cards, every other hand begins with
   * what it held, and every hand is full unless the deck ran out.
   */
  lemma TookRefills(e: Engine, k: nat, j: nat)
    requires k < |e.players| && j < |e.players|
    ensures var r := Took(e, k);
      var before := if j == k then e.players[k].hand + Gathered(e.table) else e.players[j].hand;
      && r.players[j] == e.players[j].(hand := r.players[j].hand)
      && |before| <= |r.players[j].hand| && r.players[j].hand[..|before|] == before
      && |r.players[j].hand| <= Max(|before|, HandSize)
      && (|r.players[j].hand| >= HandSize || r.deck == [])
      && |r.deck| <= |e.deck| && r.deck == e.deck[..|r.deck|]
  {
    var ps1 := PickedUp(e.players, e.table, k);
    var m := e.(players := ps1, table := [], currentPlayer := NextAfterTake(ps1, e.players[k].id, e.currentPlayer));
    RefilledSeat(m, j);
    RefilledFillsHands(m);
  }

  /**
   * A game restarted after the first seat left: startGame flags the remaining player,
   * now in the first seat, as attacker without clearing the defender flag it kept
   * from the game before, so that seat holds both flags.
   */
  lemma RestartKeepsOldFlag(e: Engine, c: Player)
    requires |e.players| == 2 && e.players[0].id != e.players[1].id && e.players[1].isDefender
    ensures var r := Join(Leave(e, e.players[0].id), c).1;
      && |r.players| == 2 && r.players[0].id == e.players[1].id && r.players[1].id == c.id
      && r.players[0].isAttacker && r.players[0].isDefender
  {
    var ps := e.players;
    assert ps[1..] == [ps[1]] && [ps[1]][1..] == [];
    assert Without(ps, ps[0].id) == [ps[1]];
  }

  /** startGame only moves cards from the deck into the two hands. */
  lemma StartConserves(e: Engine)
    requires |e.players| == 2
    ensures AllCards(Started(e)) == AllCards(e)
  {
    var d := Refilled(e.(gameState := Playing));
    RefilledConserves(e.(gameState := Playing));
    HandCardsSameHands(Started(e).players, d.players);
  }

  /**
   * What startGame promises seat j: the new cards go behind the ones held, the hand
   * is full unless the deck ran out, and the deck keeps its bottom part.
   */
  lemma StartedDeals(e: Engine, j: nat)
    requires |e.players| == 2 && j < 2
    ensures var r := Started(e);
      && |e.players[j].hand| <= |r.players[j].hand| && r.players[j].hand[..|e.players[j].hand|] == e.players[j].hand
      && |r.players[j].hand| <= Max(|e.players[j].hand|, HandSize)
      && (|r.players[j].hand| >= HandSize || r.deck == [])
      && |r.deck| <= |e.deck| && r.deck == e.deck[..|r.deck|]
  {
    RefilledSeat(e.(gameState := Playing), j);
    RefilledFillsHands(e.(gameState := Playing));
  }

  /**
   * The first game from a full deck: the first player gets the deck's last six cards
   * (last first), the second the six before them, and twelve cards leave the deck.
   */
  lemma StartedOpening(e: Engine)
    requires |e.players| == 2 && e.players[0].hand == [] && e.players[1].hand == [] && |e.deck| >= 2 * HandSize
    ensures var r := Started(e); var L := |e.deck|;
      && r.players[0].hand == Reversed(e.deck[L - 6..])
      && r.players[1].hand == Reversed(e.deck[L - 12..L - 6])
      && r.deck == e.deck[..L - 12]
  {
    OpeningDeal(e.players, e.deck);
  }

  /** A started game is seated: the first player attacks, the second defends and has the move. */
  lemma StartShape(e: Engine)
    requires WellFormed(e) && |e.players| == 2
    ensures WellFormed(Started(e))
  {
  }

  /** The start of a game on two seats keeps the invariant. */
  lemma StartKeepsInv(e: Engine)
    requires Inv(e) && |e.players| == 2
    ensures Inv(Started(e))
  {
    StartShape(e);
    StartConserves(e);
  }

  /** A player without flags taking a free seat keeps the shape. */
  lemma SeatShape(e: Engine, p: Player)
    requires WellFormed(e) && |e.players| < 2 && !p.isAttacker && !p.isDefender
    ensures WellFormed(e.(players := e.players + [p]))
  {
    var ps := e.players + [p];
    assert forall j :: 0 <= j < |ps| ==> ps[j] == p || ps[j] == e.players[j];
  }

  /** A player arriving with an empty hand brings no cards. */
  lemma SeatConserves(e: Engine, p: Player)
    requires p.hand == []
    ensures AllCards(e.(players := e.players + [p])) == AllCards(e)
  {
    HandCardsAppend(e.players, p);
  }

  /** A player without cards or flags taking a free seat keeps the invariant. */
  lemma SeatKeepsInv(e: Engine, p: Player)
    requires Inv(e) && |e.players| < 2 && p.hand == [] && !p.isAttacker && !p.isDefender
    ensures Inv(e.(players := e.players + [p]))
  {
    SeatShape(e, p);
    SeatConserves(e, p);
  }

  /** Every outcome of addPlayer for a player arriving with an empty hand and no role keeps the invariant. */
  lemma JoinKeepsInv(e: Engine, p: Player)
    requires Inv(e) && p.hand == [] && !p.isAttacker && !p.isDefender
    ensures Inv(Join(e, p).1)
  {
    if |e.players| < 2 {
      var e1 := e.(players := e.players + [p]);
      SeatKeepsInv(e, p);
      if |e.players| == 1 {
        StartKeepsInv(e1);
        assert Join(e, p).1 == Started(e1);
      } else {
        assert Join(e, p).1 == e1;
      }
    }
  }

  /** removePlayer keeps the shape, stale role references included. */
  lemma LeaveShape(e: Engine, id: PlayerId)
    requires WellFormed(e)
    ensures WellFormed(Leave(e, id))
  {
    var qs := Without(e.players, id);
    if e.attacker.None? {
      forall j | 0 <= j < |qs| ensures !qs[j].isAttacker && !qs[j].isDefender {
        assert qs[j] in e.players;
      }
    }
  }

  /** A leaving player's cards are set aside, not lost. */
  lemma LeaveConserves(e: Engine, id: PlayerId)
    ensures AllCards(Leave(e, id)) == AllCards(e)
  {
    HandCardsWithout(e.players, id);
  }

  /** removePlayer keeps the invariant. */
  lemma LeaveKeepsInv(e: Engine, id: PlayerId)
    requires Inv(e)
    ensures Inv(Leave(e, id))
  {
    LeaveShape(e, id);
    LeaveConserves(e, id);
  }

  /** Each role reference of a seated game names one of the two seats. */
  lemma RolesAreSeated(ps: seq<Player>, att: Option<PlayerId>, def: Option<PlayerId>, cur: Option<PlayerId>)
    requires Seated(ps, att, def, cur)
    ensures att.value == ps[0].id || att.value == ps[1].id
    ensures def.value == ps[0].id || def.value == ps[1].id
  {
  }

  /**
   * A move that keeps the seats (ids and flags), the role references and the phase,
   * keeps the table within six slots and leaves the move with a role holder keeps the shape.
   */
  lemma ShapeKept(e: Engine, e': Engine)
    requires WellFormed(e) && e.attacker.Some?
    requires |e'.players| == |e.players| && |e'.table| <= MaxSlots
    requires forall j :: 0 <= j < |e.players| ==>
      e'.players[j].id == e.players[j].id && e'.players[j].isAttacker == e.players[j].isAttacker
      && e'.players[j].isDefender == e.players[j].isDefender
    requires e'.attacker == e.attacker && e'.defender == e.defender && e'.gameState == e.gameState
    requires e'.currentPlayer == e.attacker || e'.currentPlayer == e.defender
    ensures WellFormed(e')
  {
    if e.gameState == Playing {
      RolesAreSeated(e.players, e.attacker, e.defender, e.currentPlayer);
    }
  }

  /** An attack card leaves the attacker's hand for a new slot: no card appears or disappears. */
  lemma AttackConserves(e: Engine, k: nat, i: nat)
    requires k < |e.players| && i < |e.players[k].hand|
    ensures AllCards(Attacked(e, k, i)) == AllCards(e)
  {
    var s := Slot(e.players[k].hand[i], e.players[k].id, None, None);
    GatheredAppend(e.table, s);
    assert multiset(SlotCards(s)) == multiset{e.players[k].hand[i]};
    PlayedOnto(e.players, e.table, e.table + [s], k, i);
    SameCards(e, Attacked(e, k, i));
  }

  /** An accepted attack keeps the shape; in particular the table never exceeds six slots. */
  lemma AttackShape(e: Engine, k: nat, i: nat)
    requires WellFormed(e) && k < |e.players| && i < |e.players[k].hand|
    requires AttackRefusal(e.table, e.players[k].hand[i]).None?
    ensures WellFormed(Attacked(e, k, i))
  {
    PlayedFlags(e.players, k, i);
    if e.attacker.Some? {
      ShapeKept(e, Attacked(e, k, i));
    }
  }

  /** An accepted attack keeps the invariant. */
  lemma AttackedKeepsInv(e: Engine, k: nat, i: nat)
    requires Inv(e) && k < |e.players| && i < |e.players[k].hand|
    requires AttackRefusal(e.table, e.players[k].hand[i]).None?
    ensures Inv(Attacked(e, k, i))
  {
    AttackShape(e, k, i);
    AttackConserves(e, k, i);
  }

  /** Every outcome of the attack branch keeps the invariant. */
  lemma AttackKeepsInv(e: Engine, k: nat, i: nat)
    requires Inv(e) && k < |e.players| && i < |e.players[k].hand|
    ensures Inv(AttackMove(e, k, i).1)
  {
    if AttackRefusal(e.table, e.players[k].hand[i]).None? {
      AttackedKeepsInv(e, k, i);
    }
  }

  /** A defence card leaves the defender's hand for the slot it beats: no card appears or disappears. */
  lemma BeatConserves(e: Engine, k: nat, i: nat, j: nat)
    requires k < |e.players| && i < |e.players[k].hand| && j < |e.table| && e.table[j].defence.None?
    ensures AllCards(Beat(e, k, i, j)) == AllCards(e)
  {
    var t' := Beaten(e.table, j, e.players[k].hand[i], e.players[k].id);
    DefendSlotAddsCard(e.table, j, e.players[k].hand[i], e.players[k].id);
    PlayedOnto(e.players, e.table, t', k, i);
    SameCards(e, Beat(e, k, i, j));
  }

  /** An accepted defence keeps the shape. */
  lemma BeatShape(e: Engine, k: nat, i: nat, j: nat)
    requires WellFormed(e) && k < |e.players| && i < |e.players[k].hand| && j < |e.table|
    ensures WellFormed(Beat(e, k, i, j))
  {
    PlayedFlags(e.players, k, i);
    if e.attacker.Some? {
      ShapeKept(e, Beat(e, k, i, j));
    }
  }

  /** An accepted defence keeps the invariant before the round is looked at. */
  lemma BeatKeepsInv(e: Engine, k: nat, i: nat, j: nat)
    requires Inv(e) && k < |e.players| && i < |e.players[k].hand| && j < |e.table| && e.table[j].defence.None?
    ensures Inv(Beat(e, k, i, j))
  {
    BeatShape(e, k, i, j);
    BeatConserves(e, k, i, j);
  }

  /** Clearing a beaten round and refilling moves table cards to the discard and deck cards to hands. */
  lemma RoundEndConserves(e: Engine)
    requires e.attacker.Some? && e.defender.Some?
    ensures AllCards(RoundEnd(e)) == AllCards(e)
  {
    var s := Switched(Cleared(e)).(currentPlayer := e.defender);
    RefilledConserves(s);
  }

  /** A round end keeps the shape: the roles swap between the two seats and the new attacker moves. */
  lemma RoundEndShape(e: Engine)
    requires WellFormed(e) && e.attacker.Some?
    ensures WellFormed(RoundEnd(e))
  {
    var s := Switched(Cleared(e)).(currentPlayer := e.defender);
    if e.gameState == Playing {
      RolesAreSeated(e.players, e.attacker, e.defender, e.currentPlayer);
    }
    assert WellFormed(s);
    RefilledKeepsShape(s);
  }

  /** A round end keeps the invariant. */
  lemma RoundEndKeepsInv(e: Engine)
    requires Inv(e) && e.attacker.Some?
    ensures Inv(RoundEnd(e))
  {
    RoundEndShape(e);
    RoundEndConserves(e);
  }

  /** Every outcome of the defence branch keeps the invariant, whether or not it ends the round. */
  lemma DefendKeepsInv(e: Engine, k: nat, i: nat, target: Option<int>)
    requires Inv(e) && k < |e.players| && i < |e.players[k].hand| && e.attacker.Some?
    ensures Inv(DefendMove(e, k, i, target).1)
  {
    if DefenceRefusal(e.trumpSuit, e.table, target, e.players[k].hand[i]).None? {
      var b := Beat(e, k, i, target.value);
      BeatKeepsInv(e, k, i, target.value);
      if AllDefended(b.table) {
        RoundEndKeepsInv(b);
      }
    }
  }

  /** Every outcome of playCard keeps the invariant. */
  lemma PlayKeepsInv(e: Engine, id: PlayerId, cardIndex: int, target: Option<int>)
    requires Inv(e)
    ensures Inv(Play(e, id, cardIndex, target).1)
  {
    match Find(e.players, id)
    case None =>
    case Some(k) =>
      var p := e.players[k];
      if e.currentPlayer.Some? && e.currentPlayer.value == id && 0 <= cardIndex < |p.hand| {
        if p.isAttacker {
          AttackKeepsInv(e, k, cardIndex);
        } else if p.isDefender {
          DefendKeepsInv(e, k, cardIndex, target);
        }
      }
  }

  /** Picking up the table and refilling moves table cards and deck cards into hands. */
  lemma TakeConserves(e: Engine, k: nat)
    requires k < |e.players|
    ensures AllCards(Took(e, k)) == AllCards(e)
  {
    var ps1 := PickedUp(e.players, e.table, k);
    var e1 := e.(players := ps1, table := [], currentPlayer := NextAfterTake(ps1, e.players[k].id, e.currentPlayer));
    HandCardsUpdate(e.players, k, ps1[k]);
    assert TableCards([]) == multiset{};
    forall x ensures AllCards(e1)[x] == AllCards(e)[x] {
      assert (HandCards(ps1) + multiset(e.players[k].hand))[x] == (HandCards(e.players) + multiset(ps1[k].hand))[x];
      assert multiset(ps1[k].hand)[x] == (multiset(e.players[k].hand) + TableCards(e.table))[x];
    }
    RefilledConserves(e1);
  }

  /** The pick-up before the refill keeps the shape: the move stays with a seated player. */
  lemma PickUpShape(e: Engine, k: nat)
    requires WellFormed(e) && k < |e.players| && e.players[k].isDefender && e.currentPlayer.Some?
    ensures var ps1 := PickedUp(e.players, e.table, k);
      WellFormed(e.(players := ps1, table := [], currentPlayer := NextAfterTake(ps1, e.players[k].id, e.currentPlayer)))
  {
  }

  /** An accepted pick-up keeps the invariant. */
  lemma TookKeepsInv(e: Engine, k: nat)
    requires Inv(e) && k < |e.players| && e.players[k].isDefender && e.currentPlayer.Some?
    ensures Inv(Took(e, k))
  {
    var ps1 := PickedUp(e.players, e.table, k);
    PickUpShape(e, k);
    RefilledKeepsShape(e.(players := ps1, table := [], currentPlayer := NextAfterTake(ps1, e.players[k].id, e.currentPlayer)));
    TakeConserves(e, k);
  }

  /** Every outcome of takeCards keeps the invariant. */
  lemma TakeKeepsInv(e: Engine, id: PlayerId)
    requires Inv(e)
    ensures Inv(Take(e, id).1)
  {
    match Find(e.players, id)
    case None =>
    case Some(k) =>
      if e.players[k].isDefender && e.currentPlayer == Some(id) {
        TookKeepsInv(e, k);
        assert Take(e, id).1 == Took(e, k);
      }
  }
}
