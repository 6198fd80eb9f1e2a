/**
 * The game engine: one CardGame per lobby, holding the deck, up to two players,
 * the table and whose move is awaited.
 */
module Game {
  import opened Wrappers
  import opened Cards
  import opened Table
  import opened Hands
  import opened Rules
  import opened Moves

  /** One player in the state snapshot sent to both clients. */
  datatype PlayerView = PlayerView(id: PlayerId, name: string, cards: seq<Card>, cardsCount: nat,
                                   isAttacker: bool, isDefender: bool)

  /** The state snapshot getGameState returns. */
  datatype GameView = GameView(players: seq<PlayerView>, table: seq<Slot>, trumpSuit: Suit,
                               deckCount: nat, currentPlayer: Option<PlayerId>, gameState: Phase)

  function ViewOf(p: Player): (v: PlayerView)
    ensures v.cards == p.hand && v.cardsCount == |p.hand|
  {
    PlayerView(p.id, p.name, p.hand, |p.hand|, p.isAttacker, p.isDefender)
  }

  class CardGame {
    var players: seq<Player>
    var deck: seq<Card>
    var table: seq<Slot>
    /** The three role references hold the id of the player object they point at. */
    var currentPlayer: Option<PlayerId>
    var attacker: Option<PlayerId>
    var defender: Option<PlayerId>
    var trumpSuit: Suit
    var gameState: Phase
    /** Cards of fully beaten rounds, cleared from the table. */
    ghost var discard: multiset<Card>
    /** Hands of players who left. */
    ghost var departed: multiset<Card>

    /** The fields as one engine value. */
    ghost function State(): Engine
      reads this
    {
      Engine(players, deck, table, currentPlayer, attacker, defender, trumpSuit, gameState, discard, departed)
    }

    /** The invariant of the engine, kept by every public operation. */
    ghost predicate Valid()
      reads this
    {
      Inv(State())
    }

    /**
     * A new engine: no players, empty table, and a shuffled pack whose first card
     * fixes the trump suit. `picks[i]` is the index the shuffle draws at step i.
     */
    constructor (picks: seq<nat>)
      requires |picks| == PackSize
      requires forall i :: 0 < i < PackSize ==> picks[i] <= i
      ensures Valid()
      ensures |deck| == PackSize && multiset(deck) == multiset(FreshPack())
      ensures State() == Fresh(deck)
    {
      players := [];
      deck := [];
      table := [];
      currentPlayer := None;
      attacker := None;
      defender := None;
      gameState := Waiting;
      discard := multiset{};
      departed := multiset{};
      new;
      InitDeck(picks);
      FreshKeepsInv(deck);
    }

    /** Builds the pack suit by suit, shuffles it, and takes trump from its first card. */
    method InitDeck(picks: seq<nat>)
      requires |picks| == PackSize
      requires forall i :: 0 < i < PackSize ==> picks[i] <= i
      modifies this`deck, this`trumpSuit
      ensures |deck| == PackSize && multiset(deck) == multiset(FreshPack())
      ensures trumpSuit == deck[0].suit
    {
      deck := [];
      for s := 0 to |Suits|
        invariant deck == FreshPack()[..9 * s]
      {
        for r := 0 to 9
          invariant deck == FreshPack()[..9 * s + r]
        {
          assert FreshPack()[9 * s + r] == Card(Suits[s], r) by {
            assert (9 * s + r) / 9 == s && (9 * s + r) % 9 == r;
          }
          assert FreshPack()[..9 * s + r + 1] == FreshPack()[..9 * s + r] + [FreshPack()[9 * s + r]];
          deck := deck + [Card(Suits[s], r)];
        }
      }
      assert deck == FreshPack();
      ShuffleDeck(picks);
      trumpSuit := deck[0].suit;
    }

    /** Fisher-Yates from the last index down: swap position i with position picks[i]. */
    method ShuffleDeck(picks: seq<nat>)
      requires |picks| == |deck|
      requires forall i :: 0 < i < |deck| ==> picks[i] <= i
      modifies this`deck
      ensures |deck| == |old(deck)|
      ensures multiset(deck) == multiset(old(deck))
    {
      var i := |deck| - 1;
      while i > 0
        invariant -1 <= i < |deck| == |old(deck)|
        invariant multiset(deck) == multiset(old(deck))
        decreases i
      {
        var j := picks[i];
        deck := deck[i := deck[j]][j := deck[i]];
        i := i - 1;
      }
    }

    /** Pops cards from the end of the deck onto the end of player k's hand until it holds count cards. */
    method DealCards(k: nat, count: nat)
      requires k < |players|
      modifies this`players, this`deck
      ensures |players| == |old(players)|
      ensures players == old(players)[k := old(players)[k].(hand := players[k].hand)]
      ensures (players[k].hand, deck) == Deal(old(players)[k].hand, old(deck), count)
    {
      while |players[k].hand| < count && |deck| > 0
        invariant |players| == |old(players)|
        invariant players == old(players)[k := old(players)[k].(hand := players[k].hand)]
        invariant Deal(players[k].hand, deck, count) == Deal(old(players)[k].hand, old(deck), count)
        decreases |deck|
      {
        var c := deck[|deck| - 1];
        deck := deck[..|deck| - 1];
        players := players[k := players[k].(hand := players[k].hand + [c])];
      }
    }

    /** Deals every player, in join order, back up to a full hand. */
    method RefillHands()
      modifies this`players, this`deck
      ensures State() == Refilled(old(State()))
    {
      DealEach(HandSize);
    }

    /** One dealCards(p, count) per seated player, in join order. */
    method DealEach(count: nat)
      modifies this`players, this`deck
      ensures (players, deck) == DealRound(old(players), old(deck), count, |old(players)|)
    {
      var n := |players|;
      for k := 0 to n
        invariant (players, deck) == DealRound(old(players), old(deck), count, k)
      {
        DealCards(k, count);
      }
    }

    /**
     * Starts play: deals six cards to each player in join order, makes the first
     * player the attacker and the second the defender, and gives the first move to
     * the attacker. Flags set before are not cleared.
     */
    method StartGame()
      requires |players| == 2
      modifies this`gameState, this`players, this`deck, this`attacker, this`defender, this`currentPlayer
      ensures State() == Started(old(State()))
    {
      gameState := Playing;
      RefillHands();
      OpenRound();
    }

    /** Flags the first seat attacker and the second defender, and gives the move to the attacker. */
    method OpenRound()
      requires |players| == 2
      modifies this`players, this`attacker, this`defender, this`currentPlayer
      ensures State() == Opened(old(State()))
    {
      attacker := Some(players[0].id);
      defender := Some(players[1].id);
      players := [players[0].(isAttacker := true), players[1].(isDefender := true)];
      currentPlayer := attacker;
    }

    /**
     * Seats a player with an empty hand and no role, unless two are already seated.
     * The second player to join starts the game.
     */
    method AddPlayer(playerId: PlayerId, playerName: string) returns (ok: bool)
      requires Valid()
      modifies this`players, this`gameState, this`deck, this`attacker, this`defender, this`currentPlayer
      ensures Valid()
      ensures (ok, State()) == Join(old(State()), Player(playerId, playerName, [], false, false))
    {
      var p := Player(playerId, playerName, [], false, false);
      ghost var e := State();
      JoinKeepsInv(e, p);
      if |players| >= 2 {
        return false;
      }
      players := players + [p];
      ghost var e1 := State();
      assert e1 == e.(players := e.players + [p]);
      if |players| == 2 {
        StartGame();
        assert State() == Started(e1);
      }
      assert Join(e, p) == (true, State());
      return true;
    }

    /**
     * Drops every player with that id. Below two players the game waits again;
     * the role references and the rest of the state are left as they were.
     */
    method RemovePlayer(playerId: PlayerId)
      requires Valid()
      modifies this`players, this`gameState, this`departed
      ensures Valid()
      ensures State() == Leave(old(State()), playerId)
    {
      LeaveKeepsInv(State(), playerId);
      DropPlayer(playerId);
    }

    /** The seats with that id empty and their cards are set aside; below two players the game waits. */
    method DropPlayer(playerId: PlayerId)
      modifies this`players, this`gameState, this`departed
      ensures State() == Leave(old(State()), playerId)
    {
      departed := departed + Departing(players, playerId);
      players := Without(players, playerId);
      if |players| < 2 {
        gameState := Waiting;
      }
    }

    /**
     * Handles a move by playerId with hand card cardIndex; target names the slot to
     * beat and is only read when the player defends. Checks happen in the source's
     * order and a refused move changes nothing.
     */
    method PlayCard(playerId: PlayerId, cardIndex: int, target: Option<int>) returns (r: Outcome)
      requires Valid()
      modifies this`table, this`players, this`currentPlayer, this`attacker, this`defender, this`deck, this`discard
      ensures Valid()
      ensures (r, State()) == Play(old(State()), playerId, cardIndex, target)
    {
      PlayKeepsInv(State(), playerId, cardIndex, target);
      var found := Find(players, playerId);
      if found.None? {
        return Refused(PlayerNotFound);
      }
      var k := found.value;
      if currentPlayer.None? {
        return Threw;
      }
      if currentPlayer.value != playerId {
        return Refused(NotYourTurn);
      }
      if cardIndex < 0 || cardIndex >= |players[k].hand| {
        return Refused(InvalidCardIndex);
      }
      if players[k].isAttacker {
        r := Attack(k, cardIndex);
        return;
      }
      if players[k].isDefender {
        r := Defend(k, cardIndex, target);
        return;
      }
      return Refused(NoRole);
    }

    /** The attack branch of playCard, for players[k] and hand card i. */
    method Attack(k: nat, i: nat) returns (r: Outcome)
      requires k < |players| && i < |players[k].hand|
      modifies this`table, this`players, this`currentPlayer
      ensures (r, State()) == AttackMove(old(State()), k, i)
    {
      var card := players[k].hand[i];
      var why := AttackRefusal(table, card);
      if why.Some? {
        return Refused(why.value);
      }
      table := table + [Slot(card, players[k].id, None, None)];
      players := players[k := players[k].(hand := RemoveAt(players[k].hand, i))];
      currentPlayer := defender;
      return Ok;
    }

    /** The defence branch of playCard, for players[k], hand card i and the target slot. */
    method Defend(k: nat, i: nat, target: Option<int>) returns (r: Outcome)
      requires k < |players| && i < |players[k].hand| && attacker.Some? && defender.Some?
      modifies this`table, this`players, this`currentPlayer, this`attacker, this`defender, this`deck, this`discard
      ensures (r, State()) == DefendMove(old(State()), k, i, target)
    {
      var card := players[k].hand[i];
      var why := DefenceRefusal(trumpSuit, table, target, card);
      if why.Some? {
        return Refused(why.value);
      }
      var j := target.value;
      ghost var b := Beat(State(), k, i, j);
      table := table[j := table[j].(defence := Some(card), defenderId := Some(players[k].id))];
      players := players[k := players[k].(hand := RemoveAt(players[k].hand, i))];
      if AllDefended(table) {
        assert b == State().(currentPlayer := attacker);
        RoundEndIgnoresMove(State(), attacker);
        EndRound();
      } else {
        currentPlayer := attacker;
      }
      return Ok;
    }

    /**
     * The end of a fully beaten round: the table is cleared into the discard, the roles
     * swap, the new attacker has the move and every hand is refilled in join order.
     */
    method EndRound()
      requires attacker.Some? && defender.Some?
      modifies this`table, this`players, this`currentPlayer, this`attacker, this`defender, this`deck, this`discard
      ensures State() == RoundEnd(old(State()))
    {
      ghost var e := State();
      discard := discard + TableCards(table);
      table := [];
      assert State() == Cleared(e);
      SwitchRoles();
      currentPlayer := attacker;
      assert State() == Switched(Cleared(e)).(currentPlayer := e.defender);
      RefillHands();
    }

    /** Swaps the two role references, then recomputes every player's flags from them. */
    method SwitchRoles()
      requires attacker.Some? && defender.Some?
      modifies this`attacker, this`defender, this`players
      ensures State() == Switched(old(State()))
    {
      attacker, defender := defender, attacker;
      MarkRoles();
    }

    /** Sets each player's flags from the two role references, in seat order. */
    method MarkRoles()
      requires attacker.Some? && defender.Some?
      modifies this`players
      ensures players == WithRoles(old(players), attacker.value, defender.value)
    {
      var i := 0;
      while i < |players|
        invariant 0 <= i <= |players| == |old(players)|
        invariant forall j :: 0 <= j < i ==>
          players[j] == old(players)[j].(isAttacker := old(players)[j].id == attacker.value,
                                         isDefender := old(players)[j].id == defender.value)
        invariant forall j :: i <= j < |players| ==> players[j] == old(players)[j]
      {
        players := players[i := players[i].(isAttacker := players[i].id == attacker.value,
                                            isDefender := players[i].id == defender.value)];
        i := i + 1;
      }
    }

    /**
     * The defender, on their turn, takes every table card into their hand; the move
     * passes to the other player, the roles stay, and both hands are refilled.
     */
    method TakeCards(playerId: PlayerId) returns (r: Outcome)
      requires Valid()
      modifies this`players, this`table, this`currentPlayer, this`deck
      ensures Valid()
      ensures (r, State()) == Take(old(State()), playerId)
    {
      TakeKeepsInv(State(), playerId);
      var found := Find(players, playerId);
      if found.None? {
        return Refused(PlayerNotFound);
      }
      var k := found.value;
      if !players[k].isDefender || currentPlayer.value != playerId {
        return Refused(CannotTakeNow);
      }
      r := Ok;
      TakeFrom(k);
    }

    /** The accepted part of takeCards, for players[k]. */
    method TakeFrom(k: nat)
      requires k < |players|
      modifies this`players, this`table, this`currentPlayer, this`deck
      ensures State() == Took(old(State()), k)
    {
      var id := players[k].id;
      PickUp(k);
      table := [];
      var other := FindOther(players, id);
      if other.Some? {
        currentPlayer := Some(players[other.value].id);
      }
      RefillHands();
    }

    /** Moves every table card into players[k]'s hand, slot by slot, attack card before defence card. */
    method PickUp(k: nat)
      requires k < |players|
      modifies this`players
      ensures players == PickedUp(old(players), table, k)
    {
      PickedUpNothing(players, k);
      assert table[..0] == [];
      var i := 0;
      while i < |table|
        invariant 0 <= i <= |table|
        invariant players == PickedUp(old(players), table[..i], k)
      {
        PickedUpStep(old(players), table, k, i);
        ghost var h := players[k].hand;
        players := players[k := players[k].(hand := players[k].hand + [table[i].attack])];
        if table[i].defence.Some? {
          players := players[k := players[k].(hand := players[k].hand + [table[i].defence.value])];
          assert players[k].hand == h + SlotCards(table[i]);
        } else {
          assert players[k].hand == h + SlotCards(table[i]);
        }
        i := i + 1;
      }
      assert table[..|table|] == table;
    }

    /** The snapshot sent to both clients: every player's full hand, the table, trump and counts. */
    function GameState(): (v: GameView)
      reads this
      ensures |v.players| == |players|
      ensures forall j :: 0 <= j < |players| ==>
        && v.players[j].id == players[j].id && v.players[j].name == players[j].name
        && v.players[j].cards == players[j].hand
        && v.players[j].cardsCount == |players[j].hand|
        && v.players[j].isAttacker == players[j].isAttacker && v.players[j].isDefender == players[j].isDefender
      ensures v.table == table && v.trumpSuit == trumpSuit && v.deckCount == |deck|
      ensures v.currentPlayer == currentPlayer && v.gameState == gameState
    {
      var ps := players;
      GameView(seq(|ps|, j requires 0 <= j < |ps| => ViewOf(ps[j])), table, trumpSuit, |deck|,
               currentPlayer, gameState)
    }

    /** The session layer's win check: the player is seated, their hand is empty and so is the deck. */
    predicate HasWon(playerId: PlayerId)
      reads this
      ensures HasWon(playerId) <==>
        |deck| == 0 && exists j :: (0 <= j < |players| && players[j].id == playerId && players[j].hand == []
          && forall i :: 0 <= i < j ==> players[i].id != playerId)
    {
      match Find(players, playerId)
      case None => false
      case Some(k) => |players[k].hand| == 0 && |deck| == 0
    }
  }
}
