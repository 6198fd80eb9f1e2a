# Durak engine model

A Dafny model of `CardGame`, the server-side rules engine of a two-player Durak
card game. One `CardGame` per lobby holds:
- a 36-card pack (four suits, ranks 6 to ace) whose first card fixes the trump suit;
- up to two players, each with a hand and an attacker/defender flag;
- the table of attack slots, each beaten or not yet beaten;
- the three role references (attacker, defender, and whose move is awaited).

The engine seats players. It starts the game when the second one joins, dealing six
cards each and giving out the roles. It then judges attacks and defences, lets the
defender pick the table up, and swaps roles when a round is fully beaten.

## Layout

- `wrappers.dfy` (module `Wrappers`): `Option`.
- `cards.dfy` (module `Cards`): suits, ranks, cards, and the pack as `initDeck` builds it.
  Also the beat relation `canBeat` and its order properties.
- `table.dfy` (module `Table`): table slots and the bag of cards on the table.
- `rules.dfy` (module `Rules`): the legality checks of `playCard`, in the order the source makes them.
  The outcome of a move is `Ok`, `Refused(reason)`, or `Threw`.
- `hands.dfy` (module `Hands`): players and hands, `dealCards` as the function `Deal`, the refill
  of every hand in join order (`DealRound`), filtering players out, and the flag rewrite of `switchRoles`.
- `moves.dfy` (module `Moves`): the whole engine as one value, `Engine`.
  - Every public operation is a function from engine to engine, with its outcome where there is one.
  - `Inv` is the invariant those operations keep.
  - Each `...KeepsInv` lemma proves that one operation keeps it.
- `game.dfy` (module `Game`): the class `CardGame`.
  - Its fields are the source's fields. Loops are kept where the source loops (building the pack,
    the shuffle, `dealCards`, the `forEach` refills, the flag rewrite, the pick-up).
  - The public methods, and the steps `RefillHands`, `OpenRound`, `DropPlayer`, `EndRound`, `SwitchRoles`
    and `TakeFrom`, are proved to leave `State()` equal to the matching `Moves` function of the old state.
  - The inner steps `InitDeck`, `ShuffleDeck`, `DealCards`, `DealEach`, `MarkRoles` and `PickUp` state
    their effect on the fields they change, as their rows below say.
  - The public methods also keep `Valid()`.

Modelling choices:
- `attacker`, `defender` and `currentPlayer` are object references in the source.
  - Every read of them takes only `.id`, so they are modelled as `Option<PlayerId>` holding that id.
  - The flags that `startGame` sets through those references are written into seats 0 and 1.
- Ranks are the numbers 0..8, standing for `6, 7, 8, 9, 10, J, Q, K, A` in the source's order.
- The shuffle's `Math.random` draws are an input, `picks`. `picks[i]` is the index swapped with `i`;
  the loop needs `picks[i] <= i`.
- `playCard` reads `this.currentPlayer.id` before any role check. Before the first game starts this
  reference is `null`, and the source throws a TypeError. The model answers `Threw` and changes nothing.
- A `return false` is `Refused(reason)`. The reason only records which check fired; the engine itself
  answers `false`.
- `targetCardIndex` is `Option<int>`, where `None` is the source's `null`.

Behaviour kept as written:
- `removePlayer` does not reset the three role references, so they may name a player who has left.
- A restarted game does not clear flags set in an earlier game. When the first seat leaves and a new
  player joins, a remaining player that still holds the defender flag ends up flagged both attacker
  and defender (`RestartKeepsOldFlag`).
- A throw-in matches only the ranks of attack cards, never those of defence cards (`server/game.js:173`).
- Refills go in join order, not attacker first. The trump card, `deck[0]`, is the last card dealt.
- `getGameState` hands out every player's cards.

Conservation, as the code has it:
- A fully beaten round empties the table (`server/game.js:236`), and `removePlayer` drops the
  leaving player's hand (`server/game.js:83`). So deck + hands + table is not always 36.
- The model keeps two ghost piles: `discard`, for the cards of beaten rounds, and `departed`, for the
  hands of players who left.
- It proves that deck + hands + table + discard + departed is always exactly the fresh pack.

## Model

| member | source | states |
|---|---|---|
| Cards.FreshPackIsEveryCardOnce | server/game.js:23-33 | the pack built suit by suit holds every one of the 36 suit/rank cards, and no two positions hold the same card |
| Cards.ShuffledPackIsEveryCardOnce | server/game.js:35-36 | any rearrangement of the pack has 36 cards and holds each card exactly once |
| Cards.CanBeat | server/game.js:261-284 | a defence beats an attack iff they share a suit and the defence ranks higher, or the defence is trump and the attack is not |
| Cards.BeatIsAsymmetric | server/game.js:261-284 | no card beats itself, and two cards never beat each other |
| Cards.BeatIsTransitive | server/game.js:261-284 | if b beats a and c beats b, then c beats a |
| Cards.TrumpBeatsNonTrump | server/game.js:277-280 | a trump beats any non-trump, and a non-trump never beats a trump |
| Game.CardGame.constructor | server/game.js:6-17 | a new engine has no players and an empty table; its deck is a rearrangement of the 36-card pack, trump is the suit of its first card, and the invariant holds |
| Moves.FreshKeepsInv | server/game.js:6-17 | a new engine over any rearranged pack has 36 cards in its deck and satisfies the invariant |
| Moves.Fresh | server/game.js:6-17 | a new engine has no players, an empty table, the given deck, and trump from its first card |
| Game.CardGame.InitDeck | server/game.js:23-39 | afterwards the deck is a 36-card rearrangement of the pack and trump is the suit of deck[0] |
| Game.CardGame.ShuffleDeck | server/game.js:44-49 | the swaps keep the deck's length and its cards |
| Hands.Deal | server/game.js:120-124 | dealing up to n leaves a hand of max(old, min(n, old + deck)) cards; hand + deck keeps its size; the deck keeps its bottom part |
| Hands.DealTakesFromEnd | server/game.js:121-122 | the hand keeps its cards and gains the top of the deck, last card first |
| Hands.DealConserves | server/game.js:120-124 | dealing moves cards from deck to hand and never makes or loses one |
| Hands.TrumpCardDealtLast | server/game.js:36 | once dealing empties the deck, the last card dealt is deck[0], the trump card |
| Game.CardGame.DealCards | server/game.js:120-124 | only player k's hand and the deck change, and they become what Deal computes |
| Game.CardGame.DealEach | server/game.js:100-103 | one dealCards per seat in join order leaves players and deck as DealRound says |
| Game.CardGame.RefillHands | server/game.js:326 | the engine after a refill is Refilled of the engine before |
| Hands.DealRound | server/game.js:326 | a refill over the first i seats keeps the number of seats (its effect on each seat is in the DealRound lemmas) |
| Moves.Refilled | server/game.js:326 | a refill changes only the players and the deck, keeps the number of seats, and changes only each seat's hand |
| Hands.DealRoundRefills | server/game.js:326 | after a refill no hand is smaller, none has grown past six unless it already held more, and every hand is full unless the deck ran out |
| Hands.DealRoundServed | server/game.js:326 | one served seat: its hand did not shrink, grew no further than six unless it held more, and is full unless the deck ran out |
| Hands.DealRoundAtMost | server/game.js:121 | a refill never takes a hand past six, and a hand already at six or more gains nothing |
| Hands.DealRoundSeat | server/game.js:326 | a refill changes only hands, and seats not yet served are untouched |
| Hands.DealRoundKeepsBottom | server/game.js:326 | a refill leaves the bottom part of the deck |
| Hands.DealRoundExtends | server/game.js:326 | a refill adds cards to a hand only behind the ones it already held |
| Hands.DealExtends | server/game.js:120-124 | dealCards keeps the hand's cards first and only appends |
| Hands.DealRoundConserves | server/game.js:326 | a refill only moves cards from deck to hands |
| Hands.OpeningDeal | server/game.js:100-103 | from two empty hands, the first player gets the deck's last six cards (last first) and the second the six before them |
| Moves.RefilledFillsHands | server/game.js:240 | a refill shrinks no hand, takes none past six unless it held more, fills every hand unless the deck ran out, and leaves the bottom of the deck |
| Moves.RefilledSeat | server/game.js:326 | a refill changes only a seat's hand, adds the new cards behind the ones it held, takes it no further than six unless it held more, and fills it unless the deck ran out |
| Moves.RefilledConserves | server/game.js:240 | a refill keeps the engine's full bag of cards |
| Moves.Started | server/game.js:95-115 | a started game keeps the seats' ids; seat 0 attacks and has the move, seat 1 defends, the phase is playing, and table and trump are unchanged; apart from the players, the deck, the three references and the phase nothing changes; seat 0 changes only in its hand and attacker flag, seat 1 only in its hand and defender flag |
| Moves.StartedDeals | server/game.js:100-103 | each seat's new cards go behind the ones it held, no hand goes past six unless it held more, each hand is full unless the deck ran out, and the deck keeps its bottom part |
| Moves.StartedOpening | server/game.js:100-103 | from two empty hands and a deck of at least twelve, the first player gets the deck's last six cards (last first), the second the six before them, and the deck loses those twelve |
| Moves.RestartKeepsOldFlag | server/game.js:106-110 | when the first seat leaves and a new player joins, the remaining player, now seat 0, is flagged attacker while keeping its defender flag |
| Game.CardGame.StartGame | server/game.js:95-115 | the engine after startGame is Started of the engine before |
| Game.CardGame.OpenRound | server/game.js:106-110 | seat 0 is flagged attacker and seat 1 defender, and the move goes to the attacker |
| Moves.Opened | server/game.js:106-110 | seat 0 gains the attacker flag and seat 1 the defender flag, attacker and move go to seat 0, defender to seat 1, and nothing else changes |
| Moves.StartKeepsInv | server/game.js:95-115 | starting a two-player game keeps the invariant |
| Moves.StartConserves | server/game.js:100-103 | starting a game keeps the bag of cards |
| Moves.Join | server/game.js:54-77 | joining succeeds iff fewer than two are seated; a refusal changes nothing; a success adds one seat at the end and keeps trump; the first arrival only takes a seat, and the second arrival's engine is Started of the two-seat engine |
| Game.CardGame.AddPlayer | server/game.js:54-77 | addPlayer's answer and new state are those of Join, and the invariant is kept |
| Moves.JoinKeepsInv | server/game.js:54-77 | seating a fresh player, and starting the game at the second, keeps the invariant |
| Moves.Leave | server/game.js:82-90 | removePlayer changes only the seats, the set-aside hands and the phase; below two players the phase is waiting, otherwise it is unchanged |
| Moves.LeaveDropsPlayer | server/game.js:83 | no remaining seat has that id, and every other player stays seated |
| Hands.Without | server/game.js:83 | the players left are exactly those with another id, never more than before, and the seats are unchanged when their number is |
| Game.CardGame.RemovePlayer | server/game.js:82-90 | removePlayer leaves the engine as Leave says and keeps the invariant |
| Game.CardGame.DropPlayer | server/game.js:82-90 | the seats with that id empty, their cards are set aside, and below two players the game waits |
| Moves.LeaveKeepsInv | server/game.js:82-90 | removePlayer keeps the invariant, stale role references included |
| Hands.HandCardsWithout | server/game.js:83 | filtering players out splits their cards off from the rest |
| Hands.Find | server/game.js:132 | the first seat with that id, or none when no seat has it |
| Hands.FindOther | server/game.js:316 | the first seat with a different id, or none when every seat has that id |
| Rules.AttackRefusal | server/game.js:152-197 | an attack is accepted iff the table is empty, or it has fewer than 6 slots and an attack card of the same rank; a full table is refused as full |
| Rules.DefenceRefusal | server/game.js:201-251 | a defence is accepted iff the target is given, in range and not yet beaten, and the card beats its attack card; it is refused as missing iff no target is given, as invalid iff the target is out of range, as already defended iff the target slot is beaten, and as unbeatable iff only the beat check fails |
| Game.CardGame.PlayCard | server/game.js:129-256 | playCard's outcome and new state are those of Play, and the invariant is kept |
| Moves.Play | server/game.js:129-256 | a refused move changes nothing; an unknown player is refused; the move throws iff the player is seated and no one has the move; someone else's move is refused; on the mover's turn an index outside the hand is refused, an attacker's move is AttackMove, a defender's (not also attacker) is DefendMove, and a player with no role is refused; trump never changes |
| Moves.PlayKeepsInv | server/game.js:129-256 | every playCard keeps the invariant |
| Game.CardGame.Attack | server/game.js:152-197 | the attack branch's outcome and new state are those of AttackMove |
| Moves.AttackMove | server/game.js:152-197 | an attack is accepted iff the attack rule allows it; a refusal changes nothing; an acceptance gives Attacked |
| Moves.Attacked | server/game.js:157-165 | an accepted attack appends one unbeaten slot after the others, takes the card from the hand, gives the move to the defender, and changes nothing else |
| Moves.AttackConserves | server/game.js:157-164 | an attack moves one card from the hand to the table |
| Moves.AttackKeepsInv | server/game.js:152-197 | the attack branch keeps the invariant, including at most 6 slots |
| Moves.PlayedCards | server/game.js:164 | removing a hand card takes exactly that card out of the players' cards and keeps every seat's id |
| Moves.Played | server/game.js:164 | player k loses hand card i as splice removes it, and every other seat is unchanged |
| Hands.RemoveAt | server/game.js:164 | splice(i, 1) drops position i, keeps the order of the rest, and removes exactly that card |
| Table.GatheredAppend | server/game.js:157-162 | laying a slot puts exactly its cards on the table, after the others |
| Table.Gathered | server/game.js:306-311 | the table's cards collected slot by slot hold at least one and at most two cards per slot |
| Game.CardGame.Defend | server/game.js:201-251 | the defence branch's outcome and new state are those of DefendMove |
| Moves.DefendMove | server/game.js:201-251 | a defence is accepted iff the defence rule allows it; a refusal changes nothing; an accepted card beats its target; the round ends iff every slot is now beaten, otherwise the attacker has the move |
| Moves.Beat | server/game.js:226-229 | an accepted defence fills the target slot with the card and takes it from the hand; the attacker has the move; nothing else changes |
| Table.DefendSlotAddsCard | server/game.js:226-227 | beating a slot adds exactly the defending card to the table |
| Moves.Beaten | server/game.js:227-228 | slot j keeps its attack card and attacker and gains the defence card and the defender's id; every other slot is unchanged |
| Moves.BeatConserves | server/game.js:226-229 | a defence moves one card from the hand to the table |
| Moves.DefendKeepsInv | server/game.js:201-251 | the defence branch keeps the invariant |
| Moves.RoundEnd | server/game.js:234-240 | a beaten round ends with an empty table whose cards go to the discard, swapped roles, the new attacker to move, as many seats as before; apart from the players and the deck nothing else changes |
| Moves.RoundEndRefills | server/game.js:234-240 | each seat keeps its player except for its hand and flags, is flagged attacker iff it was the defender and defender iff it was the attacker, gets its new cards behind the ones it held, goes no further than six unless it held more, and is full unless the deck ran out; the deck keeps its bottom part |
| Moves.RoundEndIgnoresMove | server/game.js:234-238 | whoever had the move before a round ends makes no difference to the next round |
| Game.CardGame.EndRound | server/game.js:234-240 | the engine after the round ends is RoundEnd of the engine before |
| Moves.Cleared | server/game.js:236 | clearing the table empties it, sets its cards aside in the discard, changes nothing else and keeps the bag of cards |
| Moves.RoundEndKeepsInv | server/game.js:234-240 | ending a round keeps the invariant |
| Moves.RoundEndConserves | server/game.js:234-240 | ending a round keeps the bag of cards |
| Game.CardGame.SwitchRoles | server/game.js:336-352 | the engine after switchRoles is Switched of the engine before |
| Game.CardGame.MarkRoles | server/game.js:344-347 | every player's flags are recomputed from the two role ids, in seat order |
| Moves.Switched | server/game.js:342-347 | attacker and defender swap, every flag is rewritten from the swapped ids, nothing else changes, and the bag of cards is kept |
| Moves.SwitchedOneAttacker | server/game.js:336-352 | with two seated players of distinct ids, afterwards exactly one seat attacks, each seat holds exactly one role, and the attacking seat is the former defender |
| Hands.RolesExclusive | server/game.js:336-352 | with two seats holding the two role ids, exactly one player is attacker and the other is defender |
| Moves.Take | server/game.js:289-331 | a pick-up succeeds iff the player is seated, is the defender and has the move; it throws iff the defender is seated and no one has the move; a refusal changes nothing; an accepted pick-up gives Took; trump never changes |
| Game.CardGame.TakeCards | server/game.js:289-331 | takeCards' outcome and new state are those of Take, and the invariant is kept |
| Moves.Took | server/game.js:303-330 | after a pick-up the table is empty, the roles and trump are unchanged, there are as many seats as before, and apart from the players, the deck and the move nothing changes; the move goes as NextAfterTake says, and stays put when no seated player has another id |
| Moves.TookPassesMove | server/game.js:316-319 | with two players of distinct ids, the move passes to the one who did not pick up |
| Moves.TookRefills | server/game.js:306-326 | each seat keeps its player and flags; the taker's hand begins with what it held followed by the table's cards, every other hand with what it held; no hand goes past six unless it held more; every hand is full unless the deck ran out; the deck keeps its bottom part |
| Game.CardGame.TakeFrom | server/game.js:303-330 | the engine after an accepted pick-up is Took of the engine before |
| Moves.PickedUp | server/game.js:306-311 | the taker's hand gains every table card, slot by slot with attack before defence; other players are untouched |
| Moves.PickedUpStep | server/game.js:306-311 | picking up one more slot appends exactly that slot's cards |
| Game.CardGame.PickUp | server/game.js:306-311 | the loop leaves the players as PickedUp says |
| Moves.NextAfterTake | server/game.js:316-323 | the move passes to the first seated player whose id differs from the taker's, and stays put when there is none |
| Moves.TakeConserves | server/game.js:306-326 | a pick-up and refill keep the bag of cards |
| Moves.TakeKeepsInv | server/game.js:289-331 | takeCards keeps the invariant |
| Game.CardGame.GameState | server/game.js:357-376 | the snapshot lists every player with id, name, full hand, hand size and flags, plus the table, trump, deck size, whose move it is and the phase |
| Game.CardGame.HasWon | server/server.js:115 | a player has won iff they are seated, their hand is empty and the deck is empty |

## Left out

- Logging: every `console.log` is dropped.
- Randomness: `Math.random` in the shuffle is replaced by the `picks` input.
- Game.CardGame.ShuffleDeck: states that the result is a rearrangement of the old deck, not which rearrangement the picks produce.
- JavaScript argument types: indices are integers in the model. A `targetCardIndex` left `undefined` becomes `null` through the default parameter (`server/game.js:129`), which the model covers as `None`. A non-integer number is not modelled: as `cardIndex` it passes the range check and `card.rank` throws (`server/game.js:148-149`); as `targetCardIndex` it passes the range check and `targetCard.defendingCard` throws (`server/game.js:214-216`).
- Sharing through references: the role references and the snapshot's `table` and `cards` share objects with the engine in the source. The model copies values, so a later mutation seen through such a reference is not modelled.
- The `finished` phase: the engine never sets it; `server/server.js:117` does. It exists in `Phase`, but no engine operation produces it.
- Card concealment: `getGameState` sends every hand. The model claims no concealment.
- The session layer: sockets, lobbies, lobby codes and broadcasts in `server/server.js` are not part of this model. The win check is modelled as `HasWon`.
- The client in `client/game.js` is not part of this model.
- The `discard` and `departed` piles exist only in the model. They are ghost state, kept to state conservation, and the source has no such fields.
