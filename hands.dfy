/**
 * Players and their hands: finding a player, dealing from the deck, and the role flags.
 */
module Hands {
  import opened Wrappers
  import opened Cards
  import opened Table

  /** A hand is refilled up to this many cards. */
  const HandSize: nat := 6

  datatype Player = Player(id: PlayerId, name: string, hand: seq<Card>, isAttacker: bool, isDefender: bool)

  function Min(a: int, b: int): (m: int) { if a <= b then a else b }
  function Max(a: int, b: int): (m: int) { if a <= b then b else a }

  /** All cards held by the players, as a bag. */
  function HandCards(ps: seq<Player>): (cs: multiset<Card>)
  {
    if ps == [] then multiset{} else multiset(ps[0].hand) + HandCards(ps[1..])
  }

  /** Replacing one player's hand replaces exactly those cards in the bag. */
  lemma {:induction false} HandCardsUpdate(ps: seq<Player>, k: nat, p: Player)
    requires k < |ps|
    ensures HandCards(ps[k := p]) + multiset(ps[k].hand) == HandCards(ps) + multiset(p.hand)
  {
    var qs := ps[k := p];
    if k == 0 {
      assert qs[1..] == ps[1..];
    } else {
      HandCardsUpdate(ps[1..], k - 1, p);
      assert qs[0] == ps[0] && qs[1..] == ps[1..][k - 1 := p] && ps[1..][k - 1] == ps[k];
      assert HandCards(qs) == multiset(ps[0].hand) + HandCards(ps[1..][k - 1 := p]);
      assert HandCards(ps) == multiset(ps[0].hand) + HandCards(ps[1..]);
      var a, b := HandCards(ps[1..][k - 1 := p]), HandCards(ps[1..]);
      forall c ensures (multiset(ps[0].hand) + a + multiset(ps[k].hand))[c]
                    == (multiset(ps[0].hand) + b + multiset(p.hand))[c] {
        assert (a + multiset(ps[k].hand))[c] == (b + multiset(p.hand))[c];
      }
    }
  }

  /** A new player joins with their hand's cards. */
  lemma {:induction false} HandCardsAppend(ps: seq<Player>, p: Player)
    ensures HandCards(ps + [p]) == HandCards(ps) + multiset(p.hand)
  {
    if ps != [] {
      assert (ps + [p])[1..] == ps[1..] + [p];
      HandCardsAppend(ps[1..], p);
    }
  }

  /** Only hands count: players with the same hands hold the same cards. */
  lemma {:induction false} HandCardsSameHands(ps: seq<Player>, qs: seq<Player>)
    requires |ps| == |qs| && forall j :: 0 <= j < |ps| ==> ps[j].hand == qs[j].hand
    ensures HandCards(ps) == HandCards(qs)
  {
    if ps != [] {
      HandCardsSameHands(ps[1..], qs[1..]);
    }
  }

  /** `players.find(p => p.id === id)`: the first player with that id. */
  function Find(ps: seq<Player>, id: PlayerId): (r: Option<nat>)
    ensures r.Some? ==> r.value < |ps| && ps[r.value].id == id
    ensures r.Some? ==> forall j :: 0 <= j < r.value ==> ps[j].id != id
    ensures r.None? ==> forall j :: 0 <= j < |ps| ==> ps[j].id != id
  {
    if ps == [] then None
    else if ps[0].id == id then Some(0)
    else match Find(ps[1..], id)
      case None => None
      case Some(k) => Some(k + 1)
  }

  /** `players.find(p => p.id !== id)`: the first player with another id. */
  function FindOther(ps: seq<Player>, id: PlayerId): (r: Option<nat>)
    ensures r.Some? ==> r.value < |ps| && ps[r.value].id != id
    ensures r.Some? ==> forall j :: 0 <= j < r.value ==> ps[j].id == id
    ensures r.None? ==> forall j :: 0 <= j < |ps| ==> ps[j].id == id
  {
    if ps == [] then None
    else if ps[0].id != id then Some(0)
    else match FindOther(ps[1..], id)
      case None => None
      case Some(k) => Some(k + 1)
  }

  /** `players.filter(p => p.id !== id)`: every player with that id leaves. */
  function Without(ps: seq<Player>, id: PlayerId): (r: seq<Player>)
    ensures |r| <= |ps|
    ensures forall p :: p in r <==> p in ps && p.id != id
    ensures |r| == |ps| ==> r == ps
  {
    if ps == [] then []
    else (if ps[0].id == id then [] else [ps[0]]) + Without(ps[1..], id)
  }

  /** The cards held by the players with that id. */
  function Departing(ps: seq<Player>, id: PlayerId): (cs: multiset<Card>)
  {
    if ps == [] then multiset{}
    else (if ps[0].id == id then multiset(ps[0].hand) else multiset{}) + Departing(ps[1..], id)
  }

  /** Filtering players out splits their cards off from the rest. */
  lemma {:induction false} HandCardsWithout(ps: seq<Player>, id: PlayerId)
    ensures HandCards(ps) == HandCards(Without(ps, id)) + Departing(ps, id)
  {
    if ps != [] {
      HandCardsWithout(ps[1..], id);
      var rest := Without(ps[1..], id);
      if ps[0].id == id {
        assert Without(ps, id) == rest;
      } else {
        var r := [ps[0]] + rest;
        assert Without(ps, id) == r;
        assert r[0] == ps[0] && r[1..] == rest;
        assert HandCards(r) == multiset(ps[0].hand) + HandCards(rest);
      }
    }
  }

  /** `cards.splice(i, 1)`: the hand without its i-th card, the rest in order. */
  function RemoveAt(s: seq<Card>, i: nat): (r: seq<Card>)
    requires i < |s|
    ensures |r| == |s| - 1
    ensures forall j :: 0 <= j < |r| ==> r[j] == if j < i then s[j] else s[j + 1]
    ensures multiset(r) + multiset{s[i]} == multiset(s)
  {
    assert s == s[..i] + [s[i]] + s[i + 1..];
    s[..i] + s[i + 1..]
  }

  /** The cards of s, last one first. */
  function Reversed(s: seq<Card>): (r: seq<Card>)
    ensures |r| == |s|
  {
    if s == [] then [] else [s[|s| - 1]] + Reversed(s[..|s| - 1])
  }

  lemma {:induction false} ReversedAt(s: seq<Card>, k: nat)
    requires k < |s|
    ensures Reversed(s)[k] == s[|s| - 1 - k]
  {
    if k > 0 {
      ReversedAt(s[..|s| - 1], k - 1);
    }
  }

  lemma {:induction false} ReversedSameCards(s: seq<Card>)
    ensures multiset(Reversed(s)) == multiset(s)
  {
    if s != [] {
      ReversedSameCards(s[..|s| - 1]);
      assert s == s[..|s| - 1] + [s[|s| - 1]];
    }
  }

  /**
   * `dealCards(player, n)`: while the hand is short of n and the deck is not empty,
   * pop the deck's last card onto the end of the hand. Yields the new hand and deck.
   */
  function Deal(hand: seq<Card>, deck: seq<Card>, n: nat): (r: (seq<Card>, seq<Card>))
    ensures |r.0| == Max(|hand|, Min(n, |hand| + |deck|))
    ensures |r.0| + |r.1| == |hand| + |deck|
    ensures r.1 == deck[..|r.1|]
    decreases |deck|
  {
    if |hand| < n && |deck| > 0 then
      var r := Deal(hand + [deck[|deck| - 1]], deck[..|deck| - 1], n);
      assert deck[..|deck| - 1][..|r.1|] == deck[..|r.1|];
      r
    else (hand, deck)
  }

  /** The dealt cards are the deck's tail, taken from the end: the hand keeps its cards first. */
  lemma {:induction false} DealTakesFromEnd(hand: seq<Card>, deck: seq<Card>, n: nat)
    ensures Deal(hand, deck, n).0 == hand + Reversed(deck[|Deal(hand, deck, n).1|..])
    decreases |deck|
  {
    var r := Deal(hand, deck, n);
    if |hand| < n && |deck| > 0 {
      var last := |deck| - 1;
      DealTakesFromEnd(hand + [deck[last]], deck[..last], n);
      var tail := deck[|r.1|..];
      assert tail[..|tail| - 1] == deck[..last][|r.1|..];
      assert tail[|tail| - 1] == deck[last];
    } else {
      assert deck[|deck|..] == [];
    }
  }

  /** Dealing moves cards and never makes or loses one. */
  lemma DealConserves(hand: seq<Card>, deck: seq<Card>, n: nat)
    ensures multiset(Deal(hand, deck, n).0) + multiset(Deal(hand, deck, n).1) == multiset(hand) + multiset(deck)
  {
    var r := Deal(hand, deck, n);
    DealTakesFromEnd(hand, deck, n);
    ReversedSameCards(deck[|r.1|..]);
    assert deck == r.1 + deck[|r.1|..];
  }

  /** The deck's first card, whose suit is trump, is the last card dealt. */
  lemma TrumpCardDealtLast(hand: seq<Card>, deck: seq<Card>, n: nat)
    requires |deck| > 0 && Deal(hand, deck, n).1 == []
    ensures var h := Deal(hand, deck, n).0; h[|h| - 1] == deck[0]
  {
    DealTakesFromEnd(hand, deck, n);
    assert deck[0..] == deck;
    ReversedAt(deck, |deck| - 1);
  }

  /**
   * `players.forEach(p => dealCards(p, n))` stopped after the first i players:
   * the players in join order, each served before the next. Yields players and deck.
   */
  function DealRound(ps: seq<Player>, deck: seq<Card>, n: nat, i: nat): (r: (seq<Player>, seq<Card>))
    requires i <= |ps|
    ensures |r.0| == |ps|
    decreases i
  {
    if i == 0 then (ps, deck)
    else
      var (qs, d) := DealRound(ps, deck, n, i - 1);
      var (h, d') := Deal(qs[i - 1].hand, d, n);
      (qs[i - 1 := qs[i - 1].(hand := h)], d')
  }

  /** A refill only takes cards off the top of the deck: what is left is its bottom part. */
  lemma {:induction false} DealRoundKeepsBottom(ps: seq<Player>, deck: seq<Card>, n: nat, i: nat)
    requires i <= |ps|
    ensures var r := DealRound(ps, deck, n, i); |r.1| <= |deck| && r.1 == deck[..|r.1|]
  {
    if i > 0 {
      DealRoundKeepsBottom(ps, deck, n, i - 1);
      var d := DealRound(ps, deck, n, i - 1).1;
      var d' := DealRound(ps, deck, n, i).1;
      assert deck[..|d|][..|d'|] == deck[..|d'|];
    }
  }

  /** A refill changes seat j's hand and nothing else about it; a seat not yet served is untouched. */
  lemma {:induction false} DealRoundSeat(ps: seq<Player>, deck: seq<Card>, n: nat, i: nat, j: nat)
    requires i <= |ps| && j < |ps|
    ensures DealRound(ps, deck, n, i).0[j] == ps[j].(hand := DealRound(ps, deck, n, i).0[j].hand)
    ensures i <= j ==> DealRound(ps, deck, n, i).0[j] == ps[j]
  {
    if i > 0 {
      DealRoundSeat(ps, deck, n, i - 1, j);
    }
  }

  /** A refill changes hands and nothing else about the players. */
  lemma DealRoundKeepsSeats(ps: seq<Player>, deck: seq<Card>, n: nat, i: nat)
    requires i <= |ps|
    ensures forall j :: 0 <= j < |ps| ==> DealRound(ps, deck, n, i).0[j] == ps[j].(hand := DealRound(ps, deck, n, i).0[j].hand)
  {
    forall j | 0 <= j < |ps|
      ensures DealRound(ps, deck, n, i).0[j] == ps[j].(hand := DealRound(ps, deck, n, i).0[j].hand)
    {
      DealRoundSeat(ps, deck, n, i, j);
    }
  }

  /** What one step of a refill does: serve player i - 1 from what the earlier steps left. */
  lemma DealRoundStep(ps: seq<Player>, deck: seq<Card>, n: nat, i: nat)
    requires 0 < i <= |ps|
    ensures var prev := DealRound(ps, deck, n, i - 1);
      var dealt := Deal(prev.0[i - 1].hand, prev.1, n);
      DealRound(ps, deck, n, i) == (prev.0[i - 1 := prev.0[i - 1].(hand := dealt.0)], dealt.1)
  {
  }

  /** Served seat j: its hand did not shrink, grew no further than n unless it already held more, and is full unless the deck ran out. */
  lemma {:induction false} DealRoundServed(ps: seq<Player>, deck: seq<Card>, n: nat, i: nat, j: nat)
    requires j < i <= |ps|
    ensures var r := DealRound(ps, deck, n, i);
      && |ps[j].hand| <= |r.0[j].hand| <= Max(|ps[j].hand|, n)
      && (|r.0[j].hand| >= n || r.1 == [])
  {
    DealRoundAtMost(ps, deck, n, i, j);
    DealRoundStep(ps, deck, n, i);
    var prev := DealRound(ps, deck, n, i - 1);
    var dealt := Deal(prev.0[i - 1].hand, prev.1, n);
    var r := DealRound(ps, deck, n, i);
    assert r.1 == dealt.1;
    if j == i - 1 {
      DealRoundSeat(ps, deck, n, i - 1, j);
      assert r.0[j].hand == dealt.0 && prev.0[j] == ps[j];
      assert |dealt.0| >= |ps[j].hand|;
    } else {
      DealRoundServed(ps, deck, n, i - 1, j);
      assert r.0[j] == prev.0[j];
      assert prev.1 == [] ==> dealt.1 == [];
    }
  }

  /** Dealing only adds cards behind those the hand already held. */
  lemma DealExtends(hand: seq<Card>, deck: seq<Card>, n: nat)
    ensures |hand| <= |Deal(hand, deck, n).0| && Deal(hand, deck, n).0[..|hand|] == hand
  {
    DealTakesFromEnd(hand, deck, n);
  }

  /** A refill only adds cards behind those a hand already held. */
  lemma {:induction false} DealRoundExtends(ps: seq<Player>, deck: seq<Card>, n: nat, i: nat, j: nat)
    requires i <= |ps| && j < |ps|
    ensures var h := DealRound(ps, deck, n, i).0[j].hand;
      |ps[j].hand| <= |h| && h[..|ps[j].hand|] == ps[j].hand
  {
    if i == 0 {
      assert ps[j].hand[..|ps[j].hand|] == ps[j].hand;
    } else {
      DealRoundExtends(ps, deck, n, i - 1, j);
      var prev := DealRound(ps, deck, n, i - 1);
      if j == i - 1 {
        DealExtends(prev.0[j].hand, prev.1, n);
        PrefixOfPrefix(ps[j].hand, prev.0[j].hand, DealRound(ps, deck, n, i).0[j].hand);
      }
    }
  }

  /** A prefix of a prefix is a prefix. */
  lemma PrefixOfPrefix(a: seq<Card>, b: seq<Card>, c: seq<Card>)
    requires |a| <= |b| && b[..|a|] == a && |b| <= |c| && c[..|b|] == b
    ensures |a| <= |c| && c[..|a|] == a
  {
    assert c[..|a|] == c[..|b|][..|a|];
  }

  /** A refill never gives a hand more than it needs to reach n: one already at n or above gains nothing. */
  lemma {:induction false} DealRoundAtMost(ps: seq<Player>, deck: seq<Card>, n: nat, i: nat, j: nat)
    requires i <= |ps| && j < |ps|
    ensures |DealRound(ps, deck, n, i).0[j].hand| <= Max(|ps[j].hand|, n)
  {
    if i > 0 {
      DealRoundAtMost(ps, deck, n, i - 1, j);
      if j == i - 1 {
        DealRoundSeat(ps, deck, n, i - 1, j);
      }
    }
  }

  /**
   * What a refill promises the served players: no hand shrinks, none grows past
   * n unless it already held more, and every one is full unless the deck ran out.
   */
  lemma DealRoundRefills(ps: seq<Player>, deck: seq<Card>, n: nat, i: nat)
    requires i <= |ps|
    ensures var r := DealRound(ps, deck, n, i);
      && (forall j :: 0 <= j < i ==> |ps[j].hand| <= |r.0[j].hand| <= Max(|ps[j].hand|, n))
      && (forall j :: 0 <= j < i ==> |r.0[j].hand| >= n || r.1 == [])
  {
    forall j | 0 <= j < i
      ensures |ps[j].hand| <= |DealRound(ps, deck, n, i).0[j].hand| <= Max(|ps[j].hand|, n)
      ensures |DealRound(ps, deck, n, i).0[j].hand| >= n || DealRound(ps, deck, n, i).1 == []
    {
      DealRoundServed(ps, deck, n, i, j);
    }
  }

  /** Refilling in join order only moves cards from the deck into hands. */
  lemma {:induction false} DealRoundConserves(ps: seq<Player>, deck: seq<Card>, n: nat, i: nat)
    requires i <= |ps|
    ensures HandCards(DealRound(ps, deck, n, i).0) + multiset(DealRound(ps, deck, n, i).1)
            == HandCards(ps) + multiset(deck)
  {
    if i > 0 {
      var prev := DealRound(ps, deck, n, i - 1);
      DealRoundConserves(ps, deck, n, i - 1);
      var qs, d := prev.0, prev.1;
      var dealt := Deal(qs[i - 1].hand, d, n);
      DealConserves(qs[i - 1].hand, d, n);
      var p' := qs[i - 1].(hand := dealt.0);
      HandCardsUpdate(qs, i - 1, p');
      assert DealRound(ps, deck, n, i) == (qs[i - 1 := p'], dealt.1);
      MoveCancels(HandCards(qs[i - 1 := p']), multiset(qs[i - 1].hand), HandCards(qs),
                  multiset(dealt.0), multiset(dealt.1), multiset(d));
    }
  }

  /** Bag bookkeeping for one step of a refill. */
  lemma MoveCancels(a: multiset<Card>, x: multiset<Card>, b: multiset<Card>,
                    h: multiset<Card>, d': multiset<Card>, d: multiset<Card>)
    requires a + x == b + h && h + d' == x + d
    ensures a + d' == b + d
  {
    forall c ensures (a + d')[c] == (b + d)[c] {
      assert (a + x)[c] == (b + h)[c];
      assert (h + d')[c] == (x + d)[c];
    }
  }

  /** Dealing an empty hand from at least six cards takes the deck's last six, last one first. */
  lemma FirstHand(deck: seq<Card>)
    requires |deck| >= HandSize
    ensures Deal([], deck, HandSize) == (Reversed(deck[|deck| - HandSize..]), deck[..|deck| - HandSize])
  {
    var r := Deal([], deck, HandSize);
    assert |r.0| == HandSize;
    assert |r.1| == |deck| - HandSize;
    DealTakesFromEnd([], deck, HandSize);
    assert [] + Reversed(deck[|deck| - HandSize..]) == Reversed(deck[|deck| - HandSize..]);
  }

  /** The first step of a refill serves the first seat from the top of the deck. */
  lemma FirstSeat(ps: seq<Player>, deck: seq<Card>)
    requires |ps| >= 1 && ps[0].hand == [] && |deck| >= HandSize
    ensures DealRound(ps, deck, HandSize, 1)
            == (ps[0 := ps[0].(hand := Reversed(deck[|deck| - HandSize..]))], deck[..|deck| - HandSize])
  {
    FirstHand(deck);
    DealRoundStep(ps, deck, HandSize, 1);
  }

  /**
   * The opening deal: with two empty hands and at least twelve cards, the first
   * player to join gets the deck's last six cards (last one first), the second the six before.
   */
  lemma OpeningDeal(ps: seq<Player>, deck: seq<Card>)
    requires |ps| == 2 && ps[0].hand == [] && ps[1].hand == [] && |deck| >= 2 * HandSize
    ensures var L := |deck|;
      DealRound(ps, deck, HandSize, 2) ==
        ([ps[0].(hand := Reversed(deck[L - 6..])), ps[1].(hand := Reversed(deck[L - 12..L - 6]))],
         deck[..L - 12])
  {
    var L := |deck|;
    var d0 := deck[..L - 6];
    FirstSeat(ps, deck);
    var q := ps[0 := ps[0].(hand := Reversed(deck[L - 6..]))];
    FirstHand(d0);
    assert d0[L - 12..] == deck[L - 12..L - 6] && d0[..L - 12] == deck[..L - 12];
    DealRoundStep(ps, deck, HandSize, 2);
    var p1 := ps[1].(hand := Reversed(deck[L - 12..L - 6]));
    assert DealRound(ps, deck, HandSize, 2) == (q[1 := p1], deck[..L - 12]);
    assert q[1 := p1] == [ps[0].(hand := Reversed(deck[L - 6..])), p1];
  }

  /** switchRoles' flag update: the flags follow the two role ids. */
  function WithRoles(ps: seq<Player>, attacker: PlayerId, defender: PlayerId): (qs: seq<Player>)
    ensures |qs| == |ps|
    ensures forall j :: 0 <= j < |ps| ==> qs[j] == ps[j].(isAttacker := ps[j].id == attacker, isDefender := ps[j].id == defender)
  {
    seq(|ps|, j requires 0 <= j < |ps| => ps[j].(isAttacker := ps[j].id == attacker, isDefender := ps[j].id == defender))
  }

  /**
   * With two players whose ids are the two distinct role ids, exactly one of them is
   * the attacker and the other the defender.
   */
  lemma RolesExclusive(ps: seq<Player>, attacker: PlayerId, defender: PlayerId)
    requires |ps| == 2 && attacker != defender
    requires {ps[0].id, ps[1].id} == {attacker, defender}
    ensures var qs := WithRoles(ps, attacker, defender);
      && (qs[0].isAttacker <==> !qs[1].isAttacker)
      && (qs[0].isDefender <==> !qs[1].isDefender)
      && (qs[0].isAttacker <==> qs[1].isDefender)
      && (qs[0].isAttacker <==> !qs[0].isDefender)
  {
    assert ps[0].id in {attacker, defender} && ps[1].id in {attacker, defender};
    assert attacker in {ps[0].id, ps[1].id};
  }
}
