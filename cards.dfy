/**
 * Cards of the 36-card pack: four suits, nine ranks from six to ace.
 */
module Cards {

  /** The suits, in the order the pack is built. */
  datatype Suit = Hearts | Diamonds | Clubs | Spades

  /** A rank counts up from the six (0) to the ace (8). */
  type Rank = r: int | 0 <= r < 9

  datatype Card = Card(suit: Suit, rank: Rank)

  const Suits: seq<Suit> := [Hearts, Diamonds, Clubs, Spades]
  const PackSize: nat := 36

  function SuitIndex(s: Suit): (i: nat)
    ensures i < |Suits| && Suits[i] == s
  {
    match s
    case Hearts => 0
    case Diamonds => 1
    case Clubs => 2
    case Spades => 3
  }

  /** The card the pack-building loops push at step i. */
  function CardAt(i: nat): (c: Card)
    requires i < PackSize
  {
    Card(Suits[i / 9], i % 9)
  }

  /** The unshuffled pack: suit by suit, each suit from the six up to the ace. */
  function FreshPack(): (p: seq<Card>)
    ensures |p| == PackSize
  {
    seq(PackSize, i requires 0 <= i < PackSize => CardAt(i))
  }

  /** Where a card sits in the unshuffled pack. */
  function PackIndex(c: Card): (i: nat)
    ensures i < PackSize && CardAt(i) == c
  {
    9 * SuitIndex(c.suit) + c.rank
  }

  /** Every suit-rank card is in the fresh pack, and no card is in it twice. */
  lemma FreshPackIsEveryCardOnce()
    ensures forall c: Card :: c in FreshPack()
    ensures forall i, j :: 0 <= i < j < PackSize ==> FreshPack()[i] != FreshPack()[j]
  {
    forall c: Card ensures c in FreshPack() {
      assert FreshPack()[PackIndex(c)] == c;
    }
    forall i, j | 0 <= i < j < PackSize ensures FreshPack()[i] != FreshPack()[j] {
      if FreshPack()[i] == FreshPack()[j] {
        CardAtInjective(i, j);
      }
    }
  }

  lemma CardAtInjective(i: nat, j: nat)
    requires i < PackSize && j < PackSize && CardAt(i) == CardAt(j)
    ensures i == j
  {
    assert SuitIndex(Suits[i / 9]) == i / 9;
    assert SuitIndex(Suits[j / 9]) == j / 9;
  }

  /** A shuffled pack still holds exactly the 36 cards, each once. */
  lemma ShuffledPackIsEveryCardOnce(d: seq<Card>)
    requires multiset(d) == multiset(FreshPack())
    ensures |d| == PackSize
    ensures forall c: Card :: c in d
    ensures forall c: Card :: multiset(d)[c] == 1
  {
    assert |d| == |multiset(d)| == |multiset(FreshPack())| == PackSize;
    FreshPackIsEveryCardOnce();
    forall c: Card ensures c in d && multiset(d)[c] == 1 {
      assert c in FreshPack();
      assert c in multiset(FreshPack());
      DistinctOnce(FreshPack(), c);
    }
  }

  /** In a sequence without repeats, a member occurs exactly once. */
  lemma {:induction false} DistinctOnce(s: seq<Card>, c: Card)
    requires forall i, j :: 0 <= i < j < |s| ==> s[i] != s[j]
    requires c in s
    ensures multiset(s)[c] == 1
  {
    assert s == [s[0]] + s[1..];
    if s[0] == c {
      assert c !in s[1..];
    } else {
      DistinctOnce(s[1..], c);
    }
  }

  /**
   * The beat relation: a same-suit card of higher rank, or a trump against a
   * non-trump. A same-suit pair never falls through to the trump rule.
   */
  function CanBeat(trump: Suit, attack: Card, defence: Card): (b: bool)
    ensures b <==> ((attack.suit == defence.suit && attack.rank < defence.rank)
                    || (defence.suit == trump && attack.suit != trump))
  {
    if attack.suit == defence.suit then defence.rank > attack.rank
    else defence.suit == trump && attack.suit != trump
  }

  /** No card beats itself, and two cards never beat each other. */
  lemma BeatIsAsymmetric(trump: Suit, a: Card, b: Card)
    ensures !CanBeat(trump, a, a)
    ensures !(CanBeat(trump, a, b) && CanBeat(trump, b, a))
  {
  }

  /** Beating chains: a card that beats a card that beats a third one beats the third. */
  lemma BeatIsTransitive(trump: Suit, a: Card, b: Card, c: Card)
    requires CanBeat(trump, a, b) && CanBeat(trump, b, c)
    ensures CanBeat(trump, a, c)
  {
  }

  /** A trump beats every non-trump, and a non-trump beats no trump. */
  lemma TrumpBeatsNonTrump(trump: Suit, a: Card, d: Card)
    ensures a.suit != trump && d.suit == trump ==> CanBeat(trump, a, d)
    ensures a.suit == trump && d.suit != trump ==> !CanBeat(trump, a, d)
  {
  }
}
