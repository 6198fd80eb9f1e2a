/**
 * The shared table: one slot per attack, in the order the attacks were laid.
 */
module Table {
  import opened Wrappers
  import opened Cards

  /** A player's identity: the connection id the session layer hands in. */
  type PlayerId = string

  /** The most slots the attacker may fill in one round. */
  const MaxSlots: nat := 6

  /** An attack card, who laid it, and the card that beat it once there is one. */
  datatype Slot = Slot(attack: Card, attackerId: PlayerId, defence: Option<Card>, defenderId: Option<PlayerId>)

  /** The cards of one slot, attack card first. */
  function SlotCards(s: Slot): (cs: seq<Card>)
    ensures 1 <= |cs| <= 2 && cs[0] == s.attack
    ensures |cs| == 2 <==> s.defence.Some?
    ensures s.defence.Some? ==> cs[1] == s.defence.value
  {
    [s.attack] + (if s.defence.Some? then [s.defence.value] else [])
  }

  /** Every card on the table, slot by slot, in the order a pick-up moves them into a hand. */
  function Gathered(table: seq<Slot>): (cs: seq<Card>)
    ensures |table| <= |cs| <= 2 * |table|
  {
    if table == [] then []
    else Gathered(table[..|table| - 1]) + SlotCards(table[|table| - 1])
  }

  /** The cards on the table, as a bag. */
  function TableCards(table: seq<Slot>): (cs: multiset<Card>)
  {
    multiset(Gathered(table))
  }

  /** True when every slot has been beaten. */
  predicate AllDefended(table: seq<Slot>)
  {
    forall i :: 0 <= i < |table| ==> table[i].defence.Some?
  }

  /** The ranks the throw-in rule compares against: attack cards only. */
  function AttackRanks(table: seq<Slot>): (rs: seq<Rank>)
    ensures |rs| == |table|
    ensures forall i :: 0 <= i < |table| ==> rs[i] == table[i].attack.rank
  {
    seq(|table|, i requires 0 <= i < |table| => table[i].attack.rank)
  }

  /** Laying a new slot puts exactly its cards on the table, after the others. */
  lemma GatheredAppend(table: seq<Slot>, s: Slot)
    ensures Gathered(table + [s]) == Gathered(table) + SlotCards(s)
    ensures TableCards(table + [s]) == TableCards(table) + multiset(SlotCards(s))
  {
    assert (table + [s])[..|table|] == table;
  }

  /** The first i slots' cards, extended by slot i. */
  lemma GatheredPrefix(table: seq<Slot>, i: nat)
    requires i < |table|
    ensures Gathered(table[..i + 1]) == Gathered(table[..i]) + SlotCards(table[i])
  {
    assert table[..i + 1][..i] == table[..i];
  }

  /** Beating slot j adds exactly the defending card to the table. */
  lemma {:induction false} DefendSlotAddsCard(table: seq<Slot>, j: nat, c: Card, id: PlayerId)
    requires j < |table| && table[j].defence.None?
    ensures TableCards(table[j := table[j].(defence := Some(c), defenderId := Some(id))])
            == TableCards(table) + multiset{c}
  {
    var t' := table[j := table[j].(defence := Some(c), defenderId := Some(id))];
    var n := |table| - 1;
    if j == n {
      assert t'[..n] == table[..n];
    } else {
      DefendSlotAddsCard(table[..n], j, c, id);
      assert t'[..n] == table[..n][j := table[j].(defence := Some(c), defenderId := Some(id))];
    }
  }
}
