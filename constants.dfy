/** The fixed card sets and the construction of the initial deck (constants.ts). */
module Constants {

  import opened Types
  import opened Seqs
  import opened Shuffle

  /** `BLOOD_TYPES`, in the order the deck is built. */
  const BLOOD_TYPES: seq<BloodType> := [AA, AO, BB, BO, AB, OO]

  /** `ACTION_CARDS`: marriage, death, birth. */
  const ACTION_CARDS: seq<ActionType> := [Marriage, Death, Birth]

  /** How many cards of each blood type the deck holds (the bound of the inner loop). */
  const COPIES: nat := 4

  /** The six blood types, each listed once. */
  lemma BloodTypesComplete()
    ensures |BLOOD_TYPES| == 6 && Distinct(BLOOD_TYPES)
    ensures forall b: BloodType :: b in BLOOD_TYPES
  {
    forall b: BloodType ensures b in BLOOD_TYPES {
      match b
      case AA => assert BLOOD_TYPES[0] == b;
      case AO => assert BLOOD_TYPES[1] == b;
      case BB => assert BLOOD_TYPES[2] == b;
      case BO => assert BLOOD_TYPES[3] == b;
      case AB => assert BLOOD_TYPES[4] == b;
      case OO => assert BLOOD_TYPES[5] == b;
    }
  }

  /** The three action types, each listed once. */
  lemma ActionCardsComplete()
    ensures |ACTION_CARDS| == 3 && Distinct(ACTION_CARDS)
    ensures forall a: ActionType :: a in ACTION_CARDS
  {
    forall a: ActionType ensures a in ACTION_CARDS {
      match a
      case Marriage => assert ACTION_CARDS[0] == a;
      case Death => assert ACTION_CARDS[1] == a;
      case Birth => assert ACTION_CARDS[2] == a;
    }
  }

  /** The decimal digit of a number below ten. */
  function Digit(i: nat): (c: char)
    requires i < 10
    ensures '0' <= c <= '9'
  {
    ('0' as int + i) as char
  }

  /** The template `${type}-${i}` for a one-digit `i`. */
  function CardId(t: BloodType, i: nat): (id: string)
    requires i < 10
  {
    t.Code() + "-" + [Digit(i)]
  }

  /** An id determines both the blood type and the copy number it was made from. */
  lemma CardIdInjective(t: BloodType, i: nat, u: BloodType, k: nat)
    requires i < 10 && k < 10
    ensures CardId(t, i) == CardId(u, k) <==> t == u && i == k
  {
    if CardId(t, i) == CardId(u, k) {
      assert t.Code() == CardId(t, i)[..2] == u.Code();
      CodeInjective(t, u);
      assert Digit(i) == CardId(t, i)[3] == Digit(k);
    }
  }

  /** A card whose id is `${value}-${i}` for a copy number `i` below four. */
  ghost predicate WellNamed(c: BloodCard)
  {
    exists i :: 0 <= i < COPIES && c.id == CardId(c.value, i)
  }

  /** The four cards the inner loop pushes for one blood type. */
  function Group(t: BloodType): seq<BloodCard>
  {
    seq(COPIES, i requires 0 <= i < COPIES => Blood(CardId(t, i), t))
  }

  /** The deck before shuffling, after the outer loop has handled the first `n` blood types. */
  function BuiltUpTo(n: nat): seq<BloodCard>
    requires n <= |BLOOD_TYPES|
  {
    if n == 0 then [] else BuiltUpTo(n - 1) + Group(BLOOD_TYPES[n - 1])
  }

  /** The deck as built, before the shuffle. */
  function Unshuffled(): seq<BloodCard>
  {
    BuiltUpTo(|BLOOD_TYPES|)
  }

  function Values(cards: seq<BloodCard>): seq<BloodType>
  {
    Map(cards, (c: BloodCard) => c.value)
  }

  /** After `n` blood types the deck holds four cards for each of them. */
  lemma {:induction false} BuiltUpToLength(n: nat)
    requires n <= |BLOOD_TYPES|
    ensures |BuiltUpTo(n)| == COPIES * n
  {
    if n > 0 {
      BuiltUpToLength(n - 1);
    }
  }

  /** After `n` blood types each of them is the value of exactly four cards, and no other type is. */
  lemma {:induction false} BuiltUpToValues(n: nat)
    requires n <= |BLOOD_TYPES|
    ensures forall b: BloodType :: multiset(Values(BuiltUpTo(n)))[b] == if b in BLOOD_TYPES[..n] then COPIES else 0
  {
    if n > 0 {
      BuiltUpToValues(n - 1);
      var prev, t := BuiltUpTo(n - 1), BLOOD_TYPES[n - 1];
      var g := Group(t);
      BloodTypesComplete();
      assert BLOOD_TYPES[..n] == BLOOD_TYPES[..n - 1] + [t];
      assert t !in BLOOD_TYPES[..n - 1];
      MapConcat(prev, g, (c: BloodCard) => c.value);
      assert Values(g) == [t, t, t, t];
      assert multiset(Values(BuiltUpTo(n))) == multiset(Values(prev)) + multiset{t, t, t, t};
    }
  }

  /** Every card built for the first `n` blood types is well named and has one of those types. */
  lemma {:induction false} BuiltUpToNames(n: nat)
    requires n <= |BLOOD_TYPES|
    ensures forall c :: c in BuiltUpTo(n) ==> WellNamed(c) && c.value in BLOOD_TYPES[..n]
  {
    if n > 0 {
      BuiltUpToNames(n - 1);
      var prev, t := BuiltUpTo(n - 1), BLOOD_TYPES[n - 1];
      var g := Group(t);
      assert BLOOD_TYPES[..n] == BLOOD_TYPES[..n - 1] + [t];
      forall c | c in g ensures WellNamed(c) && c.value == t {
        var i :| 0 <= i < COPIES && g[i] == c;
        assert c.id == CardId(t, i);
      }
    }
  }

  /** The cards built for the first `n` blood types have pairwise distinct ids. */
  lemma {:induction false} BuiltUpToIds(n: nat)
    requires n <= |BLOOD_TYPES|
    ensures Distinct(Ids(BuiltUpTo(n)))
  {
    if n > 0 {
      BuiltUpToIds(n - 1);
      BuiltUpToNames(n - 1);
      BloodTypesComplete();
      var prev, t := BuiltUpTo(n - 1), BLOOD_TYPES[n - 1];
      var g := Group(t);
      var all := BuiltUpTo(n);
      assert all == prev + g;
      assert t !in BLOOD_TYPES[..n - 1];
      var ids := Ids(all);
      forall i, j | 0 <= i < j < |ids| ensures ids[i] != ids[j] {
        if j < |prev| {
          assert Ids(prev)[i] == ids[i] && Ids(prev)[j] == ids[j];
        } else if i < |prev| {
          var c := all[i];
          assert c in prev && all[j] == g[j - |prev|];
          var k :| 0 <= k < COPIES && c.id == CardId(c.value, k);
          CardIdInjective(c.value, k, t, j - |prev|);
        } else {
          CardIdInjective(t, i - |prev|, t, j - |prev|);
        }
      }
    }
  }

  /** A shuffle of the built deck keeps its size and its four cards of each blood type. */
  lemma ShuffledDeckCounts(r: RandomStream)
    requires IsUnitStream(r)
    ensures |Shuffled(Unshuffled(), r)| == 24
    ensures forall b: BloodType :: multiset(Values(Shuffled(Unshuffled(), r)))[b] == COPIES
  {
    var u := Unshuffled();
    BuiltUpToLength(|BLOOD_TYPES|);
    BuiltUpToValues(|BLOOD_TYPES|);
    BloodTypesComplete();
    assert BLOOD_TYPES[..|BLOOD_TYPES|] == BLOOD_TYPES;
    ShuffledPermutes(u, r);
    ShuffledMap(u, r, (c: BloodCard) => c.value);
    ShuffledPermutes(Values(u), r);
  }

  /** A shuffle of the built deck keeps every card well named and the ids distinct. */
  lemma ShuffledDeckIds(r: RandomStream)
    requires IsUnitStream(r)
    ensures forall c :: c in Shuffled(Unshuffled(), r) ==> WellNamed(c)
    ensures Distinct(Ids(Shuffled(Unshuffled(), r)))
  {
    var u := Unshuffled();
    var d := Shuffled(u, r);
    BuiltUpToNames(|BLOOD_TYPES|);
    BuiltUpToIds(|BLOOD_TYPES|);
    ShuffledPermutes(u, r);
    forall c | c in d ensures WellNamed(c) {
      assert multiset(d)[c] > 0;
    }
    ShuffledMap(u, r, IdOf);
    ShuffledPermutes(Ids(u), r);
    DistinctIffUnique(Ids(u));
    DistinctIffUnique(Ids(d));
  }

  /**
   * `createInitialDeck`: push four cards per blood type, in `BLOOD_TYPES`
   * order, then shuffle them in place; draw k of `r` is the k-th call of
   * `Math.random()`.
   */
  method CreateInitialDeck(r: RandomStream) returns (deck: seq<BloodCard>)
    requires IsUnitStream(r)
    ensures deck == Shuffled(Unshuffled(), r)
    ensures |deck| == 24
    ensures forall b: BloodType :: multiset(Values(deck))[b] == COPIES
    ensures forall c :: c in deck ==> WellNamed(c)
    ensures Distinct(Ids(deck))
  {
    var built: seq<BloodCard> := [];
    var t := 0;
    while t < |BLOOD_TYPES|
      invariant 0 <= t <= |BLOOD_TYPES|
      invariant built == BuiltUpTo(t)
    {
      var ty := BLOOD_TYPES[t];
      var i := 0;
      while i < COPIES
        invariant 0 <= i <= COPIES
        invariant built == BuiltUpTo(t) + Group(ty)[..i]
      {
        built := built + [Blood(CardId(ty, i), ty)];
        i := i + 1;
      }
      assert Group(ty)[..COPIES] == Group(ty);
      t := t + 1;
    }
    deck := ShuffleCopy(built, r);
    ShuffledDeckCounts(r);
    ShuffledDeckIds(r);
  }
}
