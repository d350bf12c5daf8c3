/**
 * The pure steps inside the App.tsx handlers: the `filter`, `map`, `find`
 * and `some` calls over the draw pile, a zone's placed cards and a zone's
 * lines, and the id bookkeeping that the handlers keep consistent.
 */
module Board {

  import opened Types
  import opened Seqs
  import opened Shuffle

  // ---------------------------------------------------------------- placed cards

  /** `card.id` of a placed card. */
  function PlacedIdOf(card: PlacedCard): string
  {
    card.id
  }

  /** The ids of a zone's placed cards, in order (`zone.map(c => c.id)`). */
  function ZoneIds(zone: seq<PlacedCard>): seq<string>
  {
    Map(zone, PlacedIdOf)
  }

  /** `placedCardIds`: the ids placed in either zone. */
  function PlacedIdSet(zone1: seq<PlacedCard>, zone2: seq<PlacedCard>): set<string>
  {
    set x | x in ZoneIds(zone1) + ZoneIds(zone2)
  }

  /** `availableCards`: the master deck without the cards whose id is placed, in master order. */
  function Available(master: seq<BloodCard>, placed: set<string>): (avail: seq<BloodCard>)
    ensures forall c: BloodCard :: c in avail <==> c in master && c.id !in placed
    ensures forall c: BloodCard :: multiset(avail)[c] == if c.id in placed then 0 else multiset(master)[c]
  {
    FilterCounts(master, (c: BloodCard) => c.id !in placed);
    Filter(master, (c: BloodCard) => c.id !in placed)
  }

  /** `deck.filter(card => card.id !== id)`. */
  function WithoutCard(deck: seq<BloodCard>, id: string): (rest: seq<BloodCard>)
    ensures forall c: BloodCard :: c in rest <==> c in deck && c.id != id
    ensures forall c: BloodCard :: multiset(rest)[c] == if c.id == id then 0 else multiset(deck)[c]
  {
    FilterCounts(deck, (c: BloodCard) => c.id != id);
    Filter(deck, (c: BloodCard) => c.id != id)
  }

  /** `zone.filter(c => c.id !== id)`. */
  function WithoutPlaced(zone: seq<PlacedCard>, id: string): (rest: seq<PlacedCard>)
    ensures forall c :: c in rest <==> c in zone && c.id != id
    ensures forall c :: multiset(rest)[c] == if c.id == id then 0 else multiset(zone)[c]
  {
    FilterCounts(zone, (c: PlacedCard) => c.id != id);
    Filter(zone, (c: PlacedCard) => c.id != id)
  }

  /** `zone.map(card => card.id === id ? {...card, position} : card)`. */
  function Moved(zone: seq<PlacedCard>, id: string, pos: Position): (moved: seq<PlacedCard>)
    ensures |moved| == |zone|
    ensures forall k :: 0 <= k < |zone| ==>
      moved[k].id == zone[k].id && moved[k].bloodType == zone[k].bloodType &&
      moved[k].position == if zone[k].id == id then pos else zone[k].position
  {
    Map(zone, (c: PlacedCard) => if c.id == id then c.(position := pos) else c)
  }

  /** Moving never changes which ids a zone holds, nor their order. */
  lemma MovedKeepsIds(zone: seq<PlacedCard>, id: string, pos: Position)
    ensures ZoneIds(Moved(zone, id, pos)) == ZoneIds(zone)
  {
  }

  /** Moving an id the zone does not hold leaves the zone exactly as it was. */
  lemma MovedAbsent(zone: seq<PlacedCard>, id: string, pos: Position)
    requires id !in ZoneIds(zone)
    ensures Moved(zone, id, pos) == zone
  {
    forall k | 0 <= k < |zone| ensures Moved(zone, id, pos)[k] == zone[k] {
      assert ZoneIds(zone)[k] == zone[k].id;
    }
  }

  /** Of two moves of the same card only the last one counts. */
  lemma MovedTwice(zone: seq<PlacedCard>, id: string, p: Position, q: Position)
    ensures Moved(Moved(zone, id, p), id, q) == Moved(zone, id, q)
  {
  }

  /** Position `k` holds the first card of the zone with that id. */
  predicate FirstWithId(zone: seq<PlacedCard>, k: int, id: string)
  {
    0 <= k < |zone| && zone[k].id == id && forall m :: 0 <= m < k ==> zone[m].id != id
  }

  /** `zone.find(c => c.id === id)`: the first card of the zone with that id. */
  function FindPlaced(zone: seq<PlacedCard>, id: string): (found: Option<PlacedCard>)
    ensures found.None? <==> id !in ZoneIds(zone)
    ensures found.Some? ==> exists k :: FirstWithId(zone, k, id) && zone[k] == found.value
    decreases |zone|
  {
    if zone == [] then None
    else if zone[0].id == id then
      assert FirstWithId(zone, 0, id);
      Some(zone[0])
    else
      var found := FindPlaced(zone[1..], id);
      assert ZoneIds(zone) == [zone[0].id] + ZoneIds(zone[1..]);
      if found.Some? then
        var k :| FirstWithId(zone[1..], k, id) && zone[1..][k] == found.value;
        assert FirstWithId(zone, k + 1, id) by {
          forall m | 0 <= m < k + 1 ensures zone[m].id != id {
            if m > 0 {
              assert zone[m] == zone[1..][m - 1];
            }
          }
        }
        assert zone[k + 1] == found.value;
        found
      else found
  }

  // ----------------------------------------------------------------------- lines

  /** The line joins `a` and `b`, in either orientation. */
  predicate Joins(l: Line, a: string, b: string)
  {
    (l.from == a && l.to == b) || (l.from == b && l.to == a)
  }

  /** The line has `id` as one of its ends. */
  predicate Touches(l: Line, id: string)
  {
    l.from == id || l.to == id
  }

  /** `lines.some(...)`: some line joins `a` and `b`. */
  predicate LineExists(lines: seq<Line>, a: string, b: string)
  {
    exists l :: l in lines && Joins(l, a, b)
  }

  /** `lines.filter(line => !(...))`: the lines that do not join `a` and `b`. */
  function WithoutEdge(lines: seq<Line>, a: string, b: string): (rest: seq<Line>)
    ensures forall l :: l in rest <==> l in lines && !Joins(l, a, b)
  {
    Filter(lines, (l: Line) => !Joins(l, a, b))
  }

  /** The second click of a line gesture with two different ends: remove the edge if present, else add it. */
  function ToggleEdge(lines: seq<Line>, a: string, b: string): seq<Line>
  {
    if LineExists(lines, a, b) then WithoutEdge(lines, a, b) else lines + [Line(a, b)]
  }

  /** `lines.filter(line => line.from !== id && line.to !== id)`. */
  function WithoutIncident(lines: seq<Line>, id: string): (rest: seq<Line>)
    ensures forall l :: l in rest <==> l in lines && !Touches(l, id)
  {
    Filter(lines, (l: Line) => !Touches(l, id))
  }

  /** The lines that end at `id`. */
  function Incident(lines: seq<Line>, id: string): (touching: seq<Line>)
    ensures forall l :: l in touching <==> l in lines && Touches(l, id)
  {
    Filter(lines, (l: Line) => Touches(l, id))
  }

  /** `m` links the same two cards as `l`. */
  predicate Parallel(l: Line, m: Line)
  {
    Joins(m, l.from, l.to)
  }

  predicate NotParallel(l: Line, m: Line)
  {
    !Parallel(l, m)
  }

  /** A zone's lines form a simple undirected graph: no self-loop and at most one line per pair. */
  ghost predicate SimpleLines(lines: seq<Line>)
  {
    (forall l :: l in lines ==> l.from != l.to) && Pairwise(lines, NotParallel)
  }

  /** Toggling an edge between two different cards flips exactly that edge and no other. */
  lemma ToggleEdgeSemantics(lines: seq<Line>, a: string, b: string, x: string, y: string)
    requires a != b
    ensures LineExists(ToggleEdge(lines, a, b), x, y) <==>
      if Joins(Line(a, b), x, y) then !LineExists(lines, a, b) else LineExists(lines, x, y)
  {
    var t := ToggleEdge(lines, a, b);
    if !LineExists(lines, a, b) && Joins(Line(a, b), x, y) {
      assert Line(a, b) in t;
    }
  }

  /** Toggling an edge between two different cards keeps the graph simple. */
  lemma ToggleEdgeKeepsSimple(lines: seq<Line>, a: string, b: string)
    requires SimpleLines(lines) && a != b
    ensures SimpleLines(ToggleEdge(lines, a, b))
  {
    if LineExists(lines, a, b) {
      FilterKeepsPairwise(lines, (l: Line) => !Joins(l, a, b), NotParallel);
    } else {
      var t := lines + [Line(a, b)];
      forall i, j | 0 <= i < j < |t| ensures NotParallel(t[i], t[j]) {
        if j < |lines| {
          assert t[i] == lines[i] && t[j] == lines[j];
        } else {
          assert t[i] in lines;
        }
      }
    }
  }

  /** Removing the edge just appended between `a` and `b`, named in either orientation, gives back the old lines. */
  lemma WithoutAddedEdge(lines: seq<Line>, a: string, b: string, x: string, y: string)
    requires !LineExists(lines, a, b) && Joins(Line(a, b), x, y)
    ensures WithoutEdge(lines + [Line(a, b)], x, y) == lines
  {
    var p := (l: Line) => !Joins(l, x, y);
    FilterConcat(lines, [Line(a, b)], p);
    assert forall l :: l in lines ==> p(l);
    FilterAll(lines, p);
    assert Filter([Line(a, b)], p) == [];
  }

  /** Adding an absent edge and then clicking its ends again, in either order, gives back the same lines. */
  lemma ToggleEdgeTwice(lines: seq<Line>, a: string, b: string)
    requires a != b && !LineExists(lines, a, b)
    ensures ToggleEdge(ToggleEdge(lines, a, b), a, b) == lines
    ensures ToggleEdge(ToggleEdge(lines, a, b), b, a) == lines
  {
    var t := lines + [Line(a, b)];
    assert ToggleEdge(lines, a, b) == t;
    assert Line(a, b) in t;
    assert LineExists(t, a, b) && LineExists(t, b, a);
    WithoutAddedEdge(lines, a, b, a, b);
    WithoutAddedEdge(lines, a, b, b, a);
  }

  /** Two toggles of the same pair, in either order, restore which pairs are linked. */
  lemma ToggleEdgeTwiceLinks(lines: seq<Line>, a: string, b: string, x: string, y: string)
    requires a != b
    ensures LineExists(ToggleEdge(ToggleEdge(lines, a, b), b, a), x, y) <==> LineExists(lines, x, y)
  {
    ToggleEdgeSemantics(lines, a, b, x, y);
    ToggleEdgeSemantics(ToggleEdge(lines, a, b), b, a, x, y);
    ToggleEdgeSemantics(lines, a, b, a, b);
    ToggleEdgeSemantics(lines, a, b, b, a);
  }

  /**
   * Returning a card removes exactly its incident lines: what is kept and
   * what is removed together are the old lines, and what is removed is the
   * lines that touch the id.
   */
  lemma WithoutIncidentSplits(lines: seq<Line>, id: string)
    ensures multiset(WithoutIncident(lines, id)) + multiset(Incident(lines, id)) == multiset(lines)
    ensures |lines| - |WithoutIncident(lines, id)| == |Incident(lines, id)|
  {
    FilterPartition(lines, (l: Line) => !Touches(l, id), (l: Line) => Touches(l, id));
  }

  /** Removing a card's lines keeps the order of the others and drops nothing from a part that does not touch it. */
  lemma WithoutIncidentKeepsOrder(front: seq<Line>, back: seq<Line>, id: string)
    requires forall l :: l in front ==> !Touches(l, id)
    ensures WithoutIncident(front + back, id) == front + WithoutIncident(back, id)
  {
    FilterConcat(front, back, (l: Line) => !Touches(l, id));
    FilterAll(front, (l: Line) => !Touches(l, id));
  }

  /** Removing a card's lines keeps the graph simple. */
  lemma WithoutIncidentKeepsSimple(lines: seq<Line>, id: string)
    requires SimpleLines(lines)
    ensures SimpleLines(WithoutIncident(lines, id))
  {
    FilterKeepsPairwise(lines, (l: Line) => !Touches(l, id), NotParallel);
  }

  // ------------------------------------------------------------- id bookkeeping

  /**
   * The ids of the draw pile and of both zones, taken together, are ids of
   * the master deck, each used at most as often as there: since the master
   * ids are unique, no id is in two places at once.
   */
  ghost predicate IdsConsistent(master: seq<BloodCard>, deck: seq<BloodCard>, zone: seq<PlacedCard>, other: seq<PlacedCard>)
  {
    Unique(Ids(master)) &&
    multiset(Ids(deck)) + multiset(ZoneIds(zone)) + multiset(ZoneIds(other)) <= multiset(Ids(master))
  }

  /** What consistency means, place by place. */
  lemma ConsistentMeansDisjoint(master: seq<BloodCard>, deck: seq<BloodCard>, zone: seq<PlacedCard>, other: seq<PlacedCard>)
    requires IdsConsistent(master, deck, zone, other)
    ensures forall x :: x in Ids(deck) ==> x !in ZoneIds(zone) && x !in ZoneIds(other)
    ensures forall x :: x in ZoneIds(zone) ==> x !in ZoneIds(other)
    ensures forall x :: x in Ids(deck) || x in ZoneIds(zone) || x in ZoneIds(other) ==> x in Ids(master)
    ensures Distinct(Ids(deck)) && Distinct(ZoneIds(zone)) && Distinct(ZoneIds(other))
  {
    var m := multiset(Ids(master));
    var d, z, o := multiset(Ids(deck)), multiset(ZoneIds(zone)), multiset(ZoneIds(other));
    forall x ensures d[x] + z[x] + o[x] <= m[x] <= 1 {
      assert (d + z + o)[x] <= m[x];
    }
    forall x | x in Ids(deck) || x in ZoneIds(zone) || x in ZoneIds(other)
      ensures x in Ids(master)
      ensures x in Ids(deck) ==> x !in ZoneIds(zone) && x !in ZoneIds(other)
      ensures x in ZoneIds(zone) ==> x !in ZoneIds(other)
    {
      assert x in Ids(deck) <==> x in d;
      assert x in ZoneIds(zone) <==> x in z;
      assert x in ZoneIds(other) <==> x in o;
      assert x in m;
    }
    DistinctIffUnique(Ids(deck));
    DistinctIffUnique(ZoneIds(zone));
    DistinctIffUnique(ZoneIds(other));
  }

  /** The two zones play symmetric roles. */
  lemma ConsistentSymmetric(master: seq<BloodCard>, deck: seq<BloodCard>, zone: seq<PlacedCard>, other: seq<PlacedCard>)
    ensures IdsConsistent(master, deck, zone, other) <==> IdsConsistent(master, deck, other, zone)
  {
    var d, z, o := multiset(Ids(deck)), multiset(ZoneIds(zone)), multiset(ZoneIds(other));
    assert d + z + o == d + o + z;
  }

  /** Drawing an action rebuilds the pile from the unplaced master cards; any shuffle of it keeps consistency. */
  lemma DrawKeepsConsistent(master: seq<BloodCard>, deck: seq<BloodCard>, zone: seq<PlacedCard>, other: seq<PlacedCard>, r: RandomStream)
    requires IdsConsistent(master, deck, zone, other) && IsUnitStream(r)
    ensures IdsConsistent(master, Shuffled(Available(master, PlacedIdSet(zone, other)), r), zone, other)
  {
    var placed := PlacedIdSet(zone, other);
    var avail := Available(master, placed);
    var pile := Shuffled(avail, r);
    ShuffledMap(avail, r, IdOf);
    ShuffledPermutes(Ids(avail), r);
    var q := (x: string) => x !in placed;
    MapFilter(master, (c: BloodCard) => c.id !in placed, IdOf, q);
    FilterCounts(Ids(master), q);
    var m := multiset(Ids(master));
    var d, z, o := multiset(Ids(deck)), multiset(ZoneIds(zone)), multiset(ZoneIds(other));
    var d' := multiset(Ids(pile));
    assert forall x :: d'[x] == if x in placed then 0 else m[x];
    forall x ensures d'[x] + z[x] + o[x] <= m[x] {
      assert d[x] + z[x] + o[x] <= m[x];
      if x !in placed {
        assert x !in ZoneIds(zone) && x !in ZoneIds(other);
      }
    }
  }

  /** Removing a card from the pile removes every copy of its id and no other id. */
  lemma IdsWithoutCard(deck: seq<BloodCard>, id: string)
    ensures forall x :: multiset(Ids(WithoutCard(deck, id)))[x] == if x == id then 0 else multiset(Ids(deck))[x]
  {
    var q := (x: string) => x != id;
    MapFilter(deck, (c: BloodCard) => c.id != id, IdOf, q);
    FilterCounts(Ids(deck), q);
  }

  /** Removing a card from a zone removes every copy of its id and no other id. */
  lemma ZoneIdsWithoutPlaced(zone: seq<PlacedCard>, id: string)
    ensures forall x :: multiset(ZoneIds(WithoutPlaced(zone, id)))[x] == if x == id then 0 else multiset(ZoneIds(zone))[x]
  {
    var q := (x: string) => x != id;
    MapFilter(zone, (c: PlacedCard) => c.id != id, PlacedIdOf, q);
    FilterCounts(ZoneIds(zone), q);
  }

  /** Moving one id between two of three bags, without raising its total, keeps them inside `m`. */
  lemma MoveOneId(d: multiset<string>, z: multiset<string>, o: multiset<string>, m: multiset<string>,
                  d': multiset<string>, z': multiset<string>, id: string)
    requires d + z + o <= m
    requires forall x :: x != id ==> d'[x] == d[x] && z'[x] == z[x]
    requires d'[id] + z'[id] <= d[id] + z[id]
    ensures d' + z' + o <= m
  {
    forall x ensures (d' + z' + o)[x] <= m[x] {
      assert (d + z + o)[x] <= m[x];
    }
  }

  /** Placing a card from the pile moves its id from the pile to the zone, if the id was in the pile. */
  lemma PlaceKeepsConsistent(master: seq<BloodCard>, deck: seq<BloodCard>, zone: seq<PlacedCard>, other: seq<PlacedCard>,
                             id: string, t: BloodType, pos: Position)
    requires IdsConsistent(master, deck, zone, other) && id in Ids(deck)
    ensures IdsConsistent(master, WithoutCard(deck, id), zone + [PlacedCard(id, t, pos)], other)
  {
    var z := multiset(ZoneIds(zone));
    IdsWithoutCard(deck, id);
    MapConcat(zone, [PlacedCard(id, t, pos)], PlacedIdOf);
    assert ZoneIds([PlacedCard(id, t, pos)]) == [id];
    var z' := multiset(ZoneIds(zone + [PlacedCard(id, t, pos)]));
    assert z' == z + multiset{id};
    assert multiset(Ids(deck))[id] >= 1;
    MoveOneId(multiset(Ids(deck)), z, multiset(ZoneIds(other)), multiset(Ids(master)),
              multiset(Ids(WithoutCard(deck, id))), z', id);
  }

  /** Moving a card changes no id. */
  lemma MoveKeepsConsistent(master: seq<BloodCard>, deck: seq<BloodCard>, zone: seq<PlacedCard>, other: seq<PlacedCard>,
                            id: string, pos: Position)
    requires IdsConsistent(master, deck, zone, other)
    ensures IdsConsistent(master, deck, Moved(zone, id, pos), other)
  {
    MovedKeepsIds(zone, id, pos);
  }

  /** Returning a placed card moves its id from the zone back to the pile. */
  lemma ReturnKeepsConsistent(master: seq<BloodCard>, deck: seq<BloodCard>, zone: seq<PlacedCard>, other: seq<PlacedCard>,
                              card: PlacedCard)
    requires IdsConsistent(master, deck, zone, other) && card in zone
    ensures IdsConsistent(master, deck + [Blood(card.id, card.bloodType)], WithoutPlaced(zone, card.id), other)
  {
    var id := card.id;
    var back: BloodCard := Blood(id, card.bloodType);
    var d := multiset(Ids(deck));
    ZoneIdsWithoutPlaced(zone, id);
    MapConcat(deck, [back], IdOf);
    assert Ids([back]) == [id];
    var d' := multiset(Ids(deck + [back]));
    assert d' == d + multiset{id};
    assert id in ZoneIds(zone) by {
      var k :| 0 <= k < |zone| && zone[k] == card;
      assert ZoneIds(zone)[k] == id;
    }
    assert multiset(ZoneIds(zone))[id] >= 1;
    MoveOneId(d, multiset(ZoneIds(zone)), multiset(ZoneIds(other)), multiset(Ids(master)),
              d', multiset(ZoneIds(WithoutPlaced(zone, id))), id);
  }

  /** Emptying the pile keeps consistency. */
  lemma EmptyPileKeepsConsistent(master: seq<BloodCard>, deck: seq<BloodCard>, zone: seq<PlacedCard>, other: seq<PlacedCard>)
    requires IdsConsistent(master, deck, zone, other)
    ensures IdsConsistent(master, [], zone, other)
  {
    assert Ids([]) == [];
  }
}
