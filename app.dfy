/**
 * The game state machine of App.tsx: the state fields held by the component
 * and one method per event handler, each run as one atomic transition.
 */
module App {

  import opened Types
  import opened Seqs
  import opened Shuffle
  import opened Constants
  import opened Board

  /**
   * What a drag carries in its `dataTransfer`; a key that was not set reads
   * as the empty string. The drop position, which the source computes from
   * the cursor and the zone's bounding box, is passed separately.
   */
  datatype DragData = DragData(newCardId: string, newCardValue: BloodType, placedCardId: string)

  /** JavaScript truthiness of a `string | null`: neither null nor empty. */
  predicate IsSet(s: Option<string>)
  {
    s.Some? && s.value != ""
  }

  /** `prev === 1 ? 2 : 1`. */
  function OtherPlayer(p: Player): (q: Player)
    ensures q != p
  {
    if p == 1 then 2 else 1
  }

  /** The id invariant over the two zones, in the order player 1, player 2. */
  ghost predicate ZonesConsistent(master: seq<BloodCard>, deck: seq<BloodCard>, z: map<Player, seq<PlacedCard>>)
    requires 1 in z && 2 in z
  {
    IdsConsistent(master, deck, z[1], z[2])
  }

  /** Placing a pile card in either zone keeps the ids consistent. */
  lemma PlaceInZoneKeepsConsistent(master: seq<BloodCard>, deck: seq<BloodCard>, z: map<Player, seq<PlacedCard>>,
                                   p: Player, id: string, t: BloodType, pos: Position)
    requires 1 in z && 2 in z && ZonesConsistent(master, deck, z) && id in Ids(deck)
    ensures ZonesConsistent(master, WithoutCard(deck, id), z[p := z[p] + [PlacedCard(id, t, pos)]])
  {
    var q := OtherPlayer(p);
    ConsistentSymmetric(master, deck, z[1], z[2]);
    PlaceKeepsConsistent(master, deck, z[p], z[q], id, t, pos);
    var z' := z[p := z[p] + [PlacedCard(id, t, pos)]];
    ConsistentSymmetric(master, WithoutCard(deck, id), z'[1], z'[2]);
  }

  /** Moving a card inside either zone keeps the ids consistent. */
  lemma MoveInZoneKeepsConsistent(master: seq<BloodCard>, deck: seq<BloodCard>, z: map<Player, seq<PlacedCard>>,
                                  p: Player, id: string, pos: Position)
    requires 1 in z && 2 in z && ZonesConsistent(master, deck, z)
    ensures ZonesConsistent(master, deck, z[p := Moved(z[p], id, pos)])
  {
    var q := OtherPlayer(p);
    ConsistentSymmetric(master, deck, z[1], z[2]);
    MoveKeepsConsistent(master, deck, z[p], z[q], id, pos);
    var z' := z[p := Moved(z[p], id, pos)];
    ConsistentSymmetric(master, deck, z'[1], z'[2]);
  }

  /** Returning a placed card of either zone to the pile keeps the ids consistent. */
  lemma ReturnFromZoneKeepsConsistent(master: seq<BloodCard>, deck: seq<BloodCard>, z: map<Player, seq<PlacedCard>>,
                                      p: Player, card: PlacedCard)
    requires 1 in z && 2 in z && ZonesConsistent(master, deck, z) && card in z[p]
    ensures ZonesConsistent(master, deck + [Blood(card.id, card.bloodType)], z[p := WithoutPlaced(z[p], card.id)])
  {
    var q := OtherPlayer(p);
    ConsistentSymmetric(master, deck, z[1], z[2]);
    ReturnKeepsConsistent(master, deck, z[p], z[q], card);
    var z' := z[p := WithoutPlaced(z[p], card.id)];
    ConsistentSymmetric(master, deck + [Blood(card.id, card.bloodType)], z'[1], z'[2]);
  }

  class Game {
    var currentPlayer: Player
    const masterDeck: seq<BloodCard>
    var deck: seq<BloodCard>
    var placedCards: map<Player, seq<PlacedCard>>
    var lines: map<Player, seq<Line>>
    var currentAction: Option<ActionCard>
    var isDrawingLine: bool
    var lineStartCardId: Option<string>

    /** Both zones exist, and each zone's lines form a simple undirected graph. */
    ghost predicate Valid()
      reads this
    {
      1 in placedCards && 2 in placedCards && 1 in lines && 2 in lines &&
      currentPlayer in placedCards && currentPlayer in lines &&
      SimpleLines(lines[1]) && SimpleLines(lines[2])
    }

    /** No card id is in two places at once, and every id comes from the master deck. */
    ghost predicate Consistent()
      reads this
      requires Valid()
    {
      ZonesConsistent(masterDeck, deck, placedCards)
    }

    /** The initial state; `r` supplies the draws of `createInitialDeck`. */
    constructor (r: RandomStream)
      requires IsUnitStream(r)
      ensures Valid() && Consistent()
      ensures masterDeck == Shuffled(Unshuffled(), r) && |masterDeck| == 24
      ensures currentPlayer == 1 && deck == [] && currentAction == None
      ensures placedCards == map[1 := [], 2 := []] && lines == map[1 := [], 2 := []]
      ensures !isDrawingLine && lineStartCardId == None
    {
      var d := CreateInitialDeck(r);
      currentPlayer := 1;
      masterDeck := d;
      deck := [];
      placedCards := map[1 := [], 2 := []];
      lines := map[1 := [], 2 := []];
      currentAction := None;
      isDrawingLine := false;
      lineStartCardId := None;
      new;
      DistinctIffUnique(Ids(d));
      assert Ids([]) == [] && ZoneIds([]) == [];
    }

    /**
     * `handleDrawAction`: unless an action is already showing, draw one of the
     * three actions (draw 0 of `r`) and refill the pile with the master cards
     * that are in neither zone, shuffled with the following draws.
     */
    method HandleDrawAction(r: RandomStream)
      requires Valid() && IsUnitStream(r)
      modifies this
      ensures Valid() && (old(Consistent()) ==> Consistent())
      ensures old(currentAction).Some? ==> unchanged(this)
      ensures old(currentAction).None? ==>
        currentAction.Some? && currentAction.value == Action(ACTION_CARDS[RandomIndex(r(0), |ACTION_CARDS|)]) &&
        deck == Shuffled(Available(masterDeck, PlacedIdSet(placedCards[1], placedCards[2])), Drop(r, 1))
      ensures old(currentAction).None? ==>
        currentAction.Some? && currentAction.value.kind in ACTION_CARDS &&
        multiset(deck) == multiset(Available(masterDeck, PlacedIdSet(placedCards[1], placedCards[2])))
      ensures currentPlayer == old(currentPlayer) && placedCards == old(placedCards) && lines == old(lines)
      ensures isDrawingLine == old(isDrawingLine) && lineStartCardId == old(lineStartCardId)
    {
      if currentAction.Some? {
        return;
      }
      var randomAction := ACTION_CARDS[RandomIndex(r(0), |ACTION_CARDS|)];
      currentAction := Some(Action(randomAction));
      var placedCardIds := PlacedIdSet(placedCards[1], placedCards[2]);
      var availableCards := Available(masterDeck, placedCardIds);
      DropUnit(r, 1);
      deck := ShuffleCopy(availableCards, Drop(r, 1));
      ShuffledPermutes(availableCards, Drop(r, 1));
      if old(Consistent()) {
        DrawKeepsConsistent(masterDeck, old(deck), placedCards[1], placedCards[2], Drop(r, 1));
      }
    }

    /** `handlePassTurn`: hand the turn over and clear the action, the pile and the line gesture. */
    method HandlePassTurn()
      requires Valid()
      modifies this
      ensures Valid() && (old(Consistent()) ==> Consistent())
      ensures currentPlayer == OtherPlayer(old(currentPlayer))
      ensures currentAction == None && deck == [] && !isDrawingLine && lineStartCardId == None
      ensures placedCards == old(placedCards) && lines == old(lines)
    {
      currentPlayer := OtherPlayer(currentPlayer);
      currentAction := None;
      deck := [];
      isDrawingLine := false;
      lineStartCardId := None;
      if old(Consistent()) {
        EmptyPileKeepsConsistent(masterDeck, old(deck), placedCards[1], placedCards[2]);
      }
    }

    /**
     * `handleDrop` on `player`'s zone: ignored unless it is that player's
     * turn; a card dragged from the pile is appended to the zone at `pos` and
     * leaves the pile; a card dragged inside the zone moves to `pos`.
     * Consistency survives when a new card comes from the pile, which is
     * where the interface starts such drags.
     */
    method HandleDrop(player: Player, drag: DragData, pos: Position)
      requires Valid()
      modifies this
      ensures Valid()
      ensures (old(Consistent()) &&
               (player == old(currentPlayer) && drag.newCardId != "" ==> drag.newCardId in Ids(old(deck))))
              ==> Consistent()
      ensures player != old(currentPlayer) ==> unchanged(this)
      ensures player == old(currentPlayer) && drag.newCardId != "" ==>
        placedCards == old(placedCards)[player := old(placedCards[player]) + [PlacedCard(drag.newCardId, drag.newCardValue, pos)]] &&
        deck == WithoutCard(old(deck), drag.newCardId)
      ensures player == old(currentPlayer) && drag.newCardId == "" && drag.placedCardId != "" ==>
        placedCards == old(placedCards)[player := Moved(old(placedCards[player]), drag.placedCardId, pos)] &&
        deck == old(deck)
      ensures drag.newCardId == "" && drag.placedCardId == "" ==> unchanged(this)
      ensures currentPlayer == old(currentPlayer) && lines == old(lines) && currentAction == old(currentAction)
      ensures isDrawingLine == old(isDrawingLine) && lineStartCardId == old(lineStartCardId)
    {
      if player != currentPlayer {
        return;
      }
      if drag.newCardId != "" {
        var newCard := PlacedCard(drag.newCardId, drag.newCardValue, pos);
        placedCards := placedCards[player := placedCards[player] + [newCard]];
        deck := WithoutCard(deck, drag.newCardId);
        if old(Consistent()) && drag.newCardId in Ids(old(deck)) {
          PlaceInZoneKeepsConsistent(masterDeck, old(deck), old(placedCards), player,
                                     drag.newCardId, drag.newCardValue, pos);
        }
      } else if drag.placedCardId != "" {
        placedCards := placedCards[player := Moved(placedCards[player], drag.placedCardId, pos)];
        if old(Consistent()) {
          MoveInZoneKeepsConsistent(masterDeck, deck, old(placedCards), player, drag.placedCardId, pos);
        }
      }
    }

    /**
     * `handleDropInCardZone`: a placed card of the current player dragged
     * back to the pile leaves the zone, joins the end of the pile as a blood
     * card with the same id and value, and takes its lines with it.
     */
    method HandleDropInCardZone(drag: DragData)
      requires Valid()
      modifies this
      ensures Valid() && (old(Consistent()) ==> Consistent())
      ensures (drag.placedCardId == "" || drag.newCardId != "" ||
               drag.placedCardId !in ZoneIds(old(placedCards[currentPlayer])))
              ==> unchanged(this)
      ensures (drag.placedCardId != "" && drag.newCardId == "" &&
               drag.placedCardId in ZoneIds(old(placedCards[currentPlayer])))
              ==>
        var p, id := old(currentPlayer), drag.placedCardId;
        var card := FindPlaced(old(placedCards[p]), id).value;
        card.id == id &&
        placedCards == old(placedCards)[p := WithoutPlaced(old(placedCards[p]), id)] &&
        deck == old(deck) + [Blood(id, card.bloodType)] &&
        lines == old(lines)[p := WithoutIncident(old(lines[p]), id)]
      ensures currentPlayer == old(currentPlayer) && currentAction == old(currentAction)
      ensures isDrawingLine == old(isDrawingLine) && lineStartCardId == old(lineStartCardId)
    {
      var placedCardId := drag.placedCardId;
      var newCardId := drag.newCardId;
      if placedCardId == "" || newCardId != "" {
        return;
      }
      var cardToReturn := FindPlaced(placedCards[currentPlayer], placedCardId);
      if cardToReturn.Some? {
        ghost var k :| FirstWithId(placedCards[currentPlayer], k, placedCardId) && placedCards[currentPlayer][k] == cardToReturn.value;
        ReturnToPile(cardToReturn.value);
      }
    }

    /**
     * The branch of `handleDropInCardZone` that has found `card` in the
     * current player's zone: every entry with its id leaves the zone, a blood
     * card with the same id and value joins the end of the pile, and the
     * lines of that zone that touch the id go.
     */
    method ReturnToPile(card: PlacedCard)
      requires Valid() && card in placedCards[currentPlayer]
      modifies this
      ensures Valid() && (old(Consistent()) ==> Consistent())
      ensures placedCards == old(placedCards)[currentPlayer := WithoutPlaced(old(placedCards[currentPlayer]), card.id)]
      ensures deck == old(deck) + [Blood(card.id, card.bloodType)]
      ensures lines == old(lines)[currentPlayer := WithoutIncident(old(lines[currentPlayer]), card.id)]
      ensures currentPlayer == old(currentPlayer) && currentAction == old(currentAction)
      ensures isDrawingLine == old(isDrawingLine) && lineStartCardId == old(lineStartCardId)
    {
      var p := currentPlayer;
      placedCards := placedCards[p := WithoutPlaced(placedCards[p], card.id)];
      var newDeckCard: BloodCard := Blood(card.id, card.bloodType);
      deck := deck + [newDeckCard];
      WithoutIncidentKeepsSimple(lines[p], card.id);
      lines := lines[p := WithoutIncident(lines[p], card.id)];
      if old(Consistent()) {
        ReturnFromZoneKeepsConsistent(masterDeck, old(deck), old(placedCards), p, card);
      }
    }

    /** `toggleLineDrawing`: flip line mode and forget any pending first end. */
    method ToggleLineDrawing()
      requires Valid()
      modifies this
      ensures Valid() && (old(Consistent()) ==> Consistent())
      ensures isDrawingLine == !old(isDrawingLine) && lineStartCardId == None
      ensures currentPlayer == old(currentPlayer) && deck == old(deck) && placedCards == old(placedCards)
      ensures lines == old(lines) && currentAction == old(currentAction)
    {
      isDrawingLine := !isDrawingLine;
      lineStartCardId := None;
    }

    /**
     * `handleCardClickForLine`: in line mode and on one's own turn, the first
     * click picks an end; a second click on the same card cancels; a second
     * click on another card toggles the line between the two; either second
     * click clears the pending end.
     */
    method HandleCardClickForLine(cardId: string, player: Player)
      requires Valid()
      modifies this
      ensures Valid() && (old(Consistent()) ==> Consistent())
      ensures !old(isDrawingLine) || player != old(currentPlayer) ==> unchanged(this)
      ensures old(isDrawingLine) && player == old(currentPlayer) && !IsSet(old(lineStartCardId)) ==>
        lineStartCardId == Some(cardId) && lines == old(lines)
      ensures old(isDrawingLine) && player == old(currentPlayer) && IsSet(old(lineStartCardId)) ==>
        lineStartCardId == None &&
        lines == if old(lineStartCardId).value == cardId then old(lines)
                 else old(lines)[player := ToggleEdge(old(lines[player]), old(lineStartCardId).value, cardId)]
      ensures currentPlayer == old(currentPlayer) && deck == old(deck) && placedCards == old(placedCards)
      ensures currentAction == old(currentAction) && isDrawingLine == old(isDrawingLine)
    {
      if !isDrawingLine || player != currentPlayer {
        return;
      }
      if !IsSet(lineStartCardId) {
        lineStartCardId := Some(cardId);
      } else {
        var start := lineStartCardId.value;
        if start != cardId {
          ToggleEdgeKeepsSimple(lines[player], start, cardId);
          lines := lines[player := ToggleEdge(lines[player], start, cardId)];
        }
        lineStartCardId := None;
      }
    }
  }

  /**
   * The pending first end of a line is not cleared when that card goes back
   * to the pile, so the next click links a card that is no longer placed.
   */
  method ReturnDuringLineGesture(g: Game, a: string, b: string)
    requires g.Valid() && g.isDrawingLine && !IsSet(g.lineStartCardId)
    requires a != "" && a != b && a in ZoneIds(g.placedCards[g.currentPlayer])
    requires !LineExists(g.lines[g.currentPlayer], a, b)
    modifies g
    ensures g.Valid()
    ensures a !in ZoneIds(g.placedCards[g.currentPlayer])
    ensures LineExists(g.lines[g.currentPlayer], a, b)
  {
    var p := g.currentPlayer;
    g.HandleCardClickForLine(a, p);
    g.HandleDropInCardZone(DragData("", AA, a));
    ZoneIdsWithoutPlaced(old(g.placedCards[p]), a);
    assert a !in multiset(ZoneIds(g.placedCards[p]));
    assert !LineExists(g.lines[p], a, b);
    g.HandleCardClickForLine(b, p);
    assert Line(a, b) in g.lines[p];
  }
}
