# Blood-type card game: a verified model of its game logic

This is a model of the two-player blood-type card game, written in Dafny and
checked by its verifier. It covers three parts of the game:

- The card types (`types.ts`): six blood types, three action cards, blood and
  action cards, cards placed at a position in a player's zone, and lines
  between placed cards.
- The construction of the initial 24-card deck (`constants.ts`): four cards
  of each blood type, named `${type}-${i}`, then an in-place Fisher-Yates
  shuffle.
- The game state machine of the main component (`App.tsx`): whose turn it
  is, the fixed master deck, the draw pile, each player's placed cards and
  lines, the drawn action and the line-drawing gesture. Each event handler
  is one method of the class `App.Game`.

Files:

- `types.dfy` (`Types`): the data types.
- `seqs.dfy` (`Seqs`): `filter`, `map` and duplicate checks over sequences.
- `shuffle.dfy` (`Shuffle`):
  - `Math.random()` calls, modelled as a stream of reals in `[0, 1)`;
  - `Math.floor(u * n)`;
  - the Fisher-Yates loop, on an array and as a function over sequences.
- `constants.dfy` (`Constants`): `BLOOD_TYPES`, `ACTION_CARDS` and the
  nested loops of `createInitialDeck`.
- `board.dfy` (`Board`): the pure steps inside the handlers:
  - the placed-id set and the available cards;
  - removing from the pile or a zone, moving a card, finding a card;
  - toggling an undirected line and dropping a card's lines;
  - the id-consistency invariant and the lemmas that each step keeps it.
- `app.dfy` (`App`): the `Game` class: its fields, its invariants `Valid`
  and `Consistent`, and one method per handler.

A player's lines are proved to form a simple undirected graph (`SimpleLines`):

- no line joins a card to itself;
- no two lines join the same unordered pair.

Every handler keeps this. The id invariant (`Consistent`) says:

- every id in the pile or in a zone comes from the master deck;
- no id is in two places at once.

Every handler keeps it, on condition that a newly placed card comes from the
pile. The handler does not check this. The interface guarantees it, because
only pile cards can be dragged as new cards.

The data types of `types.ts` map to Dafny types as follows:

| type | source | Dafny |
|---|---|---|
| `BloodType` | types.ts:2 | `Types.BloodType`, six constructors; `Code()` gives the string value |
| `ActionType` | types.ts:3 | `Types.ActionType`: `Marriage`, `Death`, `Birth` for the three Korean strings |
| `BloodCard` | types.ts:5-9 | `Types.Card.Blood(id, value)`, and the subtype `Types.BloodCard` |
| `ActionCard` | types.ts:11-14 | `Types.Card.Action(kind)`, and the subtype `Types.ActionCard`; the field `value` is named `kind`, because a Dafny field name cannot have two types |
| `Card` | types.ts:16 | `Types.Card`, whose constructor is the `type` tag |
| `PlacedCard` | types.ts:18-22 | `Types.PlacedCard(id, bloodType, position)` with `Types.Position(x, y)` over reals |
| `Line` | types.ts:24-27 | `Types.Line(from, to)` |

## Model

| member | source | states |
|---|---|---|
| Types.BloodType.Code | types.ts:2 | every blood type is a two-letter code over A, B and O |
| Types.CodeInjective | types.ts:2 | two blood types have the same code exactly when they are the same type |
| Types.Ids | App.tsx:29 | defines the ids of a list of blood cards as `cards.map(c => c.id)`, the ids that `filter` at App.tsx:29 and App.tsx:84 compares |
| Constants.BloodTypesComplete | constants.ts:4 | `BLOOD_TYPES` has six distinct entries and lists every blood type |
| Constants.ActionCardsComplete | constants.ts:5 | `ACTION_CARDS` has three distinct entries and lists every action type |
| Constants.CardId | constants.ts:11 | defines the template `${type}-${i}` for a one-digit `i`: the type's code, a dash and the copy digit |
| Constants.CardIdInjective | constants.ts:11 | two ids are equal exactly when both the type and the copy number are equal |
| Constants.Group | constants.ts:10-12 | defines the four cards the inner `for` loop pushes for one blood type |
| Constants.BuiltUpTo | constants.ts:9-13 | defines the list the `forEach` loop has built after its first `n` blood types |
| Constants.BuiltUpToLength | constants.ts:9-13 | after the outer loop has handled `n` types, the list holds `4 * n` cards |
| Constants.BuiltUpToValues | constants.ts:9-13 | after `n` types, each of those types is the value of exactly four cards, and every other type of none |
| Constants.BuiltUpToNames | constants.ts:10-11 | every built card is named `${type}-${i}` with `i < 4`, and its value is one of the handled types |
| Constants.BuiltUpToIds | constants.ts:10-11 | the built cards have pairwise distinct ids |
| Constants.ShuffledDeckCounts | constants.ts:15-19 | the shuffled deck has 24 cards, four of each blood type |
| Constants.ShuffledDeckIds | constants.ts:15-19 | after the shuffle, every card is still well named and the ids are still distinct |
| Constants.CreateInitialDeck | constants.ts:7-20 | the nested loops and the in-place shuffle return the shuffle of the built list: 24 blood cards, four of each type, well named, with distinct ids |
| Shuffle.DropUnit | constants.ts:16 | the draws left after the first `n` are still in `[0, 1)` |
| Shuffle.RandomIndex | constants.ts:16 | `Math.floor(u * n)` for a draw `u` in `[0, 1)` is an index below `n` |
| Shuffle.Swap | constants.ts:17 | defines the destructuring swap `[s[i], s[j]] = [s[j], s[i]]` |
| Shuffle.SwapPermutes | constants.ts:17 | a swap only reorders: it keeps the length and the multiset of elements |
| Shuffle.Picks | constants.ts:15-16 | the loop over `n` elements draws one index per step; step `i` draws `Math.floor(u * (i + 1))`, so an index in `[0, i]` |
| Shuffle.ShuffleFrom | constants.ts:15-18 | defines the descending swap loop from index `i` down to 1, step `k` swapping `k` with the index drawn for it |
| Shuffle.Shuffled | App.tsx:32-35 | defines the whole loop over a list with the draws of `r`, as both constants.ts:15-18 and App.tsx:32-35 run it |
| Shuffle.ShuffleFromPermutes | constants.ts:15-18 | for any choice of in-range swap indices, the loop keeps the length and the multiset of elements |
| Shuffle.MapSwap | constants.ts:17 | applying a function to each element commutes with a swap |
| Shuffle.ShuffledPermutes | constants.ts:15-18 | the shuffled sequence is a permutation of its input |
| Shuffle.ShuffleFromMap | constants.ts:15-18 | for any in-range swap indices, the loop only moves elements, so it commutes with mapping a function over them |
| Shuffle.ShuffledMap | App.tsx:32-35 | shuffling, then taking ids or values, equals taking them, then shuffling |
| Shuffle.ShuffleInPlace | constants.ts:15-18 | the in-place array loop leaves the array holding the shuffle of its old contents |
| Shuffle.ShuffleCopy | App.tsx:29-37 | copying a list into an array and shuffling it in place yields the shuffle of the list |
| Seqs.Filter | App.tsx:29 | `filter` keeps exactly the elements that pass, and is never longer than its input |
| Seqs.FilterCounts | App.tsx:29 | `filter` keeps each passing element exactly as often as the input holds it, and drops every other |
| Seqs.FilterConcat | App.tsx:125 | filtering splits over concatenation, so the kept elements stay in order |
| Seqs.FilterAll | App.tsx:125 | filtering a list whose elements all pass changes nothing |
| Seqs.FilterPartition | App.tsx:125 | a filter and its negation together hold the input, element for element |
| Seqs.FilterKeepsPairwise | App.tsx:149-151 | a property that holds between all earlier and later elements survives filtering |
| Seqs.DistinctIffUnique | constants.ts:11 | "no value at two positions" and "no value counted twice" are the same |
| Board.ZoneIds | App.tsx:25-26 | defines a zone's ids as `placedCards[p].map(c => c.id)` |
| Board.PlacedIdSet | App.tsx:24-27 | defines `placedCardIds` as the set of the ids of both zones |
| Board.Available | App.tsx:29 | the available cards are exactly the master cards whose id is not placed, with their multiplicities |
| Board.WithoutCard | App.tsx:84 | after placing a card, the pile keeps exactly the cards with another id |
| Board.WithoutPlaced | App.tsx:113 | returning a card drops exactly the zone's entries with that id |
| Board.Moved | App.tsx:93-95 | a move keeps length, order, ids and blood types, and changes only the position of entries with that id |
| Board.MovedKeepsIds | App.tsx:93-95 | a move keeps the zone's id list |
| Board.MovedAbsent | App.tsx:93-95 | moving an id that is not in the zone changes nothing |
| Board.MovedTwice | App.tsx:93-95 | the second of two moves of the same id overrides the first |
| Board.FindPlaced | App.tsx:108 | `find` fails exactly when the id is not in the zone, and otherwise returns the first entry with that id |
| Board.WithoutEdge | App.tsx:149-151 | removing an edge keeps exactly the lines that do not join the two ids in either orientation |
| Board.WithoutIncident | App.tsx:125 | dropping a card's lines keeps exactly the lines that touch it at neither end |
| Board.Incident | App.tsx:125 | the lines that touch a card at either end |
| Board.LineExists | App.tsx:143-145 | defines `lines[player].some(...)`: some line joins the two ids in either orientation |
| Board.ToggleEdge | App.tsx:142-158 | defines the `lineExists` branch: remove the edge if some line joins the pair, otherwise append `{from, to}` |
| Board.ToggleEdgeSemantics | App.tsx:143-157 | after a toggle of a distinct pair, that pair is linked exactly when it was not, and every other pair is unchanged |
| Board.ToggleEdgeKeepsSimple | App.tsx:143-157 | a toggle of a distinct pair keeps the lines free of self-loops and of duplicate undirected edges |
| Board.WithoutAddedEdge | App.tsx:149-156 | removing an edge that was just appended, in either orientation, restores the old lines |
| Board.ToggleEdgeTwice | App.tsx:143-157 | toggling a new pair twice, in either orientation, restores the lines exactly |
| Board.ToggleEdgeTwiceLinks | App.tsx:143-157 | toggling a pair and then its reverse restores which pairs are linked |
| Board.WithoutIncidentSplits | App.tsx:125 | the lines kept and the incident lines dropped together are the old lines |
| Board.WithoutIncidentKeepsOrder | App.tsx:125 | lines that do not touch the card keep their order and are all kept |
| Board.WithoutIncidentKeepsSimple | App.tsx:125 | dropping a card's lines keeps the graph simple |
| Board.ConsistentMeansDisjoint | App.tsx:29 | under the id invariant, no id is in both pile and a zone or in both zones, every id comes from the master deck, and no place repeats an id |
| Board.ConsistentSymmetric | App.tsx:11 | the id invariant does not depend on which zone is named first |
| Seqs.MapFilter | App.tsx:29 | when `p(x) == q(f(x))` everywhere, filtering by `p` and then mapping `f` equals mapping `f` and then filtering by `q`; so taking ids commutes with the id filters of App.tsx:29, App.tsx:84 and App.tsx:113 |
| Board.DrawKeepsConsistent | App.tsx:24-37 | refilling the pile with the shuffled available cards keeps the id invariant |
| Board.IdsWithoutCard | App.tsx:84 | removing a card from the pile removes just that id from the pile's ids |
| Board.ZoneIdsWithoutPlaced | App.tsx:113 | removing a card from a zone removes just that id from the zone's ids |
| Board.PlaceKeepsConsistent | App.tsx:80-84 | placing a card that is in the pile keeps the id invariant |
| Board.MoveKeepsConsistent | App.tsx:91-96 | moving a card keeps the id invariant |
| Board.ReturnKeepsConsistent | App.tsx:111-121 | returning a placed card to the pile keeps the id invariant |
| Board.EmptyPileKeepsConsistent | App.tsx:43 | emptying the pile keeps the id invariant |
| App.IsSet | App.tsx:139 | defines the truthiness test on `lineStartCardId`: neither null nor the empty string |
| App.OtherPlayer | App.tsx:41 | the other player is never the current one |
| App.PlaceInZoneKeepsConsistent | App.tsx:80-84 | placing a pile card in either player's zone keeps the id invariant over both zones |
| App.MoveInZoneKeepsConsistent | App.tsx:91-96 | moving a card in either zone keeps the id invariant over both zones |
| App.ReturnFromZoneKeepsConsistent | App.tsx:111-121 | returning a card from either zone keeps the id invariant over both zones |
| App.Game.constructor | App.tsx:8-16 | the initial state is player 1's turn, the shuffled 24-card master deck, an empty pile, empty zones and lines, no action and no line gesture; it is valid and consistent |
| App.Game.HandleDrawAction | App.tsx:18-38 | with an action set, nothing changes; otherwise the action is `ACTION_CARDS[floor(u0 * 3)]`, the pile is the shuffle of the available cards (so a permutation of them), nothing else changes, and both invariants are kept |
| App.Game.HandlePassTurn | App.tsx:40-46 | the turn passes to the other player; action, pile, line mode and start id are cleared; zones and lines are unchanged; both invariants are kept |
| App.Game.HandleDrop | App.tsx:67-98 | out of turn, or with neither key set, nothing changes; a new card is appended to the end of that zone and leaves the pile; a placed card is moved; lines, the other zone, action and turn are unchanged; the line invariant is kept, and the id invariant is kept when a new card's id is in the pile |
| App.Game.HandleDropInCardZone | App.tsx:100-128 | with no placed id, with a new id, or with an id not in the current zone, nothing changes; otherwise the card leaves the zone, a blood card with the same id and value joins the end of the pile, exactly its incident lines go, and both invariants are kept |
| App.Game.ReturnToPile | App.tsx:110-127 | once the card is found, every entry with its id leaves the zone, a blood card with that id and value is appended to the pile, that zone's lines touching the id go, nothing else changes, and both invariants are kept |
| App.Game.ToggleLineDrawing | App.tsx:131-134 | the line mode flips and the start id is cleared; nothing else changes |
| App.Game.HandleCardClickForLine | App.tsx:136-162 | out of line mode or out of turn, nothing changes; the first click records the start; another click on the same card clears it; a click on another card toggles that edge and clears the start; the lines stay simple |
| App.ReturnDuringLineGesture | App.tsx:100-161 | a pending line start that is returned to the pile still becomes the end of a new line |

## Invariants the code does not keep

- "Lines only ever join placed cards" does not hold.
  `handleDropInCardZone` (App.tsx:100-128) does not
  clear `lineStartCardId`. So a card chosen as a line's first end can be
  returned to the pile, and the next click still makes a line from it.
  `App.ReturnDuringLineGesture` proves this for every such state. The model
  follows the code. It states the simple-graph invariant, not the stronger
  one.
- "The pile and the zones together hold the master deck" does not hold.
  `handlePassTurn` empties the pile (App.tsx:43). A return can add a card to
  the pile before any draw. The model proves the weaker disjointness
  invariant, `Consistent`.

## Left out

- Drag and DOM plumbing is not modelled: `dataTransfer`, `clientX`,
  `getBoundingClientRect` and the `parseFloat` offsets (App.tsx:48-89).
  - The values a drop reads arrive as a `DragData`, with `""` for a key
    that was not set.
  - The position a drop computes is a parameter of `HandleDrop`.
  - Positions are a pair of reals. Floating-point rounding is not modelled.
- `Math.random()` is a caller-supplied stream of reals in `[0, 1)`. Only the
  range is modelled, not uniformity. Floating-point rounding of
  `u * (i + 1)` is not modelled.
- React specifics are not modelled: hooks, `useCallback` dependency lists,
  batched `setState` and stale closures. Each handler is one atomic
  transition over the current state.
- UI-only gates in the JSX are not modelled: the disabled draw and line
  buttons.
- The rendering components under `components/` are not part of this model.
  Neither are the Korean display strings. The three action values are
  Dafny constructors `Marriage`, `Death` and `Birth`.
- `Constants.CardId`: the number in an id is formatted as one decimal
  digit. This is enough for the four copies the deck builds, but it does
  not model `${i}` for `i` of ten or more.
- App.Game.HandleDrop: `newCardValue as any` is not modelled. The dragged
  value arrives already typed as a blood type, so a drag whose value is
  not a blood code is left out.
- App.Game.HandleDrop: the id invariant is kept only on condition that a
  new card's id is in the pile. The handler never checks this. The
  condition stands for what the drag source guarantees.
- App.Game.HandleDrawAction: the claim that the action is "one of the
  three" is stated as a concrete index into `ACTION_CARDS`, given by the
  first draw. No claim is made about the action's distribution.
