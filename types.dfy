/** The data types of the blood-type card game (types.ts). */
module Types {

  import opened Seqs

  /** A nullable value (`T | null`). */
  datatype Option<T> = None | Some(value: T)

  /** The six genetic-style blood-type codes. */
  datatype BloodType = AA | AO | BB | BO | AB | OO
  {
    /** The two-letter code that the source uses as the value itself. */
    function Code(): (c: string)
      ensures |c| == 2
      ensures forall k :: 0 <= k < 2 ==> c[k] in "ABO"
    {
      match this
      case AA => "AA"
      case AO => "AO"
      case BB => "BB"
      case BO => "BO"
      case AB => "AB"
      case OO => "OO"
    }
  }

  /** The three action kinds: marriage, death, birth. */
  datatype ActionType = Marriage | Death | Birth

  /**
   * A card is a tagged union: the constructor is the `type` tag. Only the
   * blood variant carries an id. Both variants of the source call their
   * payload `value`; here the action card's is named `kind`, because two
   * constructors of one datatype cannot share a field name at different types.
   */
  datatype Card = Blood(id: string, value: BloodType) | Action(kind: ActionType)

  type BloodCard = c: Card | c.Blood? witness Blood("", AA)
  type ActionCard = c: Card | c.Action? witness Action(Marriage)

  /** A screen position; the game logic only copies it. */
  datatype Position = Position(x: real, y: real)

  /** A blood card laid out in a player's zone. */
  datatype PlacedCard = PlacedCard(id: string, bloodType: BloodType, position: Position)

  /** A connection between two placed cards of one zone, stored as an ordered pair. */
  datatype Line = Line(from: string, to: string)

  /** The two players. */
  type Player = p: int | p == 1 || p == 2 witness 1

  /** Distinct blood types have distinct codes, so a code names its type. */
  lemma CodeInjective(a: BloodType, b: BloodType)
    ensures a.Code() == b.Code() <==> a == b
  {
  }

  /** `card.id`. */
  function IdOf(card: BloodCard): string
  {
    card.id
  }

  /** The ids of a list of blood cards, in order (`cards.map(c => c.id)`). */
  function Ids(cards: seq<BloodCard>): seq<string>
  {
    Map(cards, IdOf)
  }
}
