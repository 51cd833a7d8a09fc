/**
  The card values and the player record of src/lib.rs, and the random draws
  they are built from.
*/
module Cards {
  import opened Wrappers
  import opened Stacks

  /** Rust's `u8`. */
  type Byte = x: int | 0 <= x < 256

  datatype CardColor = Red | Green | Blue | Yellow

  /**
    `Card`. The five coloured action kinds and `Numeric` carry a colour; the
    three wild cards and the face-down `CardsBack` carry none.
  */
  datatype Card =
    | Numeric(rank: Byte, color: CardColor)
    | Taki(color: CardColor)
    | Plus(color: CardColor)
    | ChangeDir(color: CardColor)
    | Stop(color: CardColor)
    | Kah2(color: CardColor)
    | ChangeColor
    | SuperTaki
    | King
    | CardsBack

  /** The variants that carry a colour. */
  predicate IsColored(card: Card)
  {
    card.Numeric? || card.Taki? || card.Plus? || card.ChangeDir? || card.Stop? || card.Kah2?
  }

  /**
    `rng.gen_range(lo..hi)` for a half-open range. The random source is the
    parameter `raw`; only the range of the draw is modelled, not its
    distribution.
  */
  function GenRange(lo: int, hi: int, raw: nat): (r: int)
    requires lo < hi
    ensures lo <= r < hi
  {
    lo + raw % (hi - lo)
  }

  /** Every value of the range is drawn by some raw value. */
  lemma GenRangeCovers(lo: int, hi: int, v: int)
    requires lo <= v < hi
    ensures GenRange(lo, hi, v - lo) == v
  {
  }

  /**
    `CardColor::random` as written: the draw is `gen_range(0..4)`, so it is one
    of 0, 1, 2, 3, while the arms are 1, 2, 3 and 4. `None` stands for the
    `unreachable!()` panic that a draw of 0 reaches; Yellow is never returned.
  */
  function RandomColor(raw: nat): (r: Option<CardColor>)
    ensures r != Some(Yellow)
    ensures r.None? <==> raw % 4 == 0
  {
    match GenRange(0, 4, raw)
    case 1 => Some(Red)
    case 2 => Some(Green)
    case 3 => Some(Blue)
    case 4 => Some(Yellow)
    case _ => None
  }

  /** The discrepancy: a draw of 0 panics, and no draw gives Yellow. */
  lemma RandomColorAsWritten()
    ensures RandomColor(0) == None
    ensures forall raw: nat :: RandomColor(raw) != Some(Yellow)
  {
  }

  /**
    `CardColor::random` with the draw taken from `1..=4`, the range its arms
    expect: it never panics.
  */
  function IntendedRandomColor(raw: nat): (r: CardColor)
  {
    match GenRange(1, 5, raw)
    case 1 => Red
    case 2 => Green
    case 3 => Blue
    case _ => Yellow
  }

  /** Every colour is drawn by some raw value. */
  lemma IntendedRandomColorOnto(c: CardColor)
    ensures exists raw: nat :: IntendedRandomColor(raw) == c
  {
    var raw: nat := match c
      case Red => 0
      case Green => 1
      case Blue => 2
      case Yellow => 3;
    assert IntendedRandomColor(raw) == c;
  }

  /**
    `Player`: a random id, a hand of cards and a separately kept card count
    that the display uses for sizing.
  */
  class Player {
    const id: Byte
    const cards: Stack<Card>
    var cardsCount: nat

    /** The hand is a valid stack and the mirrored count equals its length. */
    ghost predicate Valid()
      reads this, cards
    {
      cards.Valid() && cardsCount == cards.Len()
    }

    /** `Player::new`: id drawn by `gen_range(0..=99)`, an empty hand, a count of zero. */
    constructor (idDraw: nat)
      ensures Valid() && fresh(cards)
      ensures id == GenRange(0, 100, idDraw)
      ensures cards.items == [] && cardsCount == 0
    {
      id := GenRange(0, 100, idDraw);
      cards := new Stack<Card>();
      cardsCount := 0;
    }
  }
}
