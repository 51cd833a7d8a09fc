/**
  Game setup of src/main.rs: `_init_card_bank`, which fills the bank with the
  standard 118 cards and shuffles it, and the transfers that deal cards from
  the bank into the player's hand.
*/
module Game {
  import opened Stacks
  import opened Cards
  import opened Catalog

  /** The colour of the outer loop's index: 0 Red, 1 Green, 2 Blue, 3 Yellow. */
  function ColorAt(x: nat): CardColor
    requires x < 4
  {
    match x
    case 0 => Red
    case 1 => Green
    case 2 => Blue
    case 3 => Yellow
  }

  /**
    One pass of the inner `1..=9` loop as it sits on the bank: pushing
    `Numeric(1, c)` first leaves `Numeric(9, c)` on top.
  */
  function NumeralsDown(c: CardColor): (r: seq<Card>)
    ensures |r| == 9
  {
    seq(9, i requires 0 <= i < 9 => Numeric(9 - i, c))
  }

  /** k passes of the numeral loop, the latest on top. */
  function NumeralsStacked(c: CardColor, k: nat): (r: seq<Card>)
    ensures |r| == 9 * k
  {
    if k == 0 then [] else NumeralsDown(c) + NumeralsStacked(c, k - 1)
  }

  /**
    The 28 cards of one pass of the outer loop as they sit on the bank: Kah2,
    Taki, Plus, ChangeDir and Stop (two each, the last pushed on top) over
    the two passes of numerals.
  */
  function ColorStack(c: CardColor): seq<Card>
  {
    Repeat(Kah2(c), 2) + (Repeat(Taki(c), 2) + (Repeat(Plus(c), 2) + (Repeat(ChangeDir(c), 2)
      + (Repeat(Stop(c), 2) + NumeralsStacked(c, 2)))))
  }

  /** The first x passes of the outer loop, the latest colour on top. */
  function ColorsStack(x: nat): seq<Card>
    requires x <= 4
  {
    if x == 0 then [] else ColorStack(ColorAt(x - 1)) + ColorsStack(x - 1)
  }

  /** The six wild cards, King pushed last and so on top. */
  function WildStack(): seq<Card>
  {
    Repeat(King, 2) + (Repeat(SuperTaki, 2) + Repeat(ChangeColor, 2))
  }

  /**
    The 118 cards `_init_card_bank` pushes, top first, as the bank holds them
    before the shuffle.
  */
  function StandardBank(): seq<Card>
  {
    WildStack() + ColorsStack(4)
  }

  /**
    How many copies of a card the standard bank holds: two of every numeral
    1..=9 in each colour, two of every coloured action card in each colour,
    two of every wild card, none of `CardsBack` or of another rank.
  */
  function StandardCount(card: Card): nat
  {
    match card
    case Numeric(n, _) => if 1 <= n <= 9 then 2 else 0
    case CardsBack => 0
    case _ => 2
  }

  /** A coloured card `get_card_by_instance` can name. */
  predicate IsColoredInTable(card: Card)
  {
    IsColored(card) && (card.Numeric? ==> 1 <= card.rank <= 9)
  }

  /** Counting in a concatenation adds the counts of its parts. */
  lemma ConcatCount<T>(a: seq<T>, b: seq<T>, x: T)
    ensures multiset(a + b)[x] == multiset(a)[x] + multiset(b)[x]
  {
  }

  /** Copies of v counted in a run of n. */
  lemma {:induction false} RepeatCount<T>(v: T, n: nat, x: T)
    ensures multiset(Repeat(v, n))[x] == if x == v then n else 0
  {
    if n > 0 {
      RepeatCount(v, n - 1, x);
      assert Repeat(v, n) == Repeat(v, n - 1) + [v];
      ConcatCount(Repeat(v, n - 1), [v], x);
    }
  }

  /** The top m cards of a numeral pass are `Numeric(9, c)` down to `Numeric(10 - m, c)`, once each. */
  lemma {:induction false} NumeralsDownPrefixCount(c: CardColor, m: nat, card: Card)
    requires m <= 9
    ensures multiset(NumeralsDown(c)[..m])[card] ==
      if card.Numeric? && card.color == c && 9 - m < card.rank <= 9 then 1 else 0
  {
    if m > 0 {
      NumeralsDownPrefixCount(c, m - 1, card);
      assert NumeralsDown(c)[..m] == NumeralsDown(c)[..m - 1] + [Numeric(10 - m, c)];
      ConcatCount(NumeralsDown(c)[..m - 1], [Numeric(10 - m, c)], card);
    }
  }

  /** k passes hold k copies of each numeral 1..=9. */
  lemma {:induction false} NumeralsStackedCount(c: CardColor, k: nat, card: Card)
    ensures multiset(NumeralsStacked(c, k))[card] ==
      if card.Numeric? && card.color == c && 1 <= card.rank <= 9 then k else 0
  {
    if k > 0 {
      NumeralsStackedCount(c, k - 1, card);
      NumeralsDownPrefixCount(c, 9, card);
      assert NumeralsDown(c)[..9] == NumeralsDown(c);
      ConcatCount(NumeralsDown(c), NumeralsStacked(c, k - 1), card);
    }
  }

  /** One colour contributes two copies of each of its 14 coloured cards. */
  lemma ColorStackCount(c: CardColor, card: Card)
    ensures |ColorStack(c)| == 28
    ensures multiset(ColorStack(c))[card] ==
      if IsColoredInTable(card) && card.color == c then 2 else 0
  {
    var s1, s2, s3, s4, s5, s6 :=
      Repeat(Kah2(c), 2), Repeat(Taki(c), 2), Repeat(Plus(c), 2), Repeat(ChangeDir(c), 2), Repeat(Stop(c), 2), NumeralsStacked(c, 2);
    RepeatCount(Kah2(c), 2, card);
    RepeatCount(Taki(c), 2, card);
    RepeatCount(Plus(c), 2, card);
    RepeatCount(ChangeDir(c), 2, card);
    RepeatCount(Stop(c), 2, card);
    NumeralsStackedCount(c, 2, card);
    ConcatCount(s5, s6, card);
    ConcatCount(s4, s5 + s6, card);
    ConcatCount(s3, s4 + (s5 + s6), card);
    ConcatCount(s2, s3 + (s4 + (s5 + s6)), card);
    ConcatCount(s1, s2 + (s3 + (s4 + (s5 + s6))), card);
  }

  /** The position of a colour in the outer loop. */
  function ColorIndex(c: CardColor): (x: nat)
    ensures x < 4 && ColorAt(x) == c
  {
    match c
    case Red => 0
    case Green => 1
    case Blue => 2
    case Yellow => 3
  }

  /** Distinct loop positions give distinct colours. */
  lemma ColorIndexAt(x: nat)
    requires x < 4
    ensures ColorIndex(ColorAt(x)) == x
  {
  }

  /** The first x colours hold two copies of each of their coloured cards. */
  lemma {:induction false} ColorsStackCount(x: nat, card: Card)
    requires x <= 4
    ensures |ColorsStack(x)| == 28 * x
    ensures multiset(ColorsStack(x))[card] ==
      if IsColoredInTable(card) && ColorIndex(card.color) < x then 2 else 0
  {
    if x > 0 {
      ColorsStackCount(x - 1, card);
      ColorStackCount(ColorAt(x - 1), card);
      ConcatCount(ColorStack(ColorAt(x - 1)), ColorsStack(x - 1), card);
      ColorIndexAt(x - 1);
    }
  }

  /** The wild cards: two of each. */
  lemma WildStackCount(card: Card)
    ensures |WildStack()| == 6
    ensures multiset(WildStack())[card] == if card == ChangeColor || card == SuperTaki || card == King then 2 else 0
  {
    var w1, w2, w3 := Repeat(King, 2), Repeat(SuperTaki, 2), Repeat(ChangeColor, 2);
    RepeatCount(King, 2, card);
    RepeatCount(SuperTaki, 2, card);
    RepeatCount(ChangeColor, 2, card);
    ConcatCount(w2, w3, card);
    ConcatCount(w1, w2 + w3, card);
  }

  /** 118 cards: 28 per colour and six wild ones. */
  lemma StandardBankLength()
    ensures |StandardBank()| == 118
  {
    ColorsStackCount(4, King);
    WildStackCount(King);
  }

  /** A wild part and a coloured part with the table's counts together hold the standard count. */
  lemma StandardCountSplit(card: Card, wild: seq<Card>, colored: seq<Card>)
    requires multiset(wild)[card] == if card == ChangeColor || card == SuperTaki || card == King then 2 else 0
    requires multiset(colored)[card] == if IsColoredInTable(card) then 2 else 0
    ensures multiset(wild + colored)[card] == StandardCount(card)
  {
    ConcatCount(wild, colored, card);
  }

  /** All four colours: two copies of every coloured card the table names. */
  lemma AllColorsCount(card: Card)
    ensures multiset(ColorsStack(4))[card] == if IsColoredInTable(card) then 2 else 0
  {
    ColorsStackCount(4, card);
  }

  /** The bank holds two of each kind the table names and none of `CardsBack`. */
  lemma StandardDeckComposition(card: Card)
    ensures multiset(StandardBank())[card] == StandardCount(card)
  {
    WildStackCount(card);
    AllColorsCount(card);
    StandardCountSplit(card, WildStack(), ColorsStack(4));
  }

  /** Every card of the bank has an asset name, so a catalog holding all 17 names resolves each one. */
  lemma BankCardsResolve(cs: CardSet, card: Card)
    requires AssetNames <= cs.cards.Keys
    requires card in StandardBank()
    ensures cs.GetCardByInstance(card).Ok?
  {
    StandardDeckComposition(card);
    ResolveWithFullCatalog(cs, card);
  }

  /** Cards stacked onto a bank add their multiset to it. */
  lemma MultisetOnto<T>(top: seq<T>, under: seq<T>)
    ensures multiset(top + under) == multiset(under) + multiset(top)
  {
  }

  /** A run pushed onto a stack whose top part is `top`, over `under`. */
  lemma PushedOnto<T>(run: seq<T>, top: seq<T>, under: seq<T>)
    ensures run + (top + under) == (run + top) + under
  {
  }

  /** Three runs pushed onto a stack that already holds `rest` over `under`. */
  lemma StackedOnto<T>(a: seq<T>, b: seq<T>, c: seq<T>, rest: seq<T>, under: seq<T>)
    ensures a + (b + (c + (rest + under))) == (a + (b + c)) + rest + under
  {
  }

  /** Pushing `Numeric(n, c)` extends the numerals above it by one. */
  lemma NumeralsDownStep(c: CardColor, n: nat)
    requires 1 <= n <= 9
    ensures NumeralsDown(c)[9 - n..] == [Numeric(n, c)] + NumeralsDown(c)[10 - n..]
  {
    assert NumeralsDown(c)[9 - n] == Numeric(n, c);
  }

  /** One pass of the inner loop over ranks 1..=9, pushing colour c's numerals in rising order. */
  method PushNumeralPass(bank: Stack<Card>, c: CardColor)
    requires bank.Valid()
    modifies bank
    ensures bank.Valid() && bank.items == NumeralsDown(c) + old(bank.items)
  {
    for n := 1 to 10
      invariant bank.Valid() && bank.items == NumeralsDown(c)[10 - n..] + old(bank.items)
    {
      NumeralsDownStep(c, n);
      bank.Push(Numeric(n, c));
      PushedOnto([Numeric(n, c)], NumeralsDown(c)[10 - n..], old(bank.items));
    }
    assert NumeralsDown(c)[0..] == NumeralsDown(c);
  }

  /** `(0..2).for_each(|_| ...)`: two passes of the numerals of colour c. */
  method PushNumerals(bank: Stack<Card>, c: CardColor)
    requires bank.Valid()
    modifies bank
    ensures bank.Valid() && bank.items == NumeralsStacked(c, 2) + old(bank.items)
  {
    for rep := 0 to 2
      invariant bank.Valid() && bank.items == NumeralsStacked(c, rep) + old(bank.items)
    {
      PushNumeralPass(bank, c);
      PushedOnto(NumeralsDown(c), NumeralsStacked(c, rep), old(bank.items));
    }
  }

  /**
    The body of `_init_card_bank`'s outer loop for colour c: the numerals
    1..=9 twice, then two each of Stop, ChangeDir, Plus, Taki and Kah2.
  */
  method PushColor(bank: Stack<Card>, c: CardColor)
    requires bank.Valid()
    modifies bank
    ensures bank.Valid() && bank.items == ColorStack(c) + old(bank.items)
    ensures bank.Len() == old(bank.Len()) + 28
  {
    PushNumerals(bank, c);
    ghost var top := NumeralsStacked(c, 2);
    bank.PushTimes(Stop(c), 2);
    PushedOnto(Repeat(Stop(c), 2), top, old(bank.items));
    top := Repeat(Stop(c), 2) + top;
    bank.PushTimes(ChangeDir(c), 2);
    PushedOnto(Repeat(ChangeDir(c), 2), top, old(bank.items));
    top := Repeat(ChangeDir(c), 2) + top;
    bank.PushTimes(Plus(c), 2);
    PushedOnto(Repeat(Plus(c), 2), top, old(bank.items));
    top := Repeat(Plus(c), 2) + top;
    bank.PushTimes(Taki(c), 2);
    PushedOnto(Repeat(Taki(c), 2), top, old(bank.items));
    top := Repeat(Taki(c), 2) + top;
    bank.PushTimes(Kah2(c), 2);
    PushedOnto(Repeat(Kah2(c), 2), top, old(bank.items));
    top := Repeat(Kah2(c), 2) + top;
    ColorStackCount(c, King);
  }

  /**
    `_init_card_bank`: the four colours, then two each of ChangeColor,
    SuperTaki and King, then `shuffle(shiters)`. The bank gains exactly the
    118 standard cards; only their order depends on the shuffle, and without
    shuffle rounds it holds them in the order they were pushed, the last on
    top, over what it held before.
  */
  method InitCardBank(bank: Stack<Card>, shiters: nat)
    requires bank.Valid()
    modifies bank
    ensures bank.Valid()
    ensures multiset(bank.items) == multiset(old(bank.items)) + multiset(StandardBank())
    ensures bank.Len() == old(bank.Len()) + 118
    ensures shiters == 0 ==> bank.items[..118] == StandardBank() && bank.items[118..] == old(bank.items)
  {
    for x := 0 to 4
      invariant bank.Valid() && bank.items == ColorsStack(x) + old(bank.items)
    {
      PushColor(bank, ColorAt(x));
      PushedOnto(ColorStack(ColorAt(x)), ColorsStack(x), old(bank.items));
    }
    bank.PushTimes(ChangeColor, 2);
    bank.PushTimes(SuperTaki, 2);
    bank.PushTimes(King, 2);
    StackedOnto(Repeat(King, 2), Repeat(SuperTaki, 2), Repeat(ChangeColor, 2), ColorsStack(4), old(bank.items));
    StandardBankLength();
    MultisetOnto(StandardBank(), old(bank.items));
    bank.Shuffle(shiters);
  }

  /**
    One draw (the space key): the bank's top card moves to the top of the
    hand and the hand's mirrored count follows. The bank must not be empty,
    since `pop` underflows its count first.
  */
  method DrawCard(bank: Stack<Card>, p: Player)
    requires bank.Valid() && p.Valid() && bank != p.cards
    requires bank.Len() > 0
    modifies bank, p, p.cards
    ensures bank.Valid() && p.Valid()
    ensures bank.items == old(bank.items)[1..]
    ensures p.cards.items == [old(bank.items)[0]] + old(p.cards.items)
    ensures p.cardsCount == old(p.cardsCount) + 1
  {
    var top := bank.Pop();
    p.cards.Push(top.value);
    p.cardsCount := p.cardsCount + 1;
  }

  /** The opening deal: eight draws, each from the bank's top to the hand's top. */
  method DealOpeningHand(bank: Stack<Card>, p: Player)
    requires bank.Valid() && p.Valid() && bank != p.cards
    requires bank.Len() >= 8
    modifies bank, p, p.cards
    ensures bank.Valid() && p.Valid()
    ensures bank.items == old(bank.items)[8..]
    ensures p.cards.items == Rev(old(bank.items)[..8]) + old(p.cards.items)
    ensures p.cardsCount == old(p.cardsCount) + 8
  {
    ghost var src, hand := bank.items, p.cards.items;
    for k := 0 to 8
      invariant bank.Valid() && p.Valid() && bank != p.cards
      invariant bank.items == src[k..]
      invariant p.cards.items == Rev(src[..k]) + hand
      invariant p.cardsCount == old(p.cardsCount) + k
    {
      DealStep(src, k, hand);
      DrawCard(bank, p);
    }
  }

  /** One more card dealt: the next card of the source goes on top of the reversed prefix. */
  lemma DealStep<T>(src: seq<T>, k: nat, hand: seq<T>)
    requires k < |src|
    ensures src[k..][1..] == src[k + 1..]
    ensures [src[k..][0]] + (Rev(src[..k]) + hand) == Rev(src[..k + 1]) + hand
  {
    assert src[..k + 1] == src[..k] + [src[k]];
    RevSnoc(src[..k], src[k]);
  }

  /** Dealing k cards off the top keeps, between bank and hand, the cards the bank held. */
  lemma DealMultiset<T>(full: seq<T>, k: nat)
    requires k <= |full|
    ensures multiset(full[k..]) + multiset(Rev(full[..k])) == multiset(full)
  {
    assert full == full[..k] + full[k..];
    RevMultiset(full[..k]);
  }

  /**
    The start of `main` without the terminal: a fresh bank filled by
    `_init_card_bank` with five shuffle rounds, a fresh player, and the
    opening deal of eight cards.
    The bank keeps 110, the hand holds 8 and its count agrees, and together
    they hold exactly the standard 118 cards.
  */
  method StartGame(idDraw: nat) returns (bank: Stack<Card>, p1: Player)
    ensures bank.Valid() && p1.Valid() && bank != p1.cards
    ensures bank.Len() == 110 && p1.cards.Len() == 8 && p1.cardsCount == 8
    ensures multiset(bank.items) + multiset(p1.cards.items) == multiset(StandardBank())
  {
    bank := new Stack<Card>();
    p1 := new Player(idDraw);
    InitCardBank(bank, 5);
    ghost var full := bank.items;
    DealOpeningHand(bank, p1);
    assert p1.cards.items == Rev(full[..8]);
    DealMultiset(full, 8);
  }
}
