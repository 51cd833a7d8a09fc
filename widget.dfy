/**
  `CardWidget::new` of src/lib.rs: a style chosen by a dispatch over the card
  (one solid colour, or six per-line random RGB styles for the two rainbow
  wild cards) and the card's glyph block from the catalog, split into lines.
*/
module Widget {
  import opened Wrappers
  import opened Cards
  import opened Catalog
  import opened Text

  /** The ratatui colours the core uses. */
  datatype Color = Reset | Red | Green | Blue | Yellow | Gray | Rgb(r: Byte, g: Byte, b: Byte)

  /** A ratatui `Style`, reduced to what the core sets: foreground, background, bold. */
  datatype Style = Style(fg: Option<Color>, bg: Option<Color>, bold: bool)

  /** `Style::new()`: nothing set. */
  const PlainStyle := Style(None, None, false)

  /** `Style::reset()`, the array's initial value before the loop overwrites it. */
  const ResetStyle := Style(Some(Reset), Some(Reset), false)

  /** `CardStyle`. */
  datatype CardStyle = NormalStyle(style: Style) | Rainbow(styles: seq<Style>) | BoldRainbow(styles: seq<Style>)

  /** `CardWidget`: the glyph lines and their style. */
  datatype CardWidget = CardWidget(lines: seq<string>, style: CardStyle)

  /** Length of the `[Style; 6]` arrays. */
  const PaletteSize := 6

  /** Raw random values one call consumes: three channels per rainbow line. */
  const DrawCount := 3 * PaletteSize

  /** The card colour as a ratatui colour. */
  function Palette(c: CardColor): Color
  {
    match c
    case Red => Color.Red
    case Green => Color.Green
    case Blue => Color.Blue
    case Yellow => Color.Yellow
  }

  /** The foreground of King: `Rgb(255, 127, 0)`. */
  const KingColor := Rgb(255, 127, 0)

  /** Line i's colour: three draws of `gen_range(lo..255)`, for red, green and blue in that order. */
  function LineColor(lo: int, draws: seq<nat>, i: nat): (c: Color)
    requires 0 <= lo < 255 && 3 * i + 2 < |draws|
    ensures c.Rgb? && lo <= c.r < 255 && lo <= c.g < 255 && lo <= c.b < 255
  {
    Rgb(GenRange(lo, 255, draws[3 * i]), GenRange(lo, 255, draws[3 * i + 1]), GenRange(lo, 255, draws[3 * i + 2]))
  }

  /** The style `CardWidget::new` gives a card, as a function of the card and the random draws. */
  function StyleSpec(card: Card, draws: seq<nat>): CardStyle
    requires |draws| == DrawCount
  {
    match card
    case ChangeColor =>
      Rainbow(seq(PaletteSize, i requires 0 <= i < PaletteSize => Style(Some(LineColor(0, draws, i)), None, false)))
    case SuperTaki =>
      BoldRainbow(seq(PaletteSize, i requires 0 <= i < PaletteSize => Style(Some(LineColor(127, draws, i)), None, true)))
    case King => NormalStyle(Style(Some(KingColor), None, false))
    case CardsBack => NormalStyle(Style(None, Some(Gray), false))
    case _ => NormalStyle(Style(Some(Palette(card.color)), None, false))
  }

  /**
    The style dispatch of `CardWidget::new`, including the loops that fill
    the six-element `colors` array for the two rainbow cards.
  */
  method CardStyleOf(card: Card, draws: seq<nat>) returns (style: CardStyle)
    requires |draws| == DrawCount
    ensures style == StyleSpec(card, draws)
  {
    match card {
      case Numeric(_, c) => style := NormalStyle(PlainStyle.(fg := Some(Palette(c))));
      case ChangeDir(c) => style := NormalStyle(PlainStyle.(fg := Some(Palette(c))));
      case Kah2(c) => style := NormalStyle(PlainStyle.(fg := Some(Palette(c))));
      case Plus(c) => style := NormalStyle(PlainStyle.(fg := Some(Palette(c))));
      case Taki(c) => style := NormalStyle(PlainStyle.(fg := Some(Palette(c))));
      case Stop(c) => style := NormalStyle(PlainStyle.(fg := Some(Palette(c))));
      case King => style := NormalStyle(PlainStyle.(fg := Some(KingColor)));
      case ChangeColor =>
        var colors := new Style[PaletteSize](_ => ResetStyle);
        for i := 0 to PaletteSize
          invariant forall k :: 0 <= k < i ==> colors[k] == Style(Some(LineColor(0, draws, k)), None, false)
        {
          var rgb := Rgb(GenRange(0, 255, draws[3 * i]), GenRange(0, 255, draws[3 * i + 1]), GenRange(0, 255, draws[3 * i + 2]));
          colors[i] := PlainStyle.(fg := Some(rgb));
        }
        style := Rainbow(colors[..]);
      case SuperTaki =>
        var colors := new Style[PaletteSize](_ => ResetStyle);
        for i := 0 to PaletteSize
          invariant forall k :: 0 <= k < i ==> colors[k] == Style(Some(LineColor(127, draws, k)), None, true)
        {
          var rgb := Rgb(GenRange(127, 255, draws[3 * i]), GenRange(127, 255, draws[3 * i + 1]), GenRange(127, 255, draws[3 * i + 2]));
          colors[i] := PlainStyle.(bold := true).(fg := Some(rgb));
        }
        style := BoldRainbow(colors[..]);
      case CardsBack => style := NormalStyle(PlainStyle.(bg := Some(Gray)));
    }
  }

  /**
    `CardWidget::new`: the style, then the catalog lookup, whose error the
    source `unwrap`s (an `Err` here is that panic), then the block split on
    "\n".
  */
  method NewCardWidget(cs: CardSet, card: Card, draws: seq<nat>) returns (r: Result<CardWidget>)
    requires |draws| == DrawCount
    ensures r.Ok? <==> cs.GetCardByInstance(card).Ok?
    ensures r.Err? ==> r.error == NotFoundError()
    ensures r.Ok? ==> r.value.style == StyleSpec(card, draws)
    ensures r.Ok? ==> Join(r.value.lines) == cs.GetCardByInstance(card).value
    ensures r.Ok? ==> |r.value.lines| == Newlines(cs.GetCardByInstance(card).value) + 1
    ensures r.Ok? ==> NoNewlines(r.value.lines)
  {
    var style := CardStyleOf(card, draws);
    var block := cs.GetCardByInstance(card);
    if block.Err? {
      return Err(block.error);
    }
    var lines := Split(block.value);
    JoinSplit(block.value);
    SplitShape(block.value);
    r := Ok(CardWidget(lines, style));
  }

  /** Every coloured card is drawn in its own colour, whatever the draws. */
  lemma ColoredCardStyle(card: Card, draws: seq<nat>)
    requires |draws| == DrawCount && IsColored(card)
    ensures StyleSpec(card, draws) == NormalStyle(Style(Some(Palette(card.color)), None, false))
  {
  }

  /** Apart from the two rainbow cards the style does not depend on the draws. */
  lemma StyleIgnoresDraws(card: Card, d1: seq<nat>, d2: seq<nat>)
    requires |d1| == DrawCount && |d2| == DrawCount
    requires card != ChangeColor && card != SuperTaki
    ensures StyleSpec(card, d1) == StyleSpec(card, d2)
    ensures StyleSpec(card, d1).NormalStyle?
  {
  }

  /** ChangeColor: six plain styles, every channel in 0..=254. */
  lemma ChangeColorStyle(draws: seq<nat>)
    requires |draws| == DrawCount
    ensures StyleSpec(ChangeColor, draws).Rainbow?
    ensures |StyleSpec(ChangeColor, draws).styles| == PaletteSize
    ensures forall i :: 0 <= i < PaletteSize ==>
      var s := StyleSpec(ChangeColor, draws).styles[i];
      && !s.bold && s.bg.None? && s.fg.Some? && s.fg.value.Rgb?
      && s.fg.value.r <= 254 && s.fg.value.g <= 254 && s.fg.value.b <= 254
  {
  }

  /** SuperTaki: six bold styles, every channel in 127..=254. */
  lemma SuperTakiStyle(draws: seq<nat>)
    requires |draws| == DrawCount
    ensures StyleSpec(SuperTaki, draws).BoldRainbow?
    ensures |StyleSpec(SuperTaki, draws).styles| == PaletteSize
    ensures forall i :: 0 <= i < PaletteSize ==>
      var s := StyleSpec(SuperTaki, draws).styles[i];
      && s.bold && s.bg.None? && s.fg.Some? && s.fg.value.Rgb?
      && 127 <= s.fg.value.r <= 254 && 127 <= s.fg.value.g <= 254 && 127 <= s.fg.value.b <= 254
  {
  }

  /**
    The rainbow is re-drawn on every call: draws that differ in any channel
    `ch` of any line `i` give that line a different style.
  */
  lemma RainbowFollowsDraws(d1: seq<nat>, d2: seq<nat>, i: nat, ch: nat)
    requires |d1| == DrawCount && |d2| == DrawCount
    requires i < PaletteSize && ch < 3
    requires d1[3 * i + ch] % 255 != d2[3 * i + ch] % 255
    ensures StyleSpec(ChangeColor, d1).styles[i] != StyleSpec(ChangeColor, d2).styles[i]
    ensures StyleSpec(ChangeColor, d1) != StyleSpec(ChangeColor, d2)
  {
    assert StyleSpec(ChangeColor, d1).styles[i] != StyleSpec(ChangeColor, d2).styles[i];
  }

  /** The same for SuperTaki, whose channels are drawn from `127..255`. */
  lemma BoldRainbowFollowsDraws(d1: seq<nat>, d2: seq<nat>, i: nat, ch: nat)
    requires |d1| == DrawCount && |d2| == DrawCount
    requires i < PaletteSize && ch < 3
    requires d1[3 * i + ch] % 128 != d2[3 * i + ch] % 128
    ensures StyleSpec(SuperTaki, d1).styles[i] != StyleSpec(SuperTaki, d2).styles[i]
    ensures StyleSpec(SuperTaki, d1) != StyleSpec(SuperTaki, d2)
  {
    assert StyleSpec(SuperTaki, d1).styles[i] != StyleSpec(SuperTaki, d2).styles[i];
  }

  /**
    A block the loader committed (each body line followed by "\n") splits
    into exactly its body lines and one empty last line.
  */
  lemma {:induction false} CommittedBlockLines(body: seq<string>)
    requires NoNewlines(body)
    ensures Split(Body(body)) == body + [""]
  {
    BodyIsJoin(body);
    assert NoNewlines(body + [""]) by {
      forall i | 0 <= i < |body| + 1
        ensures '\n' !in (body + [""])[i]
      {
        if i < |body| {
          assert (body + [""])[i] == body[i];
        }
      }
    }
    SplitJoin(body + [""]);
  }

  /** The loader's block is the lines joined by "\n" with a final newline. */
  lemma {:induction false} BodyIsJoin(body: seq<string>)
    ensures Body(body) == Join(body + [""])
    decreases |body|
  {
    if body != [] {
      var init, l := body[..|body| - 1], body[|body| - 1];
      BodyIsJoin(init);
      assert body == init + [l];
      assert body + [""] == (init + [l]) + [""];
      JoinSnoc(init + [l], "");
      if init == [] {
        assert Join([l]) == l;
      } else {
        JoinSnoc(init, l);
        JoinSnoc(init, "");
      }
    }
  }

  /**
    The face-down widget main.rs builds before its loop: `CardsBack` has no
    asset name, so the lookup fails for every catalog and `unwrap` panics.
  */
  method BackCardWidget(cs: CardSet, draws: seq<nat>) returns (r: Result<CardWidget>)
    requires |draws| == DrawCount
    ensures r.Err?
  {
    r := NewCardWidget(cs, CardsBack, draws);
  }

  /**
    The face-down widget built from a local glyph instead of the catalog: it
    always succeeds, with the Gray background and the glyph's lines.
  */
  method IntendedBackCardWidget(glyph: string, draws: seq<nat>) returns (w: CardWidget)
    requires |draws| == DrawCount
    ensures w.style == NormalStyle(Style(None, Some(Gray), false))
    ensures Join(w.lines) == glyph
  {
    var style := CardStyleOf(CardsBack, draws);
    JoinSplit(glyph);
    w := CardWidget(Split(glyph), style);
  }
}
