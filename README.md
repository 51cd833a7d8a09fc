# taki: a verified model of the card-game core

This project models the non-interactive core of the `taki` terminal card game
(a Rust program built on ratatui) and proves properties of that model. It
covers four parts of the game:

- **The deck container.** `Stack<T>` in `src/lib.rs` is a `VecDeque` used as a
  LIFO stack, with a separately stored element count (`stack.dfy`, module
  `Stacks`). It is a class whose methods update the deque and the count in
  place.
- **Card values and their look.** This covers `Card` and `CardColor`,
  `CardColor::random` and `Player::new` (`cards.dfy`, module `Cards`), and the
  style dispatch and glyph split of `CardWidget::new` (`widget.dfy`, module
  `Widget`, with the `"\n"` split and join in `text.dfy`, module `Text`).
- **The asset catalog of `src/disp.rs`.** This is the line-oriented section
  loader `CardSetLoader::load_from_file`, modelled on the file's lines, and the
  two `CardSet` lookups (`catalog.dfy`, module `Catalog`).
- **Game setup in `src/main.rs`.** This is `_init_card_bank`, the opening deal
  of eight cards, and the draw on the space key (`game.dfy`, module `Game`).
  `Option`, `Result` and `io::Error` are in `wrappers.dfy`.

Some code is a loop that changes state. This includes the stack methods,
`push_times`, the loader's loop over lines, the loop that fills the six-style
`colors` array, `_init_card_bank`'s nested loops, and the deal. That code is
written as methods with loop invariants. Each method is proved against a
specification function:

- `Catalog.Scan` and `Catalog.Sections` for the loader;
- `Widget.StyleSpec` for the style dispatch;
- `Game.StandardBank` for the bank.

The properties of each specification function are proved as separate lemmas.
Randomness enters only as explicit parameters. A `gen_range(lo..hi)` draw is
`Cards.GenRange(lo, hi, raw)`, which fixes the range of the value but not its
distribution. A shuffle round is an arbitrary permutation.

A few behaviours of the code differ from what a reader of the game would
expect. The model follows the code in each case:

- **The loader's final section.** The loader never stores the section after
  the last header: the loop ends with that section's block still open, so the
  model loses that section (see Findings).
- **`CardsBack`.** The face-down card has no local glyph. It is looked up in
  the catalog, whose name table has no entry for it, so the lookup always
  fails.
- **Rainbow colour ranges.** The rainbow channels are drawn with
  `gen_range(0..255)` and `gen_range(127..255)`, which exclude 255, so the
  model's ranges end at 254.
- **Popping an empty stack.** `pop` decrements the count before it looks at
  the deque, so an empty pop underflows instead of returning `None`. The
  model's `pop` requires a non-empty stack.
- **Repeated headers.** A repeated header keeps the text after its last
  occurrence only when that occurrence is not the final header
  (`Catalog.FinalRepeatKeepsEarlierBlock`).

## Model

| member | source | states |
|---|---|---|
| Stacks.Stack.constructor | src/lib.rs:93-95 | `Stack::new` is empty with count 0, and the count mirrors the length |
| Stacks.Stack.Len | src/lib.rs:130-132 | `len` is the stored count, which equals the number of elements while the stack is valid |
| Stacks.Stack.IntoIter | src/lib.rs:74-76 | `into_iter` yields exactly `len()` elements, top first |
| Stacks.Stack.Push | src/lib.rs:97-100 | `push` puts the value at the front, keeps everything behind it, and the count goes up by one in step with the deque |
| Stacks.Stack.Pop | src/lib.rs:102-105 | on a non-empty stack, `pop` returns the front (most recently pushed) element, removes exactly it, and lowers the count by one |
| Stacks.Stack.Shuffle | src/lib.rs:107-118 | `shuffle(times)` keeps the multiset of elements and `len()`; with `times == 0` the order is unchanged too |
| Stacks.Stack.PushTimes | src/lib.rs:120-128 | `push_times(v, n)` leaves n copies of v in front of the unchanged old contents, and `len()` grows by exactly n |
| Stacks.PushAllPopAll | src/lib.rs:97-105 | LIFO: pushing `xs` one by one and popping until empty yields `xs` reversed |
| Cards.GenRange | src/lib.rs:57 | `gen_range(lo..hi)` yields a value in `[lo, hi)` |
| Cards.GenRangeCovers | src/lib.rs:57 | every value of the half-open range is reachable by some draw |
| Cards.RandomColor | src/lib.rs:56-64 | `CardColor::random` as written panics exactly on the draws that give 0, and never returns Yellow |
| Cards.RandomColorAsWritten | src/lib.rs:56-64 | a concrete draw reaches `unreachable!()`, and no draw gives Yellow |
| Cards.IntendedRandomColorOnto | src/lib.rs:56-64 | with the draw taken from 1..=4, every colour is produced by some draw |
| Cards.Player.constructor | src/lib.rs:24-30 | `Player::new` has an id in 0..=99, an empty fresh hand, and a count of 0 that agrees with the hand |
| Catalog.AssetName | src/disp.rs:24-41 | a card has an asset name exactly when it is not `CardsBack` and any numeral rank is in 1..=9 |
| Catalog.AssetNameKind | src/disp.rs:24-40 | the name table ignores colour, and two cards share a name exactly when they are of the same kind (and rank) |
| Catalog.CardSet.GetCardByName | src/disp.rs:15-21 | `Ok` with the stored block exactly when the name is a key, otherwise the `NotFound` error with the source's message |
| Catalog.CardSet.GetCardByInstance | src/disp.rs:22-43 | `Ok` exactly when the card has an asset name that the catalog holds, with that block; otherwise `NotFound` |
| Catalog.ResolveWithFullCatalog | src/disp.rs:24-41 | with all 17 asset names loaded, exactly the cards other than `CardsBack` and out-of-range numerals resolve |
| Catalog.IsHeader | src/disp.rs:7 | a line is a header exactly when it is `[`, one or more non-newline characters, then `]`; `[]` is not a header |
| Catalog.HeaderKey | src/disp.rs:57-62 | the captured key is non-empty, and re-bracketing it gives the header line back |
| Catalog.HeaderRoundTrip | src/disp.rs:7 | `[k]` is a header exactly when k is non-empty and has no newline, and its key reads back as k |
| Catalog.Step | src/disp.rs:57-68 | one iteration of the loop: a header stores the open block under the active key (if any) and opens an empty block under its own key; any other line is appended to the open block with a newline |
| Catalog.Scan | src/disp.rs:54-69 | the loop's state after the lines so far: the empty map, no key and an empty block, then one `Step` per line in order |
| Catalog.HeaderStepDescribed | src/disp.rs:57-64 | a header line commits the open section (when a key is active) and opens an empty one, preserving the description of the loop state by sections |
| Catalog.BodyStepDescribed | src/disp.rs:65-68 | a body line appends itself and a newline to the open section's block, and leaves the stored map unchanged |
| Catalog.ScanSections | src/disp.rs:54-69 | after any prefix of the file, the map holds every section but the last, the key is the last section's name and the accumulator holds its block |
| Catalog.CommitKeys | src/disp.rs:60 | inserting sections in order stores exactly their names as keys |
| Catalog.CommitLastWins | src/disp.rs:60 | a later insert under the same name overwrites, so a name's last section is the one kept |
| Catalog.SectionNames | src/disp.rs:56-69 | a name has a section exactly when a header carries it, and a non-final section exactly when a later header follows |
| Catalog.CommittedKeys | src/disp.rs:56-71 | the loader's keys are exactly the names of headers followed by another header |
| Catalog.CommittedValue | src/disp.rs:59-68 | the value stored under a name is its last non-final section's body, each line followed by a newline (an empty section stores `""`) |
| Catalog.NoHeaderNoSections | src/disp.rs:65-68 | lines without a header open no section |
| Catalog.PreambleIgnored | src/disp.rs:54-63 | lines that open no section do not change the sections of what follows |
| Catalog.PreambleDiscarded | src/disp.rs:54-63 | text before the first header never reaches the map |
| Catalog.FinalSectionDropped | src/disp.rs:56-71 | `[A] foo [B] bar` stores only `A → "foo\n"`, and the loop ends with `B`'s block still unstored |
| Catalog.RepeatedHeaderOverwrites | src/disp.rs:59-63 | a repeated header overwrites the earlier block, and a header followed directly by another stores `""` |
| Catalog.FinalRepeatKeepsEarlierBlock | src/disp.rs:59-63 | when a name's last occurrence is the final header, its earlier block is what stays stored |
| Catalog.EmptyBracketsAreBody | src/disp.rs:57-68 | `[]` is a body line, and a preamble line is dropped |
| Catalog.FlushedCatalogKeys | src/disp.rs:56-71 | with a final commit after the loop, every section is stored and the keys are exactly the header names |
| Catalog.FlushedKeepsFinalSection | src/disp.rs:56-71 | with the final commit, `[A] foo [B] bar` stores both `A → "foo\n"` and `B → "bar\n"` |
| Catalog.LoadFromLines | src/disp.rs:49-72 | the loader's loop stores the sections other than the last, and its keys are exactly the non-final header names |
| Text.Split | src/lib.rs:216 | `split("\n")` always yields at least one piece |
| Text.JoinSplit | src/lib.rs:214-219 | joining the split lines with `"\n"` gives the block back |
| Text.SplitShape | src/lib.rs:214-219 | there is one more line than there are newlines, and no line contains one |
| Text.SplitJoin | src/lib.rs:214-219 | splitting a join of newline-free lines gives the lines back |
| Widget.Palette | src/lib.rs:152-178 | each card colour maps to the ratatui colour of the same name |
| Widget.StyleSpec | src/lib.rs:151-211 | the style of each card: its own colour as foreground for coloured cards, `Rgb(255, 127, 0)` for King, a Gray background for `CardsBack`, and for ChangeColor and SuperTaki six line styles whose channels come from the draws, three per line in red, green, blue order |
| Widget.LineColor | src/lib.rs:186-190 | each rainbow line's colour is an RGB triple with every channel in `[lo, 255)` |
| Widget.CardStyleOf | src/lib.rs:150-212 | the style dispatch, including the loops that fill the six-style array, computes the style specification |
| Widget.NewCardWidget | src/lib.rs:149-225 | `CardWidget::new` fails exactly when the lookup fails; on success it has the specified style, and its lines join back to the catalog block with one more line than the block has newlines |
| Widget.ColoredCardStyle | src/lib.rs:152-178 | every coloured card gets its own colour as foreground, whatever the draws |
| Widget.StyleIgnoresDraws | src/lib.rs:151-211 | apart from ChangeColor and SuperTaki the style is a solid style that does not depend on the draws |
| Widget.ChangeColorStyle | src/lib.rs:182-195 | ChangeColor gives six plain styles whose channels are all in 0..=254 |
| Widget.SuperTakiStyle | src/lib.rs:197-208 | SuperTaki gives six bold styles whose channels are all in 127..=254 |
| Widget.RainbowFollowsDraws | src/lib.rs:183-192 | the ChangeColor rainbow is re-drawn per call: draws that differ (mod 255) in any channel of any line give that line, and so the style, a different colour |
| Widget.BoldRainbowFollowsDraws | src/lib.rs:197-208 | the SuperTaki rainbow likewise: draws that differ (mod 128) in any channel of any line give that line a different colour |
| Widget.BodyIsJoin | src/disp.rs:66-67 | a loaded block is its lines joined with `"\n"`, plus a final newline |
| Widget.CommittedBlockLines | src/lib.rs:214-219 | splitting a loaded block gives its body lines and one empty last line |
| Widget.BackCardWidget | src/main.rs:40 | the face-down widget that `main` builds fails for every catalog |
| Widget.IntendedBackCardWidget | src/lib.rs:211 | a face-down widget built from a local glyph always succeeds, with the Gray background and the glyph's lines |
| Game.ColorAt | src/main.rs:125-131 | the outer loop's index picks the colour: 0 Red, 1 Green, 2 Blue, 3 Yellow |
| Game.ColorStackCount | src/main.rs:133-138 | one colour's pass pushes 28 cards: two of each of its numerals 1..=9 and two of each of its five action kinds |
| Game.ColorsStackCount | src/main.rs:124-139 | the first x colours push 28·x cards, two of each coloured card of those colours |
| Game.WildStackCount | src/main.rs:141-143 | the wild pushes are six cards: two each of ChangeColor, SuperTaki and King |
| Game.StandardBankLength | src/main.rs:124-143 | the pushes of `_init_card_bank` add 118 cards |
| Game.StandardDeckComposition | src/main.rs:124-143 | the bank holds two of every numeral 1..=9 and every coloured action card per colour, two of each wild card, and no `CardsBack` |
| Game.BankCardsResolve | src/main.rs:133 | every card the bank holds resolves in a catalog that has all 17 asset names |
| Game.PushNumeralPass | src/main.rs:133 | one pass of `(1..=9)` pushes the numerals of colour c, leaving 9 on top, over the old contents |
| Game.PushNumerals | src/main.rs:133 | `(0..2)` passes push the numerals twice |
| Game.PushColor | src/main.rs:124-139 | one colour's body pushes its 28 cards in the source's order over the old contents |
| Game.InitCardBank | src/main.rs:123-146 | `_init_card_bank` adds exactly the standard 118 cards, whatever `shiters` is; with no shuffle rounds they sit in push order on top |
| Game.DrawCard | src/main.rs:110 | a draw moves the bank's top card to the top of the hand and keeps the hand's count in step |
| Game.DealOpeningHand | src/main.rs:33-36 | eight draws move the bank's top eight cards to the hand, in reverse, and the count rises by 8 |
| Game.StartGame | src/main.rs:15-36 | after setup the bank holds 110 cards and the hand 8 with `cards_count == 8`, and together they hold exactly the standard 118 |

## Left out

- File reading (`fs::read_to_string`) and `str::lines()` are I/O. `Catalog.LoadFromLines` takes the file's lines as input, so a read error (`?`) is not modelled.
- The `regex` crate and the `Lazy` static are foreign code. `Catalog.IsHeader` states the pattern `^\[(.+)\]$` directly: brackets at both ends and at least one non-newline character between them.
- Randomness (`thread_rng`, `SliceRandom::shuffle`, `gen_range`) is modelled only by the range of each draw. The draws are parameters, and a shuffle round is any permutation (`Stacks.Stack.Shuffle`). The distribution is not modelled.
- `CardWidget::render` and everything about ratatui `Buffer`, `Rect`, layout and drawing are foreign rendering code. `Widget.Style` keeps only what the core sets: foreground, background and bold.
- The `main` event loop, raw mode, the alternate screen, key decoding and the `q` key are terminal I/O. Only the setup, the opening deal and the space-key draw are modelled.
- The commented-out `Iterator` impl and the derived `Debug`, `Default`, `PartialEq` and `Clone` impls are not modelled.
- Stacks.Stack.Pop: it requires a non-empty stack. The source decrements the `usize` count before looking at the deque, so an empty pop underflows, which panics in a debug build. That path is not modelled.
- Stacks.Stack.Shuffle: it states only that the result is a permutation. For `times > 0` it does not claim the order changes.
- Counts (`usize`) and the hand's `cards_count` are unbounded naturals. No overflow is reachable with 118 cards.
- Game.InitCardBank: the exact order is stated only for `shiters == 0`. `main` passes 5 rounds, after which only the multiset is known.

## Findings

| source | as written | input that shows it | evidently intended | confidence | as-written member | corrected member |
|---|---|---|---|---|---|---|
| src/disp.rs:56-71 | after the loop the open section is never inserted into the map | the lines `[A]`, `foo`, `[B]`, `bar` store only `A → "foo\n"` | commit the open section after the loop as well, so every section is stored | high, not executed | Catalog.FinalSectionDropped | Catalog.FlushedCatalogKeys |
| src/lib.rs:56-64 | `gen_range(0..4)` draws 0..=3, but the arms are 1..=4 | a draw of 0 reaches `unreachable!()`, and Yellow is never returned | draw from `1..=4` (or match 0..=3), so every colour is possible and nothing panics | high, not executed | Cards.RandomColorAsWritten | Cards.IntendedRandomColorOnto |
| src/main.rs:40 | `CardWidget::new(&cardset, &Card::CardsBack)` looks `CardsBack` up in the catalog, and the table has no entry for it (src/disp.rs:41), so `unwrap` panics | any catalog, including one with all 17 asset names | draw the face-down card from a local glyph with the Gray background | high, not executed | Widget.BackCardWidget | Widget.IntendedBackCardWidget |
