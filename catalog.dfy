/**
  The asset catalog of src/disp.rs: the line-oriented section parser
  `CardSetLoader::load_from_file` (here on the file's lines) and the two
  lookups of `CardSet`.
*/
module Catalog {
  import opened Wrappers
  import opened Cards

  const NotFoundMessage := "Card not found in this set! Are you sure it was loaded correctly with no typos?"

  /** The error both lookups return. */
  function NotFoundError(): IoError
  {
    IoError(NotFound, NotFoundMessage)
  }

  /** The asset name of each card kind; colour plays no part, `CardsBack` and ranks outside 1..=9 have none. */
  function AssetName(card: Card): (name: Option<string>)
    ensures name.Some? <==> card != CardsBack && (card.Numeric? ==> 1 <= card.rank <= 9)
  {
    match card
    case Numeric(1, _) => Some("Card1")
    case Numeric(2, _) => Some("Card2")
    case Numeric(3, _) => Some("Card3")
    case Numeric(4, _) => Some("Card4")
    case Numeric(5, _) => Some("Card5")
    case Numeric(6, _) => Some("Card6")
    case Numeric(7, _) => Some("Card7")
    case Numeric(8, _) => Some("Card8")
    case Numeric(9, _) => Some("Card9")
    case Stop(_) => Some("Stop")
    case ChangeDir(_) => Some("ChangeDir")
    case Plus(_) => Some("Plus")
    case Kah2(_) => Some("Take2")
    case Taki(_) => Some("Taki")
    case ChangeColor => Some("ChangeCol")
    case King => Some("King")
    case SuperTaki => Some("SuperTaki")
    case _ => None
  }

  /** Two cards of the same kind (and rank) whatever their colours. */
  predicate SameKind(a: Card, b: Card)
  {
    match a
    case Numeric(n, _) => b.Numeric? && b.rank == n
    case Taki(_) => b.Taki?
    case Plus(_) => b.Plus?
    case ChangeDir(_) => b.ChangeDir?
    case Stop(_) => b.Stop?
    case Kah2(_) => b.Kah2?
    case _ => a == b
  }

  /** The table is injective up to colour: two cards share an asset name exactly when they are of the same kind. */
  lemma AssetNameKind(a: Card, b: Card)
    requires AssetName(a).Some?
    ensures AssetName(a) == AssetName(b) <==> SameKind(a, b)
  {
  }

  /** The 17 asset names the table uses. */
  const AssetNames: set<string> :=
    {"Card1", "Card2", "Card3", "Card4", "Card5", "Card6", "Card7", "Card8", "Card9",
     "Stop", "ChangeDir", "Plus", "Take2", "Taki", "ChangeCol", "King", "SuperTaki"}

  /** `CardSet`: the map from asset name to glyph block. */
  datatype CardSet = CardSet(cards: map<string, string>) {

    /** `get_card_by_name`: the stored block exactly when the name is a key, `NotFound` otherwise. */
    function GetCardByName(name: string): (r: Result<string>)
      ensures r.Ok? <==> name in cards
      ensures r.Ok? ==> r.value == cards[name]
      ensures r.Err? ==> r.error == NotFoundError()
    {
      if name in cards then Ok(cards[name]) else Err(NotFoundError())
    }

    /** `get_card_by_instance`: the block of the card's asset name, or `NotFound`. */
    function GetCardByInstance(card: Card): (r: Result<string>)
      ensures r.Ok? <==> AssetName(card).Some? && AssetName(card).value in cards
      ensures r.Ok? ==> r.value == cards[AssetName(card).value]
      ensures r.Err? ==> r.error == NotFoundError()
    {
      match AssetName(card)
      case Some(name) => GetCardByName(name)
      case None => Err(NotFoundError())
    }
  }

  /** A catalog holding every asset name resolves every card that has one; `CardsBack` never resolves. */
  lemma ResolveWithFullCatalog(cs: CardSet, card: Card)
    requires AssetNames <= cs.cards.Keys
    ensures cs.GetCardByInstance(card).Ok? <==> card != CardsBack && (card.Numeric? ==> 1 <= card.rank <= 9)
  {
    if AssetName(card).Some? {
      assert AssetName(card).value in AssetNames;
    }
  }

  // ---------------------------------------------------------------------------
  // The parser

  /**
    A section header: the whole line matches `^\[(.+)\]$`, i.e. it starts with
    `[`, ends with `]` and has at least one character between them, none of
    them a newline (the regex's `.`). `[]` is not a header.
  */
  predicate IsHeader(line: string)
  {
    |line| >= 3 && line[0] == '[' && line[|line| - 1] == ']' && '\n' !in line[1..|line| - 1]
  }

  /** The header's capture group: everything between the outer brackets (it may contain `]`). */
  function HeaderKey(line: string): (k: string)
    requires IsHeader(line)
    ensures k != "" && "[" + k + "]" == line
  {
    line[1..|line| - 1]
  }

  /** Bracketing a name gives a header exactly when the name is non-empty and has no newline, and the key read back is the name. */
  lemma HeaderRoundTrip(k: string)
    ensures IsHeader("[" + k + "]") <==> k != "" && '\n' !in k
    ensures IsHeader("[" + k + "]") ==> HeaderKey("[" + k + "]") == k
  {
    var h := "[" + k + "]";
    assert h[1..|h| - 1] == k;
  }

  /** Body lines as the loader accumulates them: each line followed by a newline. */
  function Body(lines: seq<string>): string
  {
    if lines == [] then "" else Body(lines[..|lines| - 1]) + lines[|lines| - 1] + "\n"
  }

  /** The loader's state: the map `hm`, the active key (`""` before the first header) and the accumulator `val`. */
  datatype ParseState = ParseState(hm: map<string, string>, key: string, val: string)

  /** One iteration of the loader's loop. */
  function Step(st: ParseState, line: string): ParseState
  {
    if IsHeader(line) then
      ParseState(if st.key != "" then st.hm[st.key := st.val] else st.hm, HeaderKey(line), "")
    else
      ParseState(st.hm, st.key, st.val + line + "\n")
  }

  /** The state after the loop has run over `lines`. */
  function Scan(lines: seq<string>): ParseState
  {
    if lines == [] then ParseState(map[], "", "")
    else Step(Scan(lines[..|lines| - 1]), lines[|lines| - 1])
  }

  /** A named section of the file and its body lines. */
  datatype Section = Section(name: string, body: seq<string>)

  /**
    The sections after one more line: a header opens a new, empty section;
    any other line joins the open section, or belongs to no section when no
    header has been seen.
  */
  function AddLine(ss: seq<Section>, line: string): seq<Section>
  {
    if IsHeader(line) then ss + [Section(HeaderKey(line), [])]
    else if ss == [] then []
    else ss[..|ss| - 1] + [Section(ss[|ss| - 1].name, ss[|ss| - 1].body + [line])]
  }

  /** The sections of the file in order: each header with the lines up to the next header. */
  function Sections(lines: seq<string>): seq<Section>
  {
    if lines == [] then [] else AddLine(Sections(lines[..|lines| - 1]), lines[|lines| - 1])
  }

  /** Every section but the last one. */
  function NonFinal(ss: seq<Section>): seq<Section>
  {
    if ss == [] then [] else ss[..|ss| - 1]
  }

  /** Inserting the sections into a map in order; a later section of the same name replaces an earlier one. */
  function Commit(ss: seq<Section>): map<string, string>
  {
    if ss == [] then map[]
    else Commit(ss[..|ss| - 1])[ss[|ss| - 1].name := Body(ss[|ss| - 1].body)]
  }

  /** What the loader stores: every section except the last one, committed in file order. */
  function Committed(lines: seq<string>): map<string, string>
  {
    Commit(NonFinal(Sections(lines)))
  }

  /** Some section is named k. */
  predicate Named(ss: seq<Section>, k: string)
  {
    exists m :: 0 <= m < |ss| && ss[m].name == k
  }

  /** Some line is a header named k. */
  predicate HasHeaderNamed(lines: seq<string>, k: string)
  {
    exists i :: 0 <= i < |lines| && IsHeader(lines[i]) && HeaderKey(lines[i]) == k
  }

  /** Some header named k is followed by a later header. */
  predicate HasNonFinalHeaderNamed(lines: seq<string>, k: string)
  {
    exists i, j :: 0 <= i < j < |lines| && IsHeader(lines[i]) && IsHeader(lines[j]) && HeaderKey(lines[i]) == k
  }

  /** The description of the loop's state that ScanSections establishes. */
  ghost predicate DescribedBySections(lines: seq<string>)
  {
    var st, ss := Scan(lines), Sections(lines);
    && st.hm == Committed(lines)
    && st.key == (if ss == [] then "" else ss[|ss| - 1].name)
    && st.val == (if ss == [] then Body(lines) else Body(ss[|ss| - 1].body))
    && (ss != [] ==> ss[|ss| - 1].name != "")
  }

  /** A header line commits the previous section (if any) and opens an empty one. */
  lemma HeaderStepDescribed(lines: seq<string>)
    requires lines != [] && IsHeader(lines[|lines| - 1])
    requires DescribedBySections(lines[..|lines| - 1])
    ensures DescribedBySections(lines)
  {
    var ss0 := Sections(lines[..|lines| - 1]);
    var ss := ss0 + [Section(HeaderKey(lines[|lines| - 1]), [])];
    assert Sections(lines) == ss;
    assert NonFinal(ss) == ss0;
    if ss0 != [] {
      assert ss0 == NonFinal(ss0) + [ss0[|ss0| - 1]];
    }
  }

  /** One more body line adds that line and a newline to the block. */
  lemma BodySnoc(body: seq<string>, l: string)
    ensures Body(body + [l]) == Body(body) + l + "\n"
  {
    assert (body + [l])[..|body|] == body;
  }

  /** A body line leaves the sections before the open one as they were. */
  lemma BodyLineNonFinal(ss: seq<Section>, l: string)
    requires !IsHeader(l)
    ensures |AddLine(ss, l)| == |ss|
    ensures NonFinal(AddLine(ss, l)) == NonFinal(ss)
    ensures forall m :: 0 <= m < |ss| ==> AddLine(ss, l)[m].name == ss[m].name
  {
  }

  /** A body line extends the accumulator, and with it the body of the open section. */
  lemma BodyStepDescribed(lines: seq<string>)
    requires lines != [] && !IsHeader(lines[|lines| - 1])
    requires DescribedBySections(lines[..|lines| - 1])
    ensures DescribedBySections(lines)
  {
    var ss0, l := Sections(lines[..|lines| - 1]), lines[|lines| - 1];
    BodyLineNonFinal(ss0, l);
    if ss0 != [] {
      BodySnoc(ss0[|ss0| - 1].body, l);
    }
  }

  /**
    The loop's state is described by the sections: the map holds all but the
    last section, the key is the last section's name, and the accumulator
    holds the last section's body (or, with no header yet, every line so far).
  */
  lemma {:induction false} ScanSections(lines: seq<string>)
    ensures DescribedBySections(lines)
    decreases |lines|
  {
    if lines != [] {
      ScanSections(lines[..|lines| - 1]);
      if IsHeader(lines[|lines| - 1]) {
        HeaderStepDescribed(lines);
      } else {
        BodyStepDescribed(lines);
      }
    }
  }

  /** Commit's keys are exactly the names of the sections. */
  lemma {:induction false} CommitKeys(ss: seq<Section>, k: string)
    ensures k in Commit(ss) <==> Named(ss, k)
  {
    if ss != [] {
      var init := ss[..|ss| - 1];
      CommitKeys(init, k);
      NamedSnoc(init, ss[|ss| - 1], k);
      assert ss == init + [ss[|ss| - 1]];
    }
  }

  /** The last section of a name wins: its body is what Commit keeps. */
  lemma {:induction false} CommitLastWins(ss: seq<Section>, m: nat)
    requires m < |ss|
    requires forall n :: m < n < |ss| ==> ss[n].name != ss[m].name
    ensures ss[m].name in Commit(ss) && Commit(ss)[ss[m].name] == Body(ss[m].body)
  {
    if m < |ss| - 1 {
      var init := ss[..|ss| - 1];
      assert init[m] == ss[m];
      CommitLastWins(init, m);
    }
  }

  /** A section appended at the end adds its name. */
  lemma NamedSnoc(ss: seq<Section>, x: Section, k: string)
    ensures Named(ss + [x], k) <==> Named(ss, k) || x.name == k
  {
    if Named(ss, k) {
      var m :| 0 <= m < |ss| && ss[m].name == k;
      assert (ss + [x])[m] == ss[m];
    }
    if x.name == k {
      assert (ss + [x])[|ss|] == x;
    }
    if Named(ss + [x], k) {
      var m :| 0 <= m < |ss| + 1 && (ss + [x])[m].name == k;
      if m < |ss| {
        assert ss[m] == (ss + [x])[m];
      }
    }
  }

  /** A body line keeps the set of section names. */
  lemma NamedBodyLine(ss: seq<Section>, l: string, k: string)
    requires !IsHeader(l)
    ensures Named(AddLine(ss, l), k) <==> Named(ss, k)
  {
    BodyLineNonFinal(ss, l);
    if Named(ss, k) {
      var m :| 0 <= m < |ss| && ss[m].name == k;
      assert AddLine(ss, l)[m].name == k;
    }
  }

  /** One more line adds a header name exactly when it is a header. */
  lemma HeaderNamedSnoc(lines: seq<string>, l: string, k: string)
    ensures HasHeaderNamed(lines + [l], k) <==> HasHeaderNamed(lines, k) || (IsHeader(l) && HeaderKey(l) == k)
  {
    var all := lines + [l];
    if HasHeaderNamed(lines, k) {
      var i :| 0 <= i < |lines| && IsHeader(lines[i]) && HeaderKey(lines[i]) == k;
      assert all[i] == lines[i];
    }
    if IsHeader(l) && HeaderKey(l) == k {
      assert all[|lines|] == l;
    }
    if HasHeaderNamed(all, k) {
      var i :| 0 <= i < |all| && IsHeader(all[i]) && HeaderKey(all[i]) == k;
      if i < |lines| {
        assert lines[i] == all[i];
      }
    }
  }

  /** A non-final header stays non-final, and one more header line makes every earlier header non-final. */
  lemma NonFinalHeaderNamedGrows(lines: seq<string>, l: string, k: string)
    requires HasNonFinalHeaderNamed(lines, k) || (IsHeader(l) && HasHeaderNamed(lines, k))
    ensures HasNonFinalHeaderNamed(lines + [l], k)
  {
    var all := lines + [l];
    if HasNonFinalHeaderNamed(lines, k) {
      var i, j :| 0 <= i < j < |lines| && IsHeader(lines[i]) && IsHeader(lines[j]) && HeaderKey(lines[i]) == k;
      assert all[i] == lines[i] && all[j] == lines[j];
    } else {
      var i :| 0 <= i < |lines| && IsHeader(lines[i]) && HeaderKey(lines[i]) == k;
      assert all[i] == lines[i] && all[|lines|] == l;
    }
  }

  /** A header that is non-final once one more line is read was non-final before, or that line is a header. */
  lemma NonFinalHeaderNamedShrinks(lines: seq<string>, l: string, k: string)
    requires HasNonFinalHeaderNamed(lines + [l], k)
    ensures HasNonFinalHeaderNamed(lines, k) || (IsHeader(l) && HasHeaderNamed(lines, k))
  {
    var all := lines + [l];
    var i, j :| 0 <= i < j < |all| && IsHeader(all[i]) && IsHeader(all[j]) && HeaderKey(all[i]) == k;
    assert lines[i] == all[i];
    if j < |lines| {
      assert lines[j] == all[j];
    } else {
      assert all[j] == l;
    }
  }

  /** One more line makes every earlier header non-final exactly when it is a header. */
  lemma NonFinalHeaderNamedSnoc(lines: seq<string>, l: string, k: string)
    ensures HasNonFinalHeaderNamed(lines + [l], k) <==>
      HasNonFinalHeaderNamed(lines, k) || (IsHeader(l) && HasHeaderNamed(lines, k))
  {
    if HasNonFinalHeaderNamed(lines, k) || (IsHeader(l) && HasHeaderNamed(lines, k)) {
      NonFinalHeaderNamedGrows(lines, l, k);
    }
    if HasNonFinalHeaderNamed(lines + [l], k) {
      NonFinalHeaderNamedShrinks(lines, l, k);
    }
  }

  /** A header line opens one section; every earlier section becomes non-final. */
  lemma HeaderLineSections(ss: seq<Section>, l: string)
    requires IsHeader(l)
    ensures NonFinal(AddLine(ss, l)) == ss
  {
  }

  /**
    The sections are named by the header lines: a name belongs to some
    section exactly when some header carries it, and to a section other than
    the last exactly when a later header follows one that carries it.
  */
  lemma {:induction false} SectionNames(lines: seq<string>, k: string)
    ensures Named(Sections(lines), k) <==> HasHeaderNamed(lines, k)
    ensures Named(NonFinal(Sections(lines)), k) <==> HasNonFinalHeaderNamed(lines, k)
    decreases |lines|
  {
    if lines != [] {
      var init, l := lines[..|lines| - 1], lines[|lines| - 1];
      var ss0 := Sections(init);
      assert lines == init + [l];
      SectionNames(init, k);
      HeaderNamedSnoc(init, l, k);
      NonFinalHeaderNamedSnoc(init, l, k);
      if IsHeader(l) {
        NamedSnoc(ss0, Section(HeaderKey(l), []), k);
        HeaderLineSections(ss0, l);
      } else {
        NamedBodyLine(ss0, l, k);
        BodyLineNonFinal(ss0, l);
      }
    }
  }

  /** The loader's keys are exactly the names of the headers that are followed by another header. */
  lemma CommittedKeys(lines: seq<string>, k: string)
    ensures k in Committed(lines) <==> HasNonFinalHeaderNamed(lines, k)
  {
    CommitKeys(NonFinal(Sections(lines)), k);
    SectionNames(lines, k);
  }

  /**
    The value stored under a name is the body of its last section that is not
    the final section, each body line followed by a newline; a section with no
    body stores the empty string.
  */
  lemma CommittedValue(lines: seq<string>, m: nat)
    requires m < |Sections(lines)| - 1
    requires forall n :: m < n < |Sections(lines)| - 1 ==> Sections(lines)[n].name != Sections(lines)[m].name
    ensures Sections(lines)[m].name in Committed(lines)
    ensures Committed(lines)[Sections(lines)[m].name] == Body(Sections(lines)[m].body)
  {
    var ss := Sections(lines);
    var init := NonFinal(ss);
    assert init[m] == ss[m];
    CommitLastWins(init, m);
  }

  /** One more line of the file runs one more step of the fold. */
  lemma SectionsSnoc(lines: seq<string>, l: string)
    ensures Sections(lines + [l]) == AddLine(Sections(lines), l)
  {
    assert (lines + [l])[..|lines|] == lines;
  }

  /** Lines without a header open no section. */
  lemma {:induction false} NoHeaderNoSections(pre: seq<string>)
    requires forall t :: 0 <= t < |pre| ==> !IsHeader(pre[t])
    ensures Sections(pre) == []
  {
    if pre != [] {
      var init := pre[..|pre| - 1];
      assert forall t :: 0 <= t < |init| ==> init[t] == pre[t];
      NoHeaderNoSections(init);
    }
  }

  /** Lines that open no section leave the sections of whatever follows them unchanged. */
  lemma {:induction false} PreambleIgnored(pre: seq<string>, rest: seq<string>)
    requires Sections(pre) == []
    ensures Sections(pre + rest) == Sections(rest)
    decreases |rest|
  {
    if rest == [] {
      assert pre + rest == pre;
    } else {
      var init, l := rest[..|rest| - 1], rest[|rest| - 1];
      PreambleIgnored(pre, init);
      assert pre + rest == (pre + init) + [l];
      SectionsSnoc(pre + init, l);
    }
  }

  /** Text before the first header is discarded: prefixing it changes nothing the loader stores. */
  lemma PreambleDiscarded(pre: seq<string>, rest: seq<string>)
    requires forall t :: 0 <= t < |pre| ==> !IsHeader(pre[t])
    ensures Committed(pre + rest) == Committed(rest)
  {
    NoHeaderNoSections(pre);
    PreambleIgnored(pre, rest);
  }

  /** One more line runs one more step of the loop. */
  lemma ScanSnoc(lines: seq<string>, l: string)
    ensures Scan(lines + [l]) == Step(Scan(lines), l)
  {
    assert (lines + [l])[..|lines|] == lines;
  }

  /** The loop's state after one more line of `lines`. */
  lemma ScanPrefixStep(lines: seq<string>, k: nat)
    requires k < |lines|
    ensures Scan(lines[..k + 1]) == Step(Scan(lines[..k]), lines[k])
  {
    assert lines[..k + 1][..k] == lines[..k];
  }

  /** Storing twice under one key keeps the second value. */
  lemma StoreTwice(m: map<string, string>, k: string, v1: string, v2: string)
    ensures m[k := v1][k := v2] == m[k := v2]
  {
  }

  /** `[A]` and `[B]` are headers with keys A and B. */
  lemma SampleHeaders()
    ensures IsHeader("[A]") && HeaderKey("[A]") == "A"
    ensures IsHeader("[B]") && HeaderKey("[B]") == "B"
    ensures IsHeader("[C]") && HeaderKey("[C]") == "C"
  {
    HeaderRoundTrip("A");
    HeaderRoundTrip("B");
    HeaderRoundTrip("C");
  }

  /** The first section of the two-section file, read but not yet stored. */
  lemma FirstSectionRead(lines: seq<string>)
    requires lines == ["[A]", "foo", "[B]", "bar"]
    ensures Scan(lines[..2]) == ParseState(map[], "A", "foo\n")
  {
    SampleHeaders();
    ScanPrefixStep(lines, 0);
    assert Scan(lines[..1]) == ParseState(map[], "A", "");
    ScanPrefixStep(lines, 1);
  }

  /** Two sections: only the first is stored, the final one is lost. */
  lemma FinalSectionDropped(lines: seq<string>)
    requires lines == ["[A]", "foo", "[B]", "bar"]
    ensures Committed(lines) == map["A" := "foo\n"]
    ensures Scan(lines) == ParseState(map["A" := "foo\n"], "B", "bar\n")
  {
    FirstSectionRead(lines);
    SampleHeaders();
    ScanPrefixStep(lines, 2);
    assert Scan(lines[..3]) == ParseState(map["A" := "foo\n"], "B", "");
    ScanPrefixStep(lines, 3);
    assert Scan(lines[..4]) == ParseState(map["A" := "foo\n"], "B", "bar\n");
    assert lines[..4] == lines;
    ScanSections(lines);
  }

  /** The file with a repeated header, up to the second block: the first block is stored. */
  lemma RepeatedHeaderRead(lines: seq<string>)
    requires lines == ["[A]", "x", "[A]", "y", "[B]", "[C]"]
    ensures Scan(lines[..4]) == ParseState(map["A" := "x\n"], "A", "y\n")
  {
    SampleHeaders();
    ScanPrefixStep(lines, 0);
    assert Scan(lines[..1]) == ParseState(map[], "A", "");
    ScanPrefixStep(lines, 1);
    assert Scan(lines[..2]) == ParseState(map[], "A", "x\n");
    ScanPrefixStep(lines, 2);
    assert Scan(lines[..3]) == ParseState(map["A" := "x\n"], "A", "");
    ScanPrefixStep(lines, 3);
  }

  /** A repeated header overwrites: the later block wins, and a header with no body stores "". */
  lemma RepeatedHeaderOverwrites(lines: seq<string>)
    requires lines == ["[A]", "x", "[A]", "y", "[B]", "[C]"]
    ensures Committed(lines) == map["A" := "y\n", "B" := ""]
  {
    RepeatedHeaderRead(lines);
    SampleHeaders();
    ScanPrefixStep(lines, 4);
    StoreTwice(map[], "A", "x\n", "y\n");
    assert Scan(lines[..5]) == ParseState(map["A" := "y\n"], "B", "");
    ScanPrefixStep(lines, 5);
    assert Scan(lines[..6]) == ParseState(map["A" := "y\n", "B" := ""], "C", "");
    assert lines[..6] == lines;
    ScanSections(lines);
  }

  /** The file whose final header repeats an earlier one, up to that header. */
  lemma FinalRepeatRead(lines: seq<string>)
    requires lines == ["[A]", "x", "[B]", "[A]", "y"]
    ensures Scan(lines[..3]) == ParseState(map["A" := "x\n"], "B", "")
  {
    SampleHeaders();
    ScanPrefixStep(lines, 0);
    assert Scan(lines[..1]) == ParseState(map[], "A", "");
    ScanPrefixStep(lines, 1);
    assert Scan(lines[..2]) == ParseState(map[], "A", "x\n");
    ScanPrefixStep(lines, 2);
  }

  /** When a name's last occurrence is the final header, its earlier block survives. */
  lemma FinalRepeatKeepsEarlierBlock(lines: seq<string>)
    requires lines == ["[A]", "x", "[B]", "[A]", "y"]
    ensures Committed(lines) == map["A" := "x\n", "B" := ""]
  {
    FinalRepeatRead(lines);
    SampleHeaders();
    ScanPrefixStep(lines, 3);
    assert Scan(lines[..4]) == ParseState(map["A" := "x\n", "B" := ""], "A", "");
    ScanPrefixStep(lines, 4);
    assert Scan(lines[..5]) == ParseState(map["A" := "x\n", "B" := ""], "A", "y\n");
    assert lines[..5] == lines;
    ScanSections(lines);
  }

  /** `[]` has nothing between its brackets, so it is a body line; text before the first header is dropped. */
  lemma EmptyBracketsAreBody(lines: seq<string>)
    requires lines == ["junk", "[A]", "[]", "[B]"]
    ensures Committed(lines) == map["A" := "[]\n"]
  {
    SampleHeaders();
    assert !IsHeader("[]") && !IsHeader("junk");
    ScanPrefixStep(lines, 0);
    assert Scan(lines[..1]) == ParseState(map[], "", "junk\n");
    ScanPrefixStep(lines, 1);
    assert Scan(lines[..2]) == ParseState(map[], "A", "");
    ScanPrefixStep(lines, 2);
    assert Scan(lines[..3]) == ParseState(map[], "A", "[]\n");
    ScanPrefixStep(lines, 3);
    assert Scan(lines[..4]) == ParseState(map["A" := "[]\n"], "B", "");
    assert lines[..4] == lines;
    ScanSections(lines);
  }

  /**
    The loader with the final commit that `load_from_file` lacks: after the
    loop, the open section is committed like every other.
  */
  function FlushedCatalog(lines: seq<string>): map<string, string>
  {
    var st := Scan(lines);
    if st.key != "" then st.hm[st.key := st.val] else st.hm
  }

  /** With the final commit, every section is stored and the keys are exactly the header names. */
  lemma FlushedCatalogKeys(lines: seq<string>)
    ensures FlushedCatalog(lines) == Commit(Sections(lines))
    ensures forall k :: k in FlushedCatalog(lines) <==> HasHeaderNamed(lines, k)
  {
    ScanSections(lines);
    var ss := Sections(lines);
    if ss != [] {
      assert ss == NonFinal(ss) + [ss[|ss| - 1]];
    }
    forall k
      ensures k in Commit(ss) <==> HasHeaderNamed(lines, k)
    {
      CommitKeys(ss, k);
      SectionNames(lines, k);
    }
  }

  /** The two-section file keeps both sections once the final commit is added. */
  lemma FlushedKeepsFinalSection()
    ensures FlushedCatalog(["[A]", "foo", "[B]", "bar"]) == map["A" := "foo\n", "B" := "bar\n"]
  {
    FinalSectionDropped(["[A]", "foo", "[B]", "bar"]);
  }

  /**
    `load_from_file` on the file's lines: the loop commits the accumulated
    block under the active key whenever a header is met, then starts a new
    block. Nothing is committed after the loop, so the section after the last
    header is lost.
  */
  method LoadFromLines(lines: seq<string>) returns (cs: CardSet)
    ensures cs.cards == Committed(lines)
    ensures forall k :: k in cs.cards <==> HasNonFinalHeaderNamed(lines, k)
  {
    var hm: map<string, string> := map[];
    var val: string := "";
    var key: string := "";
    for i := 0 to |lines|
      invariant ParseState(hm, key, val) == Scan(lines[..i])
    {
      assert lines[..i + 1][..i] == lines[..i];
      var line := lines[i];
      if IsHeader(line) {
        if key != "" {
          hm := hm[key := val];
        }
        key := HeaderKey(line);
        val := "";
      } else {
        val := val + line + "\n";
      }
    }
    assert lines[..|lines|] == lines;
    ScanSections(lines);
    forall k
      ensures k in hm <==> HasNonFinalHeaderNamed(lines, k)
    {
      CommittedKeys(lines, k);
    }
    cs := CardSet(hm);
  }
}
