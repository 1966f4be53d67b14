/**
  The section emitters' recurring per-deck loop and a few representative
  emitters built on it: loading a track (browsing), shift, play/pause and
  reverse roll (decks), and the crossfader (mixer).

  Every per-deck emitter first sets the fields shared by all decks, then runs
  `for i in range(num_decks)`, writing the deck's group, description and
  one hex-numbered field (the status byte, or for track loading the MIDI
  number) before printing a block. Fields the loop does not write carry
  over from whatever the table held before.
 */
module Sections {
  import opened Text
  import opened Format
  import opened XmlBuilder
  import opened Wrappers

  const Prefix: string := "PioneerDDJGRV6"
  /** The deck count `main` passes to every emitter. */
  const NumDecks: int := 4
  /** The indent level `il` every emitter uses. */
  const SectionIndent: int := 2
  /** The fields of a `<control>` block, in print order. */
  const ControlEntries: seq<string> := ["description", "group", "key", "status", "midino", "options"]
  /** The fields of an `<output>` block: a control's plus the on/off values. */
  const OutputEntries: seq<string> := ControlEntries + ["on", "off"]

  /**
    What one per-deck loop writes for deck `i`: the group `[Channel{i+1}]`,
    the description `gen_description(hwid, feature, i+1, modus)` and the
    field `hexKey` set to `hexfmt(hexBase + i)`.
   */
  datatype DeckTemplate = DeckTemplate(hexKey: string, hexBase: int, hwid: string, feature: string, modus: string)

  /** The number of passes of `for i in range(n)`. */
  function Iterations(n: int): nat
  {
    if n < 0 then 0 else n
  }

  /** The field table after the loop body's three assignments for deck `i`. */
  function DeckFields(kv: map<string, string>, t: DeckTemplate, i: int): map<string, string>
  {
    kv["group" := ChannelGroup(i + 1)]
      ["description" := GenDescription(t.hwid, t.feature, i + 1, t.modus)]
      [t.hexKey := HexFmt(t.hexBase + i)]
  }

  /** The field table after `n` passes of the loop. */
  function AfterDecks(kv: map<string, string>, t: DeckTemplate, n: nat): map<string, string>
  {
    if n == 0 then kv else DeckFields(kv, t, n - 1)
  }

  /** The fragments `n` passes of the loop append, deck 0 first. */
  function DeckFragments(kv: map<string, string>, level: int, block: string, entries: seq<string>,
                         t: DeckTemplate, n: nat): (r: seq<string>)
    ensures |r| == n
  {
    if n == 0 then []
    else DeckFragments(kv, level, block, entries, t, n - 1) + [Fragment(DeckFields(kv, t, n - 1), level, block, entries)]
  }

  /** A later deck's assignments overwrite all of an earlier deck's. */
  lemma DeckFieldsOverwrite(kv: map<string, string>, t: DeckTemplate, j: int, i: int)
    ensures DeckFields(DeckFields(kv, t, j), t, i) == DeckFields(kv, t, i)
  {
  }

  lemma AfterDecksOverwrite(kv: map<string, string>, t: DeckTemplate, n: nat, i: int)
    ensures DeckFields(AfterDecks(kv, t, n), t, i) == DeckFields(kv, t, i)
  {
    if n > 0 {
      DeckFieldsOverwrite(kv, t, n - 1, i);
    }
  }

  /**
    `n` passes append exactly `n` fragments, and the `i`-th is deck `i`'s
    block rendered from the table as it stood before the loop with the
    deck's three fields written over it.
   */
  lemma {:induction false} DeckFragmentsAt(kv: map<string, string>, level: int, block: string,
                                           entries: seq<string>, t: DeckTemplate, n: nat)
    ensures |DeckFragments(kv, level, block, entries, t, n)| == n
    ensures forall i :: 0 <= i < n ==>
      DeckFragments(kv, level, block, entries, t, n)[i] == Fragment(DeckFields(kv, t, i), level, block, entries)
  {
    if n > 0 {
      DeckFragmentsAt(kv, level, block, entries, t, n - 1);
      var prev := DeckFragments(kv, level, block, entries, t, n - 1);
      var frags := DeckFragments(kv, level, block, entries, t, n);
      assert frags == prev + [Fragment(DeckFields(kv, t, n - 1), level, block, entries)];
      forall i | 0 <= i < n - 1
        ensures frags[i] == Fragment(DeckFields(kv, t, i), level, block, entries)
      {
        assert frags[i] == prev[i];
      }
    }
  }

  /** Running the loop again over an already written table appends the same fragments. */
  lemma DeckFragmentsRestart(kv: map<string, string>, level: int, block: string,
                              entries: seq<string>, t: DeckTemplate, m: nat, n: nat)
    ensures DeckFragments(AfterDecks(kv, t, m), level, block, entries, t, n) == DeckFragments(kv, level, block, entries, t, n)
  {
    var kv' := AfterDecks(kv, t, m);
    var again, once := DeckFragments(kv', level, block, entries, t, n), DeckFragments(kv, level, block, entries, t, n);
    DeckFragmentsAt(kv', level, block, entries, t, n);
    DeckFragmentsAt(kv, level, block, entries, t, n);
    forall i | 0 <= i < n ensures again[i] == once[i] {
      AfterDecksOverwrite(kv, t, m, i);
    }
  }


  /** The template writes its hex field somewhere else than the group and the description. */
  predicate SeparateHexField(t: DeckTemplate)
  {
    t.hexKey != "group" && t.hexKey != "description"
  }

  /**
    The table deck `i` prints from: its own group, description and hex
    field; every other field exactly as before the loop.
   */
  lemma DeckFieldValues(kv: map<string, string>, t: DeckTemplate, i: int)
    requires SeparateHexField(t)
    ensures Lookup(DeckFields(kv, t, i), "group") == ChannelGroup(i + 1)
    ensures Lookup(DeckFields(kv, t, i), "description") == GenDescription(t.hwid, t.feature, i + 1, t.modus)
    ensures Lookup(DeckFields(kv, t, i), t.hexKey) == HexFmt(t.hexBase + i)
    ensures forall key :: key != "group" && key != "description" && key != t.hexKey ==>
      Lookup(DeckFields(kv, t, i), key) == Lookup(kv, key)
  {
  }

  /**
    Line `k + 1` of deck `i`'s block: the group, description and hex field
    of deck `i` where those are requested, and the carried-over value of
    any other requested field.
   */
  lemma DeckBlockLine(kv: map<string, string>, level: int, block: string, entries: seq<string>,
                      t: DeckTemplate, i: int, k: nat)
    requires SeparateHexField(t)
    requires k < |entries|
    ensures |Render(DeckFields(kv, t, i), level, block, entries)| == |entries| + 2
    ensures Render(DeckFields(kv, t, i), level, block, entries)[k + 1] ==
      Indent(level + 2) + Element(entries[k],
        if entries[k] == "group" then ChannelGroup(i + 1)
        else if entries[k] == "description" then GenDescription(t.hwid, t.feature, i + 1, t.modus)
        else if entries[k] == t.hexKey then HexFmt(t.hexBase + i)
        else Lookup(kv, entries[k]))
  {
    RenderShape(DeckFields(kv, t, i), level, block, entries);
    DeckFieldValues(kv, t, i);
  }

  /** Two decks' blocks differ whenever the group is printed. */
  lemma DeckBlocksDistinct(kv: map<string, string>, level: int, block: string, entries: seq<string>,
                           t: DeckTemplate, i: int, j: int)
    requires SeparateHexField(t)
    requires "group" in entries
    requires i != j
    ensures Render(DeckFields(kv, t, i), level, block, entries) != Render(DeckFields(kv, t, j), level, block, entries)
  {
    var k :| 0 <= k < |entries| && entries[k] == "group";
    DeckBlockLine(kv, level, block, entries, t, i, k);
    DeckBlockLine(kv, level, block, entries, t, j, k);
    if Render(DeckFields(kv, t, i), level, block, entries) == Render(DeckFields(kv, t, j), level, block, entries) {
      var ident := Indent(level + 2);
      var gi, gj := ChannelGroup(i + 1), ChannelGroup(j + 1);
      assert ident + Element("group", gi) == ident + Element("group", gj);
      assert Element("group", gi) == (ident + Element("group", gi))[|ident|..];
      assert Element("group", gj) == (ident + Element("group", gj))[|ident|..];
      ElementInjective("group", gi, gj);
      ChannelGroupInjective(i + 1, j + 1);
    }
  }

  /**
    The per-deck loop: `numDecks` passes, each writing deck `i`'s three
    fields and printing one block. The bucket `block` grows by exactly the
    deck fragments, every other bucket is untouched, and the table ends as
    the last deck left it.
   */
  method PerDeckLoop(xc: XmlConfig, level: int, block: string, entries: seq<string>, t: DeckTemplate, numDecks: int)
    modifies xc
    ensures xc.kv == AfterDecks(old(xc.kv), t, Iterations(numDecks))
    ensures xc.outSections == Appended(old(xc.outSections), block,
      DeckFragments(old(xc.kv), level, block, entries, t, Iterations(numDecks)))
    ensures |Bucket(xc.outSections, block)| == |Bucket(old(xc.outSections), block)| + Iterations(numDecks)
  {
    ghost var kv0, sections0 := xc.kv, xc.outSections;
    for i := 0 to Iterations(numDecks)
      invariant xc.kv == AfterDecks(kv0, t, i)
      invariant xc.outSections == Appended(sections0, block, DeckFragments(kv0, level, block, entries, t, i))
    {
      xc.kv := xc.kv["group" := ChannelGroup(i + 1)];
      xc.kv := xc.kv["description" := GenDescription(t.hwid, t.feature, i + 1, t.modus)];
      xc.kv := xc.kv[t.hexKey := HexFmt(t.hexBase + i)];
      AfterDecksOverwrite(kv0, t, i, i);
      assert xc.kv == DeckFields(kv0, t, i) == AfterDecks(kv0, t, i + 1);
      ghost var frags, frag := DeckFragments(kv0, level, block, entries, t, i), Fragment(DeckFields(kv0, t, i), level, block, entries);
      assert DeckFragments(kv0, level, block, entries, t, i + 1) == frags + [frag];
      xc.Print(level, block, entries);
      AppendedOneMore(sections0, block, frags, frag);
    }
    DeckFragmentsAt(kv0, level, block, entries, t, Iterations(numDecks));
  }

  // ---------------------------------------------------------------------
  // Representative emitters

  /** The base values the source spells `int("0x46", 16)`, `int("0x90", 16)`, `int("0xB0", 16)`. */
  lemma HexBasesParse()
    ensures ParseHexLiteral("0x46") == Some(0x46)
    ensures ParseHexLiteral("0x90") == Some(0x90)
    ensures ParseHexLiteral("0xB0") == Some(0xB0)
  {
    TwoDigitHex('4', '6');
    TwoDigitHex('9', '0');
    TwoDigitHex('B', '0');
  }

  /** Loading a track: one button per deck, numbered `0x46 + i` on status `0x96`. */
  const LoadTrackDeck := DeckTemplate("midino", 0x46, "B6", "LOAD", "normal")

  function LoadTrackFields(kv: map<string, string>): map<string, string>
  {
    kv["status" := "0x96"]["midino" := "0x46"]["key" := "LoadSelectedTrack"]["options" := "<Normal/>"]
  }

  method LoadTrack(xc: XmlConfig, numDecks: int)
    modifies xc
    ensures xc.kv == AfterDecks(LoadTrackFields(old(xc.kv)), LoadTrackDeck, Iterations(numDecks))
    ensures xc.outSections == Appended(old(xc.outSections), "control",
      DeckFragments(LoadTrackFields(old(xc.kv)), SectionIndent, "control", ControlEntries, LoadTrackDeck, Iterations(numDecks)))
  {
    xc.kv := xc.kv["status" := "0x96"];
    xc.kv := xc.kv["midino" := "0x46"];
    xc.kv := xc.kv["key" := "LoadSelectedTrack"];
    xc.kv := xc.kv["options" := "<Normal/>"];
    PerDeckLoop(xc, SectionIndent, "control", ControlEntries, LoadTrackDeck, numDecks);
  }

  /** Shift: one control per deck on status `0x90 + i`. */
  const ShiftDeck := DeckTemplate("status", 0x90, "D3", "SHIFT", "normal")

  function ShiftFields(kv: map<string, string>): map<string, string>
  {
    kv["key" := Prefix + ".shiftPressed"]["midino" := "0x3F"]["options" := "<Script-Binding/>"]
  }

  method ShiftPressed(xc: XmlConfig, numDecks: int)
    modifies xc
    ensures xc.kv == AfterDecks(ShiftFields(old(xc.kv)), ShiftDeck, Iterations(numDecks))
    ensures xc.outSections == Appended(old(xc.outSections), "control",
      DeckFragments(ShiftFields(old(xc.kv)), SectionIndent, "control", ControlEntries, ShiftDeck, Iterations(numDecks)))
  {
    xc.kv := xc.kv["key" := Prefix + ".shiftPressed"];
    xc.kv := xc.kv["midino" := "0x3F"];
    xc.kv := xc.kv["options" := "<Script-Binding/>"];
    PerDeckLoop(xc, SectionIndent, "control", ControlEntries, ShiftDeck, numDecks);
  }

  /** Play/pause: one toggled control per deck on status `0x90 + i`, note `0x0B`. */
  const PlayDeck := DeckTemplate("status", 0x90, "D1", "Play/Pause", "normal")

  function PlayFields(kv: map<string, string>): map<string, string>
  {
    kv["key" := "play"]["midino" := "0x0B"]["options" := "<Toggled/>"]["on" := "0x7F"]["off" := "0x00"]
  }

  method PlayPause(xc: XmlConfig, numDecks: int)
    modifies xc
    ensures xc.kv == AfterDecks(PlayFields(old(xc.kv)), PlayDeck, Iterations(numDecks))
    ensures xc.outSections == Appended(old(xc.outSections), "control",
      DeckFragments(PlayFields(old(xc.kv)), SectionIndent, "control", ControlEntries, PlayDeck, Iterations(numDecks)))
  {
    xc.kv := xc.kv["key" := "play"];
    xc.kv := xc.kv["midino" := "0x0B"];
    xc.kv := xc.kv["options" := "<Toggled/>"];
    xc.kv := xc.kv["on" := "0x7F"];
    xc.kv := xc.kv["off" := "0x00"];
    PerDeckLoop(xc, SectionIndent, "control", ControlEntries, PlayDeck, numDecks);
  }

  /**
    The play/pause emitter with the deck count `main` passes, on a fresh
    builder: exactly four `<control>` fragments, deck 0 first, each
    rendered from that deck's table.
   */
  method PlayPauseFourDecks() returns (xc: XmlConfig)
    ensures xc.outSections.Keys == {"control"}
    ensures |xc.outSections["control"]| == 4
    ensures forall i :: 0 <= i < 4 ==>
      xc.outSections["control"][i] == Fragment(DeckFields(PlayFields(map[]), PlayDeck, i), SectionIndent, "control", ControlEntries)
  {
    xc := new XmlConfig();
    ghost var kv0, n := xc.kv, Iterations(NumDecks);
    PlayPause(xc, NumDecks);
    DeckFragmentsAt(PlayFields(kv0), SectionIndent, "control", ControlEntries, PlayDeck, n);
  }

  /** For decks on one MIDI channel block, `hexfmt(0x90 + i)` is `0x9` and the deck's digit. */
  lemma PlayStatus(i: int)
    requires 0 <= i < 16
    ensures HexFmt(PlayDeck.hexBase + i) == "0x9" + [HexDigit(i)]
  {
    HexFmtByte(0x90 + i);
    assert (0x90 + i) / 16 == 9 && (0x90 + i) % 16 == i;
  }

  /**
    The play/pause block of deck `i` (for `0 <= i < 16`): eight lines, group
    `[Channel{i+1}]`, key `play`, status `0x9` and the deck's digit, MIDI
    number `0x0B` and options `<Toggled/>`, the last three carried over from
    before the loop.
   */
  lemma PlayPauseBlock(kv: map<string, string>, i: int)
    requires 0 <= i < 16
    ensures var lines := Render(DeckFields(PlayFields(kv), PlayDeck, i), SectionIndent, "control", ControlEntries);
      && |lines| == 8
      && lines[0] == Indent(3) + "<control>"
      && lines[1] == Indent(4) + Element("description", GenDescription("D1", "Play/Pause", i + 1, "normal"))
      && lines[2] == Indent(4) + Element("group", ChannelGroup(i + 1))
      && lines[3] == Indent(4) + Element("key", "play")
      && lines[4] == Indent(4) + Element("status", "0x9" + [HexDigit(i)])
      && lines[5] == Indent(4) + Element("midino", "0x0B")
      && lines[6] == Indent(4) + Element("options", "<Toggled/>")
      && lines[7] == Indent(3) + "</control>"
  {
    ControlLines(DeckFields(PlayFields(kv), PlayDeck, i));
    PlayPauseValues(kv, i);
  }

  /** The eight lines of a `<control>` block printed by an emitter. */
  lemma ControlLines(kv: map<string, string>)
    ensures var lines := Render(kv, SectionIndent, "control", ControlEntries);
      && |lines| == 8
      && lines[0] == Indent(3) + "<control>"
      && lines[1] == Indent(4) + Element("description", Lookup(kv, "description"))
      && lines[2] == Indent(4) + Element("group", Lookup(kv, "group"))
      && lines[3] == Indent(4) + Element("key", Lookup(kv, "key"))
      && lines[4] == Indent(4) + Element("status", Lookup(kv, "status"))
      && lines[5] == Indent(4) + Element("midino", Lookup(kv, "midino"))
      && lines[6] == Indent(4) + Element("options", Lookup(kv, "options"))
      && lines[7] == Indent(3) + "</control>"
  {
    assert OpenTag("control") == "<control>" && CloseTag("control") == "</control>";
    RenderLine(kv, SectionIndent, "control", ControlEntries, 0);
    RenderLine(kv, SectionIndent, "control", ControlEntries, 1);
    RenderLine(kv, SectionIndent, "control", ControlEntries, 2);
    RenderLine(kv, SectionIndent, "control", ControlEntries, 3);
    RenderLine(kv, SectionIndent, "control", ControlEntries, 4);
    RenderLine(kv, SectionIndent, "control", ControlEntries, 5);
  }

  /** The fields deck `i`'s play/pause block prints from. */
  lemma PlayPauseValues(kv: map<string, string>, i: int)
    requires 0 <= i < 16
    ensures var kv1 := DeckFields(PlayFields(kv), PlayDeck, i);
      && Lookup(kv1, "description") == GenDescription("D1", "Play/Pause", i + 1, "normal")
      && Lookup(kv1, "group") == ChannelGroup(i + 1)
      && Lookup(kv1, "key") == "play"
      && Lookup(kv1, "status") == "0x9" + [HexDigit(i)]
      && Lookup(kv1, "midino") == "0x0B"
      && Lookup(kv1, "options") == "<Toggled/>"
  {
    DeckFieldValues(PlayFields(kv), PlayDeck, i);
    PlayStatus(i);
  }

  /** Reverse roll: a control per deck, then an output per deck, both on status `0x90 + i`. */
  const ReverseRollDeck := DeckTemplate("status", 0x90, "D1", "shift Play/Pause", "reverse playback")

  function ReverseRollFields(kv: map<string, string>): map<string, string>
  {
    kv["key" := "reverseroll"]["midino" := "0x47"]["options" := "<Normal/>"]["minimum" := "0.5"]
  }

  /**
    Both loops print from the same deck tables, so the `n`-th output
    carries the same fields as the `n`-th control; the `on` and `off`
    values are whatever an earlier emitter left in the table.
   */
  method ReverseRoll(xc: XmlConfig, numDecks: int)
    modifies xc
    ensures xc.kv == AfterDecks(ReverseRollFields(old(xc.kv)), ReverseRollDeck, Iterations(numDecks))
    ensures xc.outSections == Appended(Appended(old(xc.outSections),
      "control", DeckFragments(ReverseRollFields(old(xc.kv)), SectionIndent, "control", ControlEntries, ReverseRollDeck, Iterations(numDecks))),
      "output", DeckFragments(ReverseRollFields(old(xc.kv)), SectionIndent, "output", OutputEntries, ReverseRollDeck, Iterations(numDecks)))
  {
    xc.kv := xc.kv["key" := "reverseroll"];
    xc.kv := xc.kv["midino" := "0x47"];
    xc.kv := xc.kv["options" := "<Normal/>"];
    xc.kv := xc.kv["minimum" := "0.5"];
    ghost var kv1 := xc.kv;
    PerDeckLoop(xc, SectionIndent, "control", ControlEntries, ReverseRollDeck, numDecks);
    PerDeckLoop(xc, SectionIndent, "output", OutputEntries, ReverseRollDeck, numDecks);
    DeckFragmentsRestart(kv1, SectionIndent, "output", OutputEntries, ReverseRollDeck, Iterations(numDecks), Iterations(numDecks));
    AfterDecksTwice(kv1, ReverseRollDeck, Iterations(numDecks));
  }

  lemma AfterDecksTwice(kv: map<string, string>, t: DeckTemplate, n: nat)
    ensures AfterDecks(AfterDecks(kv, t, n), t, n) == AfterDecks(kv, t, n)
  {
    if n > 0 {
      AfterDecksOverwrite(kv, t, n, n - 1);
    }
  }

  /** The crossfader: a single control on the master group. */
  function CrossfaderFields(kv: map<string, string>): map<string, string>
  {
    kv["description" := "Crossfader - slider M1"]["group" := "[Master]"]["key" := "crossfader"]
      ["status" := "0xB6"]["group" := "[Master]"]["midino" := "0x1F"]["options" := "<FourteenBitCC/><soft_takeover/>"]
  }

  method Crossfader(xc: XmlConfig)
    modifies xc
    ensures xc.kv == CrossfaderFields(old(xc.kv))
    ensures xc.outSections == old(xc.outSections)["control" := Bucket(old(xc.outSections), "control")
      + [Fragment(CrossfaderFields(old(xc.kv)), SectionIndent, "control", ControlEntries)]]
  {
    xc.kv := xc.kv["description" := "Crossfader - slider M1"];
    xc.kv := xc.kv["group" := "[Master]"];
    xc.kv := xc.kv["key" := "crossfader"];
    xc.kv := xc.kv["status" := "0xB6"];
    xc.kv := xc.kv["group" := "[Master]"];
    xc.kv := xc.kv["midino" := "0x1F"];
    xc.kv := xc.kv["options" := "<FourteenBitCC/><soft_takeover/>"];
    xc.Print(SectionIndent, "control", ControlEntries);
  }

  /**
    Whatever the table held before, the crossfader block names key
    `crossfader`, group `[Master]`, status `0xB6` and MIDI number `0x1F`.
   */
  lemma CrossfaderBlock(kv: map<string, string>)
    ensures var lines := Render(CrossfaderFields(kv), SectionIndent, "control", ControlEntries);
      && |lines| == 8
      && lines[2] == Indent(4) + Element("group", "[Master]")
      && lines[3] == Indent(4) + Element("key", "crossfader")
      && lines[4] == Indent(4) + Element("status", "0xB6")
      && lines[5] == Indent(4) + Element("midino", "0x1F")
  {
    var kv1 := CrossfaderFields(kv);
    assert Lookup(kv1, "group") == "[Master]" && Lookup(kv1, "key") == "crossfader";
    assert Lookup(kv1, "status") == "0xB6" && Lookup(kv1, "midino") == "0x1F";
    ControlLines(kv1);
  }
}
