# DDJ-GRV6 mapping generator: the XML block builder

`genxml-ddjgrv6.py` prints a controller-mapping XML file for the Pioneer
DDJ-GRV6 and the Mixxx DJ software. Its one piece of logic is the builder
`XmlConfig`:

- a mutable field table `kv` (field name to text);
- `dump`, which renders the table as a `<block>` element with one child line
  per requested field, in request order;
- `print` and `comment`, which append a rendered block or a raw line to an
  append-only bucket per block name (`out_sections`);
- `print_section`, which writes a bucket between `<names>` and `</names>`.

Around the builder sit the formatters `getIndent`, `hexfmt` and
`gen_description`. The section emitters set fields and print a block, mostly
inside `for i in range(num_decks)` loops. Most loops give deck `i` the group
`[Channel{i+1}]` and the status byte `hexfmt(base + i)`. The exceptions:

- The load-track loop (genxml-ddjgrv6.py:112-120) keeps the status `0x96` and
  numbers the MIDI number `hexfmt(0x46 + i)` instead.
- The three EQ loops set the group `[EqualizerRack1_[Channel{i+1}]_Effect1]`
  (lines 404, 413 and 422).
- The `super1` loop (lines 447-450) writes no per-deck status and no
  `[Channel…]` group.

The fields a loop does not write carry over from earlier blocks.

The Dafny model has five modules:

- `Wrappers`: an `Option` type.
- `Text`: Python's `join` and integer f-string formatting, with
  round-trip and injectivity lemmas. `Split`, which the generator does not
  call, is the inverse through which the lemmas state what a join produced.
- `Format`: `getIndent`, `hexfmt`, `int(s, 16)`, `gen_description` and the
  `[Channel{n}]` group name.
- `XmlBuilder`: the specification function `Render` and the class
  `XmlConfig`. `Print` and `Comment` reassign only its `outSections` field;
  its `kv` field is reassigned by the emitters in `Sections`. `Dump` builds
  its result with a loop.
- `Sections`: the per-deck loop as one method, `PerDeckLoop`. Five
  representative emitters are built on it or beside it: load track, shift,
  play/pause, reverse roll and the crossfader.

`dump` looks fields up with `kv.get`, so a requested field that was never
set prints as `None`; it is not an error. The only error the builder can
raise is in `print_section`, for a bucket that was never appended to. There
the `<names>` line has already been printed when `.get` returns `None` and
`'\n'.join(None)` raises. `PrintSection` returns that one line together with
a failure flag.

## Model

| member | source | states |
|---|---|---|
| Format.Spaces | genxml-ddjgrv6.py:12 | `' ' * n` has length `n` and holds only blanks |
| Format.Indent | genxml-ddjgrv6.py:11-12 | `getIndent(level)` is exactly `4*level` blanks for `level >= 0`, and empty for a negative level |
| Format.HexFmt | genxml-ddjgrv6.py:51-52 | `hexfmt(val)` starts with `0x` and has at least four characters; a `-` follows `0x` exactly when `val` is negative; every other character after `0x` is an upper-case hex digit |
| Format.ParseHexLiteral | genxml-ddjgrv6.py:119 | `int(s, 16)` never yields a negative value from these literals, and rejects an empty literal and a bare `0x` or `0X` |
| Format.ParseHexUnprefixed | genxml-ddjgrv6.py:119 | without a prefix, `int(s, 16)` reads a non-empty run of hex digits as it stands |
| Format.TwoDigitHex | genxml-ddjgrv6.py:119 | `int("0x" + hi + lo, 16)` is `16 * hi + lo` for two hex digits |
| Format.GenDescriptionLayout | genxml-ddjgrv6.py:54-55 | `gen_description` is `hwid`, a blank, `feature`, ` - Deck `, the deck number in decimal, ` - ` and `modus`, with the deck number exactly between ` - Deck ` and the final ` - ` |
| Format.ChannelGroupLayout | genxml-ddjgrv6.py:117 | the group name is `[Channel`, the deck number in decimal and `]` |
| Format.HexFmtByte | genxml-ddjgrv6.py:51-52 | for `0 <= val <= 255`, `hexfmt(val)` is `0x` followed by the upper-case high-nibble digit and the low-nibble digit: four characters |
| Format.HexFmtWide | genxml-ddjgrv6.py:51-52 | above 255 the width of 2 is exceeded: more than two digits follow `0x` |
| Format.HexFmtRoundTrip | genxml-ddjgrv6.py:51-52 | `int(hexfmt(val), 16)` is `val` for every non-negative `val`; for a negative `val` it is a parse failure (`0x-5`) |
| Format.HexFmtInjective | genxml-ddjgrv6.py:51-52 | distinct non-negative values get distinct `hexfmt` strings |
| Format.HexDigitsRoundTrip | genxml-ddjgrv6.py:52 | reading the `X`-formatted digits of `n` back as hex gives `n` |
| Format.LeadingZero | genxml-ddjgrv6.py:52 | the zero fill of `02` does not change the value the digits denote |
| Format.HexLiteralBody | genxml-ddjgrv6.py:119 | `int("0x" + body, 16)` reads `body` as hex digits when it is a non-empty run of them, and fails otherwise |
| Format.HexValueOfDigit | genxml-ddjgrv6.py:52 | each upper-case digit `hexfmt` writes is read back by `int(…, 16)` as its own value |
| Format.GenDescriptionInjective | genxml-ddjgrv6.py:54-55 | with hardware id, feature and mode fixed, different deck numbers give different descriptions |
| Format.ChannelGroupInjective | genxml-ddjgrv6.py:117 | different deck numbers give different `[Channel{n}]` group names |
| Text.NatToDecimal | genxml-ddjgrv6.py:117 | `f'{n}'` of a non-negative int is a non-empty run of decimal digits without a leading zero |
| Text.IntToDecimal | genxml-ddjgrv6.py:55 | `f'{n}'` of any int is non-empty, starts with `-` exactly when `n` is negative, and is decimal digits after that sign |
| Text.Join | genxml-ddjgrv6.py:34 | `sep.join(parts)` is empty for no parts, the part itself for one part, and always begins with the first part; `SplitJoinInverse` shows splitting gives the parts back |
| Text.DecimalRoundTrip | genxml-ddjgrv6.py:117 | the decimal digits of `n` denote `n` |
| Text.IntToDecimalInjective | genxml-ddjgrv6.py:55 | distinct integers render as distinct decimal strings |
| Text.DecimalHasNoBreaks | genxml-ddjgrv6.py:55 | a rendered deck number holds no blank and no line break |
| Text.Split | genxml-ddjgrv6.py:34 | the generator never calls `split`: this is Python's `s.split(c)`, the inverse through which the lemmas state what the join at line 34 produced; it always yields at least one piece |
| Text.SplitWithoutSeparator | genxml-ddjgrv6.py:34 | a string without the separator splits into itself alone |
| Text.SplitAround | genxml-ddjgrv6.py:34 | splitting `x + sep + y` splits `x` and `y` independently and concatenates the pieces |
| Text.JoinAppend | genxml-ddjgrv6.py:42 | joining a bucket with one more fragment appends a line break and that fragment to the joined text |
| Text.SplitJoin | genxml-ddjgrv6.py:42 | splitting a joined bucket yields the lines of each fragment, fragment by fragment in insertion order |
| Text.SplitJoinInverse | genxml-ddjgrv6.py:34 | for parts without a line break, splitting the `'\n'.join` gives the parts back |
| Text.SplitEachWithoutSeparator | genxml-ddjgrv6.py:42 | parts without the separator are their own pieces |
| XmlBuilder.FieldLinesAt | genxml-ddjgrv6.py:27-29 | one child line per requested field, in request order: line `k` is `<entries[k]>` + value + `</entries[k]>` |
| XmlBuilder.LookupUpdate | genxml-ddjgrv6.py:28-29 | `kv.get` after `kv[k] = v` reads `v` back at `k`, and reads every other key as before the write |
| XmlBuilder.Render | genxml-ddjgrv6.py:22-31 | the lines `dump` returns: `|entries| + 2` of them, the opening tag first and the closing tag last, both at `level+1` |
| XmlBuilder.Fragment | genxml-ddjgrv6.py:33-34 | the string `print` appends begins with the opening tag line of the dumped block |
| XmlBuilder.Appended | genxml-ddjgrv6.py:34-38 | appending to a `defaultdict(list)` bucket: the bucket `name` grows by exactly the fragments, in order; it exists afterwards exactly when it existed or something was appended; every other bucket is unchanged |
| XmlBuilder.RenderShape | genxml-ddjgrv6.py:22-31 | a dumped block has `|entries| + 2` lines: the opening tag at `level+1`, line `k+1` the `k`-th field at `level+2`, the closing tag at `level+1` last |
| XmlBuilder.RenderLine | genxml-ddjgrv6.py:27-29 | line `k+1` of a dump is the `k`-th requested field with its current value, or `None` |
| XmlBuilder.RenderFrame | genxml-ddjgrv6.py:27-29 | a dump depends on the table only through the requested fields |
| XmlBuilder.ElementInjective | genxml-ddjgrv6.py:29 | the text inside a `<key>…</key>` line is determined by the line |
| XmlBuilder.FragmentLines | genxml-ddjgrv6.py:32-34 | when names and values hold no line break, the appended fragment splits back into exactly the `|entries| + 2` dumped lines |
| XmlBuilder.AppendedOneMore | genxml-ddjgrv6.py:34 | appending fragments one by one to a bucket equals appending them all at once |
| XmlBuilder.XmlConfig.constructor | genxml-ddjgrv6.py:18-20 | a new builder has an empty field table and no buckets |
| XmlBuilder.XmlConfig.Dump | genxml-ddjgrv6.py:22-31 | returns `|entries| + 2` lines: first `getIndent(level+1)+"<block>"`, last `getIndent(level+1)+"</block>"`, line `k+1` `getIndent(level+2)+"<e>v</e>"` with the table's value, or `None` for an absent field; it changes nothing |
| XmlBuilder.XmlConfig.Print | genxml-ddjgrv6.py:32-34 | appends exactly one string, the dump joined by line breaks, to the end of bucket `block`; the table, earlier fragments and the other buckets are unchanged |
| XmlBuilder.XmlConfig.Comment | genxml-ddjgrv6.py:37-38 | appends exactly `getIndent(level) + text` to bucket `block`; nothing else changes |
| XmlBuilder.XmlConfig.PrintSection | genxml-ddjgrv6.py:40-43 | the `<names>` line at `level` is always printed first. It fails exactly when the bucket was never created, and then that line is all that was printed. Otherwise two more strings follow: the bucket's fragments joined in insertion order (their lines concatenated in order), and `</names>` |
| Sections.DeckFieldsOverwrite | genxml-ddjgrv6.py:139-143 | a deck's three assignments overwrite everything an earlier deck's assignments wrote |
| Sections.AfterDecksOverwrite | genxml-ddjgrv6.py:139-143 | `AfterDecks`, the table after `n` passes, is the last deck's table: a pass over the table left by earlier passes gives the same table as a pass over the original table |
| Sections.AfterDecksTwice | genxml-ddjgrv6.py:168-177 | running the same loop twice leaves the table as running it once |
| Sections.DeckFragmentsAt | genxml-ddjgrv6.py:139-143 | `n` passes append exactly `n` fragments, the `i`-th rendered from the pre-loop table with deck `i`'s group, description and hex field |
| Sections.DeckFragments | genxml-ddjgrv6.py:139-143 | `n` passes of the loop append exactly `n` fragments |
| Sections.DeckFragmentsRestart | genxml-ddjgrv6.py:168-177 | a second loop with the same template appends the same fragments as if it had run on the table before the first loop |
| Sections.DeckFieldValues | genxml-ddjgrv6.py:139-143 | the table `DeckFields` gives deck `i` after the three writes of the loop body: deck `i` prints group `[Channel{i+1}]`, description `gen_description(…, i+1, …)` and `hexfmt(base+i)`; every other field carries over unchanged |
| Sections.DeckBlockLine | genxml-ddjgrv6.py:139-143 | line `k+1` of deck `i`'s block shows deck `i`'s value for a written field and the carried-over value for any other requested field |
| Sections.DeckBlocksDistinct | genxml-ddjgrv6.py:139-143 | the blocks of two different decks differ whenever the group is printed |
| Sections.PerDeckLoop | genxml-ddjgrv6.py:139-143 | the loop appends exactly `num_decks` fragments (none for a negative count), deck 0 first; other buckets are untouched; the table ends as the last deck left it |
| Sections.HexBasesParse | genxml-ddjgrv6.py:119 | the literals `"0x46"`, `"0x90"` and `"0xB0"` read by `int(…, 16)` are 0x46, 0x90 and 0xB0 |
| Sections.ControlLines | genxml-ddjgrv6.py:22-31 | a `<control>` block printed at the emitters' indent level has eight lines: `<control>` at 12 blanks, the six fields at 16 blanks in the order description, group, key, status, MIDI number, options, each showing its current value or `None`, and `</control>` |
| Sections.LoadTrack | genxml-ddjgrv6.py:112-120 | after setting status, MIDI number, key and options, one load-track control per deck is appended, with MIDI number `hexfmt(0x46+i)` |
| Sections.ShiftPressed | genxml-ddjgrv6.py:136-143 | after setting key, MIDI number and options, one shift control per deck is appended, with status `hexfmt(0x90+i)` |
| Sections.PlayPause | genxml-ddjgrv6.py:146-155 | after setting key, MIDI number, options, on and off, one play/pause control per deck is appended, with status `hexfmt(0x90+i)` |
| Sections.PlayPauseFourDecks | genxml-ddjgrv6.py:146-155 | on a new builder with `main`'s deck count 4, the play/pause emitter leaves exactly one bucket, `control`, holding exactly four fragments, the `i`-th rendered from deck `i`'s table |
| Sections.PlayStatus | genxml-ddjgrv6.py:154 | for deck `i < 16` the play status is `0x9` followed by the digit of `i` (`0x90`…`0x93` for four decks) |
| Sections.PlayPauseValues | genxml-ddjgrv6.py:146-155 | deck `i`'s play/pause table holds the deck's description, group and status `0x9`+digit, and the carried-over key `play`, MIDI number `0x0B` and options `<Toggled/>` |
| Sections.PlayPauseBlock | genxml-ddjgrv6.py:146-155 | deck `i`'s play block has eight lines: the deck's description and group `[Channel{i+1}]`, status `0x9`+digit, and the carried-over key `play`, MIDI number `0x0B` and options `<Toggled/>` |
| Sections.ReverseRoll | genxml-ddjgrv6.py:164-177 | appends one reverse-roll control per deck and then one output per deck (fields plus `on`/`off`), both from the same deck tables |
| Sections.Crossfader | genxml-ddjgrv6.py:358-366 | makes the seven crossfader writes to six fields (`group` is written twice, at 359 and 362) and appends one control block |
| Sections.CrossfaderBlock | genxml-ddjgrv6.py:358-366 | whatever the table held before, the crossfader block prints group `[Master]`, key `crossfader`, status `0xB6` and MIDI number `0x1F` |

## Left out

- `section_header` and `section_footer` (genxml-ddjgrv6.py:57-79) are fixed text with a `datetime.now()` stamp printed to standard output. There is no logic in them to model.
- `main` (genxml-ddjgrv6.py:495-506) calls the emitters and the renderers in a fixed order and is not modelled.
- XmlBuilder.XmlConfig.PrintSection: it returns the strings that the source passes to `print`, including the opening line printed before the `TypeError`, and a flag for that error. It does not model writing them to standard output or the exception propagating out of `main`.
- The composition of `section_browsing`, `section_deck` and `section_mixer` (genxml-ddjgrv6.py:81-122, 125-343, 348-489) is not modelled as whole functions. Their banner `comment` calls (83-87, 127-131, 350-354) and the single comment lines (122, 205, 254, 256, 271) are literal text appended by `Comment`. The single blocks they print (90-110, 427-441, 471-489) are literal field writes followed by `Print`; `Crossfader` (358-366) is the one modelled.
- The other loops with one `print` per pass that write only the group, the description and one `hexfmt` field (192-201, 209-319, 369-376) have the shape of `PerDeckLoop` with other templates. They are not instantiated one by one.
- The pregain loop (392-398) and the three EQ loops (401-407, 410-416, 419-425) are not modelled. They write `midino` and `options` inside the loop body as well, five writes per pass, so with `num_decks <= 0` those two fields are not written at all. The EQ loops also set the group to `[EqualizerRack1_[Channel{i+1}]_Effect1]`, which `DeckFields` does not produce: it always writes `[Channel{i+1}]`.
- The loops that print twice per deck (182-187, 325-343, 384-389), the loops over fixed counts 14 and 12 (458-469) and the `super1` loop (443-450) are not modelled. The `super1` loop's uninterpolated `{i+1}` is therefore not reproduced here.
- `ParseHexLiteral` models `int(s, 16)` only for the literals the source passes: an optional `0x`/`0X` prefix followed by hex digits. It does not model surrounding whitespace, a sign or `_` separators, which Python also accepts.
- `defaultdict(list)`: a bucket comes into existence when it is first appended to, modelled by `Bucket` and `Appended`. Python's other ways of creating a key (reading `out_sections[name]`) are not used by the source and are not modelled.
- Python strings are modelled as Dafny `string` (sequences of characters), with no encoding.
