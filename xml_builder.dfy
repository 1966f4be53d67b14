/**
  The block builder `XmlConfig`: a mutable field table `kv` and the
  per-block-name buckets `out_sections` into which rendered `<control>` and
  `<output>` fragments and raw comment lines are appended.
 */
module XmlBuilder {
  import opened Text
  import opened Format

  /** `kv.get(key)` rendered by an f-string: a missing field prints as `None`. */
  function Lookup(kv: map<string, string>, key: string): string
  {
    if key in kv then kv[key] else "None"
  }

  /**
    What the emitters rely on between two prints: a field just written reads
    back as written, and writing one field leaves every other field's
    reading as it was.
   */
  lemma LookupUpdate(kv: map<string, string>, k: string, v: string, other: string)
    ensures Lookup(kv[k := v], k) == v
    ensures other != k ==> Lookup(kv[k := v], other) == Lookup(kv, other)
  {
  }

  /** `<tag>text</tag>`. */
  function Element(tag: string, text: string): string
  {
    "<" + tag + ">" + text + "</" + tag + ">"
  }

  function OpenTag(name: string): string
  {
    "<" + name + ">"
  }

  function CloseTag(name: string): string
  {
    "</" + name + ">"
  }

  /** One child line per requested field, indented by `ident`, in request order. */
  function FieldLines(kv: map<string, string>, ident: string, entries: seq<string>): (r: seq<string>)
    ensures |r| == |entries|
  {
    if entries == [] then []
    else [ident + Element(entries[0], Lookup(kv, entries[0]))] + FieldLines(kv, ident, entries[1..])
  }

  /** The lines `dump(level, block, entries)` returns. */
  function Render(kv: map<string, string>, level: int, block: string, entries: seq<string>): (r: seq<string>)
    ensures |r| == |entries| + 2
    ensures r[0] == Indent(level + 1) + OpenTag(block)
    ensures r[|entries| + 1] == Indent(level + 1) + CloseTag(block)
  {
    [Indent(level + 1) + OpenTag(block)]
    + FieldLines(kv, Indent(level + 2), entries)
    + [Indent(level + 1) + CloseTag(block)]
  }

  /** The string `print` appends: the rendered lines joined by line breaks. */
  function Fragment(kv: map<string, string>, level: int, block: string, entries: seq<string>): (r: string)
    ensures Indent(level + 1) + OpenTag(block) <= r
  {
    Join(Render(kv, level, block, entries), "\n")
  }

  /** A bucket of the `defaultdict(list)`: a name never appended to reads as empty. */
  function Bucket(sections: map<string, seq<string>>, name: string): seq<string>
  {
    if name in sections then sections[name] else []
  }

  /**
    The buckets after appending `frags` to the bucket `name` one by one;
    appending nothing leaves even a never-used name absent.
   */
  function Appended(sections: map<string, seq<string>>, name: string, frags: seq<string>): (r: map<string, seq<string>>)
    ensures Bucket(r, name) == Bucket(sections, name) + frags
    ensures name in r <==> name in sections || frags != []
    ensures forall other :: other != name ==> Bucket(r, other) == Bucket(sections, other)
  {
    if frags == [] then sections else sections[name := Bucket(sections, name) + frags]
  }

  lemma AppendedOneMore(sections: map<string, seq<string>>, name: string, frags: seq<string>, x: string)
    ensures var s := Appended(sections, name, frags);
      s[name := Bucket(s, name) + [x]] == Appended(sections, name, frags + [x])
  {
    if frags != [] {
      assert Bucket(sections, name) + frags + [x] == Bucket(sections, name) + (frags + [x]);
    } else {
      assert frags + [x] == [x];
    }
  }

  lemma {:induction false} FieldLinesAt(kv: map<string, string>, ident: string, entries: seq<string>)
    ensures |FieldLines(kv, ident, entries)| == |entries|
    ensures forall k :: 0 <= k < |entries| ==>
      FieldLines(kv, ident, entries)[k] == ident + Element(entries[k], Lookup(kv, entries[k]))
  {
    if entries != [] {
      FieldLinesAt(kv, ident, entries[1..]);
      var rest := FieldLines(kv, ident, entries[1..]);
      forall k | 1 <= k < |entries|
        ensures FieldLines(kv, ident, entries)[k] == ident + Element(entries[k], Lookup(kv, entries[k]))
      {
        assert FieldLines(kv, ident, entries)[k] == rest[k - 1];
        assert entries[1..][k - 1] == entries[k];
      }
    }
  }

  /**
    The layout of a dumped block: `|entries| + 2` lines, the opening tag one
    level deeper than `level`, one child line per requested field two levels
    deeper and in request order, and the closing tag last.
   */
  lemma RenderShape(kv: map<string, string>, level: int, block: string, entries: seq<string>)
    ensures var lines := Render(kv, level, block, entries);
      && |lines| == |entries| + 2
      && lines[0] == Indent(level + 1) + OpenTag(block)
      && lines[|entries| + 1] == Indent(level + 1) + CloseTag(block)
      && forall k :: 0 <= k < |entries| ==>
           lines[k + 1] == Indent(level + 2) + Element(entries[k], Lookup(kv, entries[k]))
  {
    FieldLinesAt(kv, Indent(level + 2), entries);
  }

  /** One child line of a dumped block. */
  lemma RenderLine(kv: map<string, string>, level: int, block: string, entries: seq<string>, k: nat)
    requires k < |entries|
    ensures |Render(kv, level, block, entries)| == |entries| + 2
    ensures Render(kv, level, block, entries)[k + 1] == Indent(level + 2) + Element(entries[k], Lookup(kv, entries[k]))
  {
    RenderShape(kv, level, block, entries);
  }

  /** The text of an element is determined by the element. */
  lemma ElementInjective(tag: string, a: string, b: string)
    requires Element(tag, a) == Element(tag, b)
    ensures a == b
  {
    var n := |tag| + 2;
    assert Element(tag, a)[n..n + |a|] == a;
    assert Element(tag, b)[n..n + |b|] == b;
  }

  /** A block reads the table only at the requested fields. */
  lemma RenderFrame(kv: map<string, string>, kv': map<string, string>, level: int, block: string, entries: seq<string>)
    requires forall k :: 0 <= k < |entries| ==> Lookup(kv, entries[k]) == Lookup(kv', entries[k])
    ensures Render(kv, level, block, entries) == Render(kv', level, block, entries)
  {
    FieldLinesAt(kv, Indent(level + 2), entries);
    FieldLinesAt(kv', Indent(level + 2), entries);
  }

  /** A text with no line break inside it. */
  predicate OneLine(s: string)
  {
    '\n' !in s
  }

  /**
    When the block name, the field names and their values hold no line
    break, splitting the appended fragment at line breaks gives back exactly
    the dumped lines, `|entries| + 2` of them.
   */
  lemma FragmentLines(kv: map<string, string>, level: int, block: string, entries: seq<string>)
    requires OneLine(block)
    requires forall k :: 0 <= k < |entries| ==> OneLine(entries[k]) && OneLine(Lookup(kv, entries[k]))
    ensures Split(Fragment(kv, level, block, entries), '\n') == Render(kv, level, block, entries)
    ensures |Split(Fragment(kv, level, block, entries), '\n')| == |entries| + 2
  {
    var lines := Render(kv, level, block, entries);
    RenderShape(kv, level, block, entries);
    IndentHasNoBreak(level + 1);
    IndentHasNoBreak(level + 2);
    forall i | 0 <= i < |lines| ensures '\n' !in lines[i] {
      NoBreakElement(block, "");
      if i == 0 {
        NoBreakAppend(Indent(level + 1), OpenTag(block));
      } else if i == |entries| + 1 {
        NoBreakAppend(Indent(level + 1), CloseTag(block));
      } else {
        var key := entries[i - 1];
        NoBreakElement(key, Lookup(kv, key));
        NoBreakAppend(Indent(level + 2), Element(key, Lookup(kv, key)));
      }
    }
    SplitJoinInverse(lines, '\n');
  }

  lemma NoBreakAppend(a: string, b: string)
    requires '\n' !in a && '\n' !in b
    ensures '\n' !in a + b
  {
    forall j | 0 <= j < |a + b| ensures (a + b)[j] != '\n' {
      if j < |a| { assert (a + b)[j] == a[j]; } else { assert (a + b)[j] == b[j - |a|]; }
    }
  }

  lemma NoBreakElement(tag: string, text: string)
    requires '\n' !in tag && '\n' !in text
    ensures '\n' !in Element(tag, text) && '\n' !in OpenTag(tag) && '\n' !in CloseTag(tag)
  {
    NoBreakAppend("<", tag);
    NoBreakAppend("<" + tag, ">");
    NoBreakAppend("</", tag);
    NoBreakAppend("</" + tag, ">");
    NoBreakAppend("<" + tag + ">", text);
    NoBreakAppend("<" + tag + ">" + text, "</");
    NoBreakAppend("<" + tag + ">" + text + "</", tag);
    NoBreakAppend("<" + tag + ">" + text + "</" + tag, ">");
  }

  /**
    The serialiser. `kv` is the shared field table the emitters overwrite
    field by field; `outSections` maps a block name to its append-only
    bucket of fragments.
   */
  class XmlConfig {
    var kv: map<string, string>
    var outSections: map<string, seq<string>>

    constructor ()
      ensures kv == map[] && outSections == map[]
    {
      kv := map[];
      outSections := map[];
    }

    /**
      `dump`: renders the current table as a `<block>` element. It only
      reads `kv`; a requested field that is absent renders as `None`.
     */
    method Dump(level: int, block: string, entries: seq<string>) returns (result: seq<string>)
      ensures |result| == |entries| + 2
      ensures result[0] == Indent(level + 1) + OpenTag(block)
      ensures result[|entries| + 1] == Indent(level + 1) + CloseTag(block)
      ensures forall k :: 0 <= k < |entries| && entries[k] in kv ==>
        result[k + 1] == Indent(level + 2) + Element(entries[k], kv[entries[k]])
      ensures forall k :: 0 <= k < |entries| && entries[k] !in kv ==>
        result[k + 1] == Indent(level + 2) + Element(entries[k], "None")
      ensures result == Render(kv, level, block, entries)
    {
      result := [Indent(level + 1) + OpenTag(block)];
      var ident := Indent(level + 2);
      var i := 0;
      while i < |entries|
        invariant 0 <= i <= |entries|
        invariant |result| == i + 1
        invariant result[0] == Indent(level + 1) + OpenTag(block)
        invariant forall k :: 0 <= k < i ==> result[k + 1] == ident + Element(entries[k], Lookup(kv, entries[k]))
      {
        var key := entries[i];
        result := result + [ident + Element(key, Lookup(kv, key))];
        i := i + 1;
      }
      ghost var body := result;
      result := result + [Indent(level + 1) + CloseTag(block)];
      RenderShape(kv, level, block, entries);
      ghost var expected := Render(kv, level, block, entries);
      forall k | 0 <= k < |result| ensures result[k] == expected[k] {
        if 0 < k <= |entries| {
          var j := k - 1;
          assert result[k] == body[j + 1] == ident + Element(entries[j], Lookup(kv, entries[j]));
          assert expected[j + 1] == Indent(level + 2) + Element(entries[j], Lookup(kv, entries[j]));
        } else if k == 0 {
          assert result[0] == body[0];
        }
      }
    }

    /**
      `print`: appends exactly one fragment, the dump joined by line breaks,
      to the end of the bucket named `block`. Earlier fragments of that
      bucket, every other bucket and the field table stay as they were.
     */
    method Print(level: int, block: string, entries: seq<string>)
      modifies this
      ensures kv == old(kv)
      ensures outSections == old(outSections)[block := Bucket(old(outSections), block) + [Fragment(kv, level, block, entries)]]
      ensures forall name :: name != block ==> Bucket(outSections, name) == Bucket(old(outSections), name)
    {
      var lines := Dump(level, block, entries);
      outSections := outSections[block := Bucket(outSections, block) + [Join(lines, "\n")]];
    }

    /**
      `comment`: appends the indented text as one raw line to the bucket
      named `block`; nothing else changes.
     */
    method Comment(level: int, block: string, text: string)
      modifies this
      ensures kv == old(kv)
      ensures outSections == old(outSections)[block := Bucket(old(outSections), block) + [Indent(level) + text]]
      ensures forall name :: name != block ==> Bucket(outSections, name) == Bucket(old(outSections), name)
    {
      outSections := outSections[block := Bucket(outSections, block) + [Indent(level) + text]];
    }

    /**
      `print_section`: the lines written to standard output. The `<names>`
      opening line is written first. For a name that was never appended to,
      `.get` returns `None` and the join raises, so that line is all that
      was written and `failed` is set. Otherwise the bucket's fragments,
      joined in insertion order, and the `</names>` closing line follow.
     */
    method PrintSection(level: int, name: string) returns (printed: seq<string>, failed: bool)
      ensures failed <==> name !in outSections
      ensures |printed| >= 1 && printed[0] == Indent(level) + OpenTag(name + "s")
      ensures failed ==> printed == [Indent(level) + OpenTag(name + "s")]
      ensures !failed ==> |printed| == 3
      ensures !failed ==> printed[1] == Join(outSections[name], "\n")
      ensures !failed && outSections[name] != [] ==>
        Split(printed[1], '\n') == SplitEach(outSections[name], '\n')
      ensures !failed ==> printed[2] == Indent(level) + CloseTag(name + "s")
    {
      printed := [Indent(level) + OpenTag(name + "s")];
      if name !in outSections {
        return printed, true;
      }
      var body := Join(outSections[name], "\n");
      if |outSections[name]| > 0 {
        SplitJoin(outSections[name], '\n');
      }
      printed := printed + [body, Indent(level) + CloseTag(name + "s")];
      failed := false;
    }
  }
}
