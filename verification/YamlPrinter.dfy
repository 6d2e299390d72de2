/** The installer's printer as it runs: recursive, building a local list of strings. */
module YamlPrinter {
  import opened Yaml
  import opened YamlText

  // ---- one step of each loop ----

  lemma RenderAppend(a: seq<Line>, b: seq<Line>)
    ensures RenderAll(a + b) == RenderAll(a) + RenderAll(b)
  {
    hide Render;
  }

  lemma {:induction false} EntryBlocksLast(entries: seq<Entry>, e: Entry, k: nat)
    ensures EntryBlocks(entries + [e], k) == EntryBlocks(entries, k) + EntryBlock(e, k)
    decreases entries
  {
    hide EntryBlock;
    if entries == [] {
      assert [e][1..] == [];
      assert [] + [e] == [e];
    } else {
      assert (entries + [e])[1..] == entries[1..] + [e];
      EntryBlocksLast(entries[1..], e, k);
    }
  }

  lemma {:induction false} ItemBlocksLast(items: seq<Value>, item: Value, k: nat)
    ensures ItemBlocks(items + [item], k) == ItemBlocks(items, k) + ItemBlock(item, k)
    decreases items
  {
    hide ItemBlock;
    if items == [] {
      assert [item][1..] == [];
      assert [] + [item] == [item];
    } else {
      assert (items + [item])[1..] == items[1..] + [item];
      ItemBlocksLast(items[1..], item, k);
    }
  }

  lemma JoinCongruent(a: seq<string>, b: seq<string>, c: seq<string>)
    requires Join(a) == Join(b) && (a == [] <==> b == []) && c != []
    ensures Join(a + c) == Join(b + c)
  {
    if a != [] {
      JoinAppend(a, c);
      JoinAppend(b, c);
    }
  }

  /** The strings appended for an entry. */
  function EntryStrings(e: Entry, k: nat): (r: seq<string>)
    ensures r != []
  {
    if IsBlock(e.value) then [Spaces(k) + e.key + ":", Printed(e.value, k + 2)]
    else [Spaces(k) + e.key + ": " + ValueText(e.value)]
  }

  /** Appending an entry's strings, its nested text as one of them, prints its block. */
  lemma EntryStep(lines: seq<string>, entries: seq<Entry>, e: Entry, k: nat)
    requires Join(lines) == Join(RenderAll(EntryBlocks(entries, k)))
    requires lines == [] <==> entries == []
    ensures Join(lines + EntryStrings(e, k)) == Join(RenderAll(EntryBlocks(entries + [e], k)))
  {
    assert lines == [] <==> RenderAll(EntryBlocks(entries, k)) == [];
    hide EntryBlock, EntryBlocks, Block, Join, RenderAll, Spaces, ValueText, IsBlock;
    var done, block := RenderAll(EntryBlocks(entries, k)), RenderAll(EntryBlock(e, k));
    EntryBlocksLast(entries, e, k);
    RenderAppend(EntryBlocks(entries, k), EntryBlock(e, k));
    JoinCongruent(lines, done, block);
    EntryLines(e, k);
    EntryJoins(lines, e, k);
  }

  /** An entry's strings join like its lines. */
  lemma EntryJoins(lines: seq<string>, e: Entry, k: nat)
    ensures Join(lines + EntryStrings(e, k)) == Join(lines + RenderAll(EntryBlock(e, k)))
  {
    EntryLines(e, k);
    hide EntryBlock, Join, RenderAll, Spaces, ValueText;
    if IsBlock(e.value) {
      var head, nested := Spaces(k) + e.key + ":", RenderAll(Block(e.value, k + 2));
      JoinNested(lines + [head], nested);
      assert lines + [head] + nested == lines + RenderAll(EntryBlock(e, k));
      assert lines + [head] + [Join(nested)] == lines + EntryStrings(e, k);
    }
  }

  lemma EntryLines(e: Entry, k: nat)
    ensures RenderAll(EntryBlock(e, k))
         == if IsBlock(e.value) then [Spaces(k) + e.key + ":"] + RenderAll(Block(e.value, k + 2))
            else EntryStrings(e, k)
  {
    hide Block, Spaces;
    if IsBlock(e.value) {
      assert Spaces(k) + (e.key + ":") == Spaces(k) + e.key + ":";
    } else {
      assert Spaces(k) + (e.key + ": " + ValueText(e.value)) == Spaces(k) + e.key + ": " + ValueText(e.value);
    }
  }

  /** The first nested line, stripped, goes behind the dash; the others stand where they are. */
  lemma NestedItem(item: Value, k: nat)
    requires IsBlock(item) && Printable(item)
    ensures var nested := SplitLines(Printed(item, k + 2));
      nested != [] && RenderAll(ItemBlock(item, k)) == [Spaces(k) + "- " + LStrip(nested[0])] + nested[1..]
  {
    hide Block, Printable, SplitLines, Spaces, LStrip;
    var block := Block(item, k + 2);
    LinesOfText(item, k + 2);
    var nested := SplitLines(Printed(item, k + 2));
    assert ReadLine(nested[0]) == block[0];
    assert Spaces(k) + ("- " + block[0].content) == Spaces(k) + "- " + LStrip(nested[0]);
  }

  lemma PlainItem(item: Value, k: nat)
    requires !IsBlock(item)
    ensures RenderAll(ItemBlock(item, k)) == [Spaces(k) + "- " + ItemToken(item)]
  {
    hide Spaces;
    assert Spaces(k) + ("- " + ItemToken(item)) == Spaces(k) + "- " + ItemToken(item);
  }

  lemma NothingAndScalar(data: Value, k: nat)
    ensures RenderAll(EntryBlocks([], k)) == [] && RenderAll(ItemBlocks([], k)) == []
    ensures data.Scalar? ==> Printed(data, k) == Spaces(k) + data.token
  {
    if data.Scalar? {
      assert RenderAll(Block(data, k)) == [Spaces(k) + data.token];
    }
  }

  // ---- the printer ----

  method YamlDump(data: Value, indent: nat) returns (text: string)
    requires Printable(data)
    ensures text == Printed(data, indent)
    decreases data
  {
    NothingAndScalar(data, indent);
    hide EntryBlock, EntryBlocks, ItemBlock, ItemBlocks, Join, RenderAll, Spaces, SplitLines, LStrip;
    var pad := Spaces(indent);
    match data
    case Scalar(token) =>
      text := pad + token;
    case Dict(entries) =>
      var lines: seq<string> := [];
      for i := 0 to |entries|
        invariant lines == [] <==> i == 0
        invariant Join(lines) == Join(RenderAll(EntryBlocks(entries[..i], indent)))
      {
        var e := entries[i];
        ghost var before := lines;
        EntryStep(before, entries[..i], e, indent);
        assert entries[..i] + [e] == entries[..i + 1];
        match e.value
        case Scalar(token) =>
          lines := lines + [pad + e.key + ": " + token];
        case Dict(nested) =>
          if nested != [] {
            lines := lines + [pad + e.key + ":"];
            var inner := YamlDump(e.value, indent + 2);
            lines := lines + [inner];
            assert lines == before + [pad + e.key + ":", inner];
          } else {
            lines := lines + [pad + e.key + ": {}"];
            assert pad + e.key + ": {}" == pad + e.key + ": " + "{}";
          }
        case List(nested) =>
          if nested != [] {
            lines := lines + [pad + e.key + ":"];
            var inner := YamlDump(e.value, indent + 2);
            lines := lines + [inner];
            assert lines == before + [pad + e.key + ":", inner];
          } else {
            lines := lines + [pad + e.key + ": []"];
            assert pad + e.key + ": []" == pad + e.key + ": " + "[]";
          }
        assert lines == before + EntryStrings(e, indent);
      }
      assert entries[..|entries|] == entries;
      text := Join(lines);
    case List(items) =>
      var lines: seq<string> := [];
      for i := 0 to |items|
        invariant lines == RenderAll(ItemBlocks(items[..i], indent))
      {
        var item := items[i];
        ItemBlocksLast(items[..i], item, indent);
        assert items[..i] + [item] == items[..i + 1];
        RenderAppend(ItemBlocks(items[..i], indent), ItemBlock(item, indent));
        if IsBlock(item) {
          var inner := YamlDump(item, indent + 2);
          NestedItem(item, indent);
          ghost var before := lines;
          var nested := SplitLines(inner);
          lines := lines + [pad + "- " + LStrip(nested[0])];
          lines := lines + nested[1..];
          assert lines == before + ([pad + "- " + LStrip(nested[0])] + nested[1..]);
        } else {
          PlainItem(item, indent);
          lines := lines + [pad + "- " + ItemToken(item)];
        }
      }
      assert items[..|items|] == items;
      text := Join(lines);
  }
}
