/** The printer's text, one entry or item at a time, without the line form that computes it. */
module YamlContracts {
  import opened Yaml
  import opened YamlText
  import opened YamlPrinter

  lemma ScalarText(t: string, k: nat)
    ensures Printed(Scalar(t), k) == Spaces(k) + t
  {
    NothingAndScalar(Scalar(t), k);
  }

  lemma EmptyText(k: nat)
    ensures Printed(Dict([]), k) == "" && Printed(List([]), k) == ""
  {
    NothingAndScalar(Dict([]), k);
  }

  /** What stands before a further entry or item. */
  function Before(empty: bool, printed: string): string {
    if empty then "" else printed + "\n"
  }

  /** An entry is its key, a colon, and the value: on the line, or as a block two columns further right. */
  lemma EntryText(entries: seq<Entry>, e: Entry, k: nat)
    ensures Printed(Dict(entries + [e]), k)
         == Before(entries == [], Printed(Dict(entries), k)) + (Spaces(k) + e.key +
            match e.value {
              case Scalar(t) => ": " + t
              case Dict(nested) => if nested == [] then ": {}" else ":\n" + Printed(e.value, k + 2)
              case List(nested) => if nested == [] then ": []" else ":\n" + Printed(e.value, k + 2)
            })
  {
    var lines := RenderAll(EntryBlocks(entries, k));
    assert Join([]) == "" && (lines == [] <==> entries == []);
    assert Printed(Dict(entries), k) == Join(lines);
    assert Printed(Dict(entries + [e]), k) == Join(RenderAll(EntryBlocks(entries + [e], k)));
    hide RenderAll, EntryBlock, EntryBlocks, Spaces, Printed, EntryStrings, Join;
    EntryStep(lines, entries, e, k);
    JoinBefore(lines, EntryStrings(e, k));
    EntryStringsText(e, k);
  }

  lemma JoinBefore(lines: seq<string>, more: seq<string>)
    requires more != []
    ensures Join(lines + more) == Before(lines == [], Join(lines)) + Join(more)
  {
    if lines == [] {
      assert lines + more == more;
    } else {
      JoinAppend(lines, more);
    }
  }

  lemma EntryStringsText(e: Entry, k: nat)
    ensures Join(EntryStrings(e, k))
         == Spaces(k) + e.key +
            match e.value {
              case Scalar(t) => ": " + t
              case Dict(nested) => if nested == [] then ": {}" else ":\n" + Printed(e.value, k + 2)
              case List(nested) => if nested == [] then ": []" else ":\n" + Printed(e.value, k + 2)
            }
  {
    hide Printed, Spaces;
    var head := Spaces(k) + e.key;
    assert Join([head + ":", Printed(e.value, k + 2)]) == head + ":" + "\n" + Printed(e.value, k + 2);
    assert head + ":" + "\n" + Printed(e.value, k + 2) == head + (":\n" + Printed(e.value, k + 2));
    assert e.value.Scalar? ==> head + ": " + e.value.token == head + (": " + e.value.token);
  }

  /** An item is a dash and the scalar, quoted brackets, or a block that starts behind the dash. */
  lemma ItemText(items: seq<Value>, item: Value, k: nat)
    ensures IsBlock(item) ==> |Printed(item, k + 2)| >= k + 2
    ensures Printed(List(items + [item]), k)
         == Before(items == [], Printed(List(items), k)) + (Spaces(k) + "- " +
            match item {
              case Scalar(t) => t
              case Dict(entries) => if entries == [] then "\"{}\"" else Printed(item, k + 2)[k + 2..]
              case List(nested) => if nested == [] then "\"[]\"" else Printed(item, k + 2)[k + 2..]
            })
  {
    ItemBlocksText(items, item, k);
    hide RenderAll, ItemBlock, Spaces, Join, Printed, Block;
    if IsBlock(item) {
      NestedText(item, k);
    } else {
      PlainItem(item, k);
      JoinOne(Spaces(k) + "- " + ItemToken(item));
    }
  }

  lemma ItemBlocksText(items: seq<Value>, item: Value, k: nat)
    ensures Printed(List(items + [item]), k)
         == Before(items == [], Printed(List(items), k)) + Join(RenderAll(ItemBlock(item, k)))
  {
    var lines := RenderAll(ItemBlocks(items, k));
    assert Join([]) == "" && (lines == [] <==> items == []);
    hide RenderAll, ItemBlock, ItemBlocks, Join;
    ItemBlocksLast(items, item, k);
    RenderAppend(ItemBlocks(items, k), ItemBlock(item, k));
    JoinBefore(lines, RenderAll(ItemBlock(item, k)));
  }

  lemma JoinOne(line: string)
    ensures Join([line]) == line
  {
  }

  lemma NestedText(item: Value, k: nat)
    requires IsBlock(item)
    ensures |Printed(item, k + 2)| >= k + 2
    ensures Join(RenderAll(ItemBlock(item, k))) == Spaces(k) + "- " + Printed(item, k + 2)[k + 2..]
  {
    var nested := Block(item, k + 2);
    var first, rest := nested[0].content, RenderAll(nested[1..]);
    NestedLines(item, k);
    hide RenderAll, ItemBlock, Block, Spaces, Join;
    JoinHead(Spaces(k + 2), first, rest);
    JoinHead(Spaces(k), "- " + first, rest);
    JoinHead("- ", first, rest);
    assert Printed(item, k + 2) == Spaces(k + 2) + Join([first] + rest);
    assert Printed(item, k + 2)[k + 2..] == Join([first] + rest);
    assert Spaces(k) + ("- " + Join([first] + rest)) == Spaces(k) + "- " + Join([first] + rest);
  }

  lemma NestedLines(item: Value, k: nat)
    requires IsBlock(item)
    ensures var nested := Block(item, k + 2);
            && nested != []
            && RenderAll(nested) == [Spaces(k + 2) + nested[0].content] + RenderAll(nested[1..])
            && RenderAll(ItemBlock(item, k)) == [Spaces(k) + ("- " + nested[0].content)] + RenderAll(nested[1..])
  {
    var nested := Block(item, k + 2);
    assert nested == [nested[0]] + nested[1..] && nested[0].indent == k + 2;
    var head := Line(k, "- " + nested[0].content);
    assert ItemBlock(item, k) == [head] + nested[1..];
    hide Block, ItemBlock, RenderAll, Spaces;
    RenderHead(nested[0], nested[1..]);
    RenderHead(head, nested[1..]);
  }

  lemma RenderHead(line: Line, rest: seq<Line>)
    ensures RenderAll([line] + rest) == [Render(line)] + RenderAll(rest)
  {
    hide Render;
    RenderAppend([line], rest);
    assert RenderAll([line]) == [Render(line)];
  }

  lemma JoinHead(a: string, first: string, rest: seq<string>)
    ensures Join([a + first] + rest) == a + Join([first] + rest)
  {
    assert ([a + first] + rest)[1..] == rest && ([first] + rest)[1..] == rest;
    if rest != [] {
      assert a + first + "\n" + Join(rest) == a + (first + "\n" + Join(rest));
    }
  }
}
