/** Parsing what the printer prints: for every tree, what comes back, and exactly when it is the tree. */
module YamlRoundTrip {
  import opened Wrappers
  import opened Yaml

  // ---- what the printed text says ----

  /** The tree the text stands for: an empty container printed as a list item has become a string. */
  function AsRead(v: Value): Value
    decreases v, 0
  {
    match v
    case Scalar(t) => v
    case Dict(entries) => Dict(EntriesAsRead(entries))
    case List(items) => List(ItemsAsRead(items))
  }

  function EntriesAsRead(entries: seq<Entry>): (r: seq<Entry>)
    ensures |r| == |entries|
    decreases entries, 0
  {
    if entries == [] then []
    else [Entry(entries[0].key, AsRead(entries[0].value))] + EntriesAsRead(entries[1..])
  }

  function ItemsAsRead(items: seq<Value>): (r: seq<Value>)
    ensures |r| == |items|
    decreases items, 0
  {
    if items == [] then [] else [ItemAsRead(items[0])] + ItemsAsRead(items[1..])
  }

  function ItemAsRead(item: Value): Value
    decreases item, 1
  {
    if IsBlock(item) then AsRead(item) else Scalar(ItemToken(item))
  }

  /** No list of the tree has an empty container as an item. */
  predicate NoEmptyItem(v: Value) {
    match v
    case Scalar(t) => true
    case Dict(entries) => forall i :: 0 <= i < |entries| ==> NoEmptyItem(entries[i].value)
    case List(items) => forall i :: 0 <= i < |items| ==> !IsEmpty(items[i]) && NoEmptyItem(items[i])
  }

  lemma {:induction false} ReadSameIff(v: Value)
    ensures AsRead(v) == v <==> NoEmptyItem(v)
    decreases v, 0
  {
    match v
    case Scalar(t) =>
    case Dict(entries) => EntriesReadSameIff(entries);
    case List(items) => ItemsReadSameIff(items);
  }

  lemma {:induction false} EntriesReadSameIff(entries: seq<Entry>)
    ensures EntriesAsRead(entries) == entries <==> forall i :: 0 <= i < |entries| ==> NoEmptyItem(entries[i].value)
    decreases entries, 0
  {
    if entries != [] {
      ReadSameIff(entries[0].value);
      EntriesReadSameIff(entries[1..]);
      assert entries == [entries[0]] + entries[1..];
      assert EntriesAsRead(entries)[0] == Entry(entries[0].key, AsRead(entries[0].value));
      assert EntriesAsRead(entries)[1..] == EntriesAsRead(entries[1..]);
      assert forall i :: 0 < i < |entries| ==> entries[i] == entries[1..][i - 1];
      assert forall i :: 0 <= i < |entries| - 1 ==> entries[1..][i] == entries[i + 1];
    }
  }

  lemma {:induction false} ItemsReadSameIff(items: seq<Value>)
    ensures ItemsAsRead(items) == items
       <==> forall i :: 0 <= i < |items| ==> !IsEmpty(items[i]) && NoEmptyItem(items[i])
    decreases items, 0
  {
    if items != [] {
      ReadSameIff(items[0]);
      ItemsReadSameIff(items[1..]);
      assert items == [items[0]] + items[1..];
      assert ItemsAsRead(items)[0] == ItemAsRead(items[0]);
      assert ItemsAsRead(items)[1..] == ItemsAsRead(items[1..]);
      assert forall i :: 0 < i < |items| ==> items[i] == items[1..][i - 1];
      assert forall i :: 0 <= i < |items| - 1 ==> items[1..][i] == items[i + 1];
    }
  }

  // ---- first lines ----

  /** What stands to the right of a block's first line never reads as a scalar. */
  lemma FirstContent(v: Value, k: nat)
    requires Tokenized(v) && IsBlock(v)
    ensures Block(v, k) != []
    ensures var c := Block(v, k)[0].content; c != "" && !IsScalarText(c) && (IsDash(c) <==> v.List?)
    ensures v.Dict? ==> ':' in Block(v, k)[0].content
  {
    match v
    case Dict(entries) => EntryContent(entries[0], k);
    case List(items) => ItemContent(items[0], k);
  }

  lemma EntryContent(e: Entry, k: nat)
    requires IsKey(e.key) && Tokenized(e.value)
    ensures var c := EntryBlock(e, k)[0].content;
            c != "" && c[0] != '"' && !IsDash(c) && ':' in c && KeyOf(c) == e.key
            && c[|e.key| + 1..] == if IsBlock(e.value) then "" else " " + ValueText(e.value)
  {
    var c := EntryBlock(e, k)[0].content;
    var after := if IsBlock(e.value) then "" else " " + ValueText(e.value);
    assert c == e.key + ":" + after;
    KeyBeforeColon(e.key, after);
    assert c[|e.key|] == ':';
    if |c| >= 2 && |e.key| >= 2 {
      assert c[1] == e.key[1];
    }
  }

  lemma {:induction false} KeyBeforeColon(key: string, after: string)
    requires ':' !in key
    ensures KeyOf(key + ":" + after) == key
  {
    if key != "" {
      assert (key + ":" + after)[1..] == key[1..] + ":" + after;
      KeyBeforeColon(key[1..], after);
    }
  }

  lemma ItemContent(item: Value, k: nat)
    requires Tokenized(item)
    ensures IsDash(ItemBlock(item, k)[0].content) && ItemBlock(item, k)[0].content[0] == '-'
    ensures ItemBlock(item, k)[0].content[2..]
         == if IsBlock(item) then Block(item, k + 2)[0].content else ItemToken(item)
  {
  }

  lemma TokenReadsAsScalar(t: string)
    requires IsToken(t)
    ensures IsScalarText(t)
  {
    if IsDash(t) {
      assert t[1] == t[..2][1] == ' ';
    }
  }

  lemma ItemTokenIsToken(v: Value)
    requires Tokenized(v) && !IsBlock(v)
    ensures IsToken(ItemToken(v))
  {
  }

  // ---- the parser undoes the printer ----

  /** The lines after a block at column `k` belong to something further left. */
  ghost predicate Ends(rest: seq<Line>, k: nat) {
    rest == [] || rest[0].indent < k
  }

  lemma {:induction false} ParseBlock(v: Value, k: nat, rest: seq<Line>)
    requires Tokenized(v) && !IsEmpty(v) && Ends(rest, k)
    ensures ParseNode(Block(v, k) + rest) == Some((AsRead(v), rest))
    decreases v, 0
  {
    hide IsScalarText, IsDash, IsToken, IsKey;
    var lines := Block(v, k) + rest;
    assert lines[0] == Block(v, k)[0];
    match v
    case Scalar(t) =>
      TokenReadsAsScalar(t);
      assert lines[1..] == rest;
    case Dict(entries) =>
      FirstContent(v, k);
      ParseEntryBlocks(entries, k, rest);
    case List(items) =>
      FirstContent(v, k);
      ParseItemBlocks(items, k, rest);
  }

  lemma {:induction false} ParseItemBlocks(items: seq<Value>, k: nat, rest: seq<Line>)
    requires forall i :: 0 <= i < |items| ==> Tokenized(items[i])
    requires Ends(rest, k)
    ensures ParseItems(ItemBlocks(items, k) + rest, k) == Some((ItemsAsRead(items), rest))
    decreases items, 0
  {
    hide IsScalarText, IsDash, ParseItem, ItemBlock, Tokenized;
    if items == [] {
      assert ItemBlocks(items, k) + rest == rest;
    } else {
      var more := ItemBlocks(items[1..], k) + rest;
      assert ItemBlocks(items, k) + rest == ItemBlock(items[0], k) + more;
      ParseItemBlock(items[0], k, more);
      assert forall i :: 0 <= i < |items| - 1 ==> items[1..][i] == items[i + 1];
      ParseItemBlocks(items[1..], k, rest);
    }
  }

  lemma {:induction false} ParseItemBlock(item: Value, k: nat, rest: seq<Line>)
    requires Tokenized(item) && (rest == [] || rest[0].indent <= k)
    ensures IsDash((ItemBlock(item, k) + rest)[0].content)
    ensures ParseItem(ItemBlock(item, k) + rest, k) == Some((ItemAsRead(item), rest))
    decreases item, 1
  {
    hide IsScalarText, IsDash, IsToken, Tokenized;
    ItemContent(item, k);
    var lines := ItemBlock(item, k) + rest;
    assert lines[0] == ItemBlock(item, k)[0];
    if IsBlock(item) {
      var nested := Block(item, k + 2);
      FirstContent(item, k + 2);
      assert [Line(k + 2, nested[0].content)] + lines[1..] == nested + rest;
      ParseBlock(item, k + 2, rest);
    } else {
      ItemTokenIsToken(item);
      TokenReadsAsScalar(ItemToken(item));
      assert lines[1..] == rest;
    }
  }

  lemma {:induction false} ParseEntryBlocks(entries: seq<Entry>, k: nat, rest: seq<Line>)
    requires forall i :: 0 <= i < |entries| ==> IsKey(entries[i].key) && Tokenized(entries[i].value)
    requires Ends(rest, k)
    ensures ParseEntries(EntryBlocks(entries, k) + rest, k) == Some((EntriesAsRead(entries), rest))
    decreases entries, 0
  {
    hide IsScalarText, IsDash, ParseEntry, EntryBlock, Tokenized, IsKey;
    if entries == [] {
      assert EntryBlocks(entries, k) + rest == rest;
    } else {
      var more := EntryBlocks(entries[1..], k) + rest;
      assert EntryBlocks(entries, k) + rest == EntryBlock(entries[0], k) + more;
      EntryContent(entries[0], k);
      ParseEntryBlock(entries[0], k, more);
      assert forall i :: 0 <= i < |entries| - 1 ==> entries[1..][i] == entries[i + 1];
      ParseEntryBlocks(entries[1..], k, rest);
    }
  }

  lemma {:induction false} ParseEntryBlock(e: Entry, k: nat, rest: seq<Line>)
    requires IsKey(e.key) && Tokenized(e.value) && (rest == [] || rest[0].indent <= k)
    ensures ':' in (EntryBlock(e, k) + rest)[0].content
    ensures ParseEntry(EntryBlock(e, k) + rest) == Some((Entry(e.key, AsRead(e.value)), rest))
    decreases e, 0
  {
    EntryContent(e, k);
    hide IsScalarText, IsDash, IsKey, ParseNode, Tokenized, IsToken;
    var lines := EntryBlock(e, k) + rest;
    assert lines[0] == EntryBlock(e, k)[0];
    if IsBlock(e.value) {
      assert lines[1..] == Block(e.value, k + 2) + rest;
      ParseBlock(e.value, k + 2, rest);
    } else {
      assert lines[1..] == rest;
      ValueTextDistinct(e.value);
    }
  }

  /** The marks of empty containers are no scalar's text. */
  lemma ValueTextDistinct(v: Value)
    requires Tokenized(v) && !IsBlock(v)
    ensures ValueText(v) == "{}" <==> v == Dict([])
    ensures ValueText(v) == "[]" <==> v == List([])
    ensures (" " + ValueText(v))[1..] == ValueText(v)
    ensures " " + ValueText(v) == " {}" <==> ValueText(v) == "{}"
    ensures " " + ValueText(v) == " []" <==> ValueText(v) == "[]"
    ensures v.Scalar? ==> AsRead(v) == Scalar(ValueText(v))
    ensures !v.Scalar? ==> AsRead(v) == v
  {
    assert (" " + ValueText(v))[1..] == ValueText(v);
    assert " {}"[1..] == "{}" && " []"[1..] == "[]";
    assert " " + "{}" == " {}" && " " + "[]" == " []";
  }
}
