/**
 The installer's fallback YAML printer, as indented lines, and a parser for the block style it
 emits (sections 8.2.1 and 8.2.2 of YAML 1.2.2, compact nested forms included).
 */
module Yaml {
  import opened Wrappers

  datatype Value =
    | Scalar(token: string)
    | Dict(entries: seq<Entry>)
    | List(items: seq<Value>)

  datatype Entry = Entry(key: string, value: Value)

  datatype Line = Line(indent: nat, content: string)

  // ---- tokens ----

  /** A rendered scalar: quoted, or bare without spaces, colons or brackets of an empty container. */
  predicate IsToken(s: string) {
    && s != "" && '\n' !in s
    && (s[0] == '"' || (' ' !in s && ':' !in s && s != "{}" && s != "[]"))
  }

  predicate IsKey(s: string) {
    s != "" && s[0] != '"' && '\n' !in s && ' ' !in s && ':' !in s
  }

  /** Every key and scalar in the tree is a single plain token. */
  predicate Tokenized(v: Value) {
    match v
    case Scalar(t) => IsToken(t)
    case Dict(entries) => forall i :: 0 <= i < |entries| ==> IsKey(entries[i].key) && Tokenized(entries[i].value)
    case List(items) => forall i :: 0 <= i < |items| ==> Tokenized(items[i])
  }

  predicate IsEmpty(v: Value) {
    v == Dict([]) || v == List([])
  }

  /** A non-empty dict or list. */
  predicate IsBlock(v: Value) {
    !v.Scalar? && !IsEmpty(v)
  }

  // ---- printing, as lines ----

  /** How a list item that is not a block is written: the text form of an empty container is a string. */
  function ItemToken(v: Value): string
    requires !IsBlock(v)
  {
    match v
    case Scalar(t) => t
    case Dict(_) => "\"{}\""
    case List(_) => "\"[]\""
  }

  /** How a dict value that is not a block is written after its key. */
  function ValueText(v: Value): string
    requires !IsBlock(v)
  {
    match v
    case Scalar(t) => t
    case Dict(_) => "{}"
    case List(_) => "[]"
  }

  /** The lines printed for a value at an indentation. */
  function Block(v: Value, k: nat): (lines: seq<Line>)
    ensures IsBlock(v) || v.Scalar? ==> lines != [] && lines[0].indent == k
    decreases v, 0
  {
    match v
    case Scalar(t) => [Line(k, t)]
    case Dict(entries) => EntryBlocks(entries, k)
    case List(items) => ItemBlocks(items, k)
  }

  function EntryBlocks(entries: seq<Entry>, k: nat): (lines: seq<Line>)
    ensures entries != [] ==> lines != [] && lines[0].indent == k
    decreases entries, 0
  {
    if entries == [] then [] else EntryBlock(entries[0], k) + EntryBlocks(entries[1..], k)
  }

  function EntryBlock(e: Entry, k: nat): (lines: seq<Line>)
    ensures lines != [] && lines[0].indent == k
    decreases e, 0
  {
    if IsBlock(e.value) then [Line(k, e.key + ":")] + Block(e.value, k + 2)
    else [Line(k, e.key + ": " + ValueText(e.value))]
  }

  function ItemBlocks(items: seq<Value>, k: nat): (lines: seq<Line>)
    ensures items != [] ==> lines != [] && lines[0].indent == k
    decreases items, 0
  {
    if items == [] then [] else ItemBlock(items[0], k) + ItemBlocks(items[1..], k)
  }

  /** The first line of a nested block moves up behind the dash, which stands in its indentation. */
  function ItemBlock(item: Value, k: nat): (lines: seq<Line>)
    ensures lines != [] && lines[0].indent == k
    decreases item, 1
  {
    if IsBlock(item) then
      var nested := Block(item, k + 2);
      [Line(k, "- " + nested[0].content)] + nested[1..]
    else [Line(k, "- " + ItemToken(item))]
  }

  // ---- parsing ----

  predicate IsDash(content: string) {
    |content| >= 2 && content[..2] == "- "
  }

  predicate IsScalarText(content: string) {
    content != "" && (content[0] == '"' || (!IsDash(content) && ':' !in content))
  }

  /** The text before the first colon. */
  function KeyOf(content: string): (key: string)
    ensures |key| <= |content|
    ensures ':' in content ==> |key| < |content|
  {
    if content == "" || content[0] == ':' then "" else [content[0]] + KeyOf(content[1..])
  }

  function Size(lines: seq<Line>): nat {
    if lines == [] then 0 else 1 + |lines[0].content| + Size(lines[1..])
  }

  type Parsed<T> = Option<(T, seq<Line>)>

  /** Parses the node that starts at the first line. */
  function ParseNode(lines: seq<Line>): (r: Parsed<Value>)
    ensures r.Some? ==> Size(r.value.1) < Size(lines)
    decreases Size(lines), 2
  {
    if lines == [] then None
    else if IsScalarText(lines[0].content) then Some((Scalar(lines[0].content), lines[1..]))
    else if IsDash(lines[0].content) then
      match ParseItems(lines, lines[0].indent)
      case None => None
      case Some((items, rest)) => if items == [] then None else Some((List(items), rest))
    else
      match ParseEntries(lines, lines[0].indent)
      case None => None
      case Some((entries, rest)) => if entries == [] then None else Some((Dict(entries), rest))
  }

  /** Parses the list items at column `k`. */
  function ParseItems(lines: seq<Line>, k: nat): (r: Parsed<seq<Value>>)
    ensures r.Some? ==> Size(r.value.1) <= Size(lines) && (r.value.0 != [] ==> Size(r.value.1) < Size(lines))
    decreases Size(lines), 1
  {
    if lines == [] || lines[0].indent != k || !IsDash(lines[0].content) then Some(([], lines))
    else
      var first := ParseItem(lines, k);
      if first.None? then None
      else
        match ParseItems(first.value.1, k)
        case None => None
        case Some((items, rest)) => Some(([first.value.0] + items, rest))
  }

  /** Parses one item: a scalar after the dash, or a nested block whose first line starts there. */
  function ParseItem(lines: seq<Line>, k: nat): (r: Parsed<Value>)
    requires lines != [] && IsDash(lines[0].content)
    ensures r.Some? ==> Size(r.value.1) < Size(lines)
    decreases Size(lines), 0
  {
    var after := lines[0].content[2..];
    if IsScalarText(after) then Some((Scalar(after), lines[1..]))
    else ParseNode([Line(k + 2, after)] + lines[1..])
  }

  /** Parses the dict entries at column `k`. */
  function ParseEntries(lines: seq<Line>, k: nat): (r: Parsed<seq<Entry>>)
    ensures r.Some? ==> Size(r.value.1) <= Size(lines) && (r.value.0 != [] ==> Size(r.value.1) < Size(lines))
    decreases Size(lines), 1
  {
    if lines == [] || lines[0].indent != k || IsDash(lines[0].content) || ':' !in lines[0].content
    then Some(([], lines))
    else
      var first := ParseEntry(lines);
      if first.None? then None
      else
        match ParseEntries(first.value.1, k)
        case None => None
        case Some((entries, rest)) => Some(([first.value.0] + entries, rest))
  }

  function ParseEntry(lines: seq<Line>): (r: Parsed<Entry>)
    requires lines != [] && ':' in lines[0].content
    ensures r.Some? ==> Size(r.value.1) < Size(lines)
    decreases Size(lines), 0
  {
    var key := KeyOf(lines[0].content);
    var after := lines[0].content[|key| + 1..];
    if after == "" then
      match ParseNode(lines[1..])
      case None => None
      case Some((value, rest)) => Some((Entry(key, value), rest))
    else if after == " {}" then Some((Entry(key, Dict([])), lines[1..]))
    else if after == " []" then Some((Entry(key, List([])), lines[1..]))
    else Some((Entry(key, Scalar(after[1..])), lines[1..]))
  }
}
