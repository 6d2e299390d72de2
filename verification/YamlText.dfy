/** The printer's text: indentation as spaces, lines joined by newlines, and the round trip on text. */
module YamlText {
  import opened Wrappers
  import opened Yaml
  import opened YamlRoundTrip
  import Text

  function Spaces(n: nat): (s: string)
    ensures |s| == n && forall i :: 0 <= i < n ==> s[i] == ' '
  {
    seq(n, i => ' ')
  }

  function Render(line: Line): string {
    Spaces(line.indent) + line.content
  }

  function RenderAll(lines: seq<Line>): (r: seq<string>)
    ensures |r| == |lines| && forall i :: 0 <= i < |r| ==> r[i] == Render(lines[i])
  {
    seq(|lines|, i requires 0 <= i < |lines| => Render(lines[i]))
  }

  function LeadingSpaces(s: string): (n: nat)
    ensures n <= |s|
  {
    if s == "" || s[0] != ' ' then 0 else 1 + LeadingSpaces(s[1..])
  }

  function LStrip(s: string): string {
    s[LeadingSpaces(s)..]
  }

  function ReadLine(s: string): Line {
    Line(LeadingSpaces(s), LStrip(s))
  }

  function Join(lines: seq<string>): string {
    if lines == [] then ""
    else if |lines| == 1 then lines[0]
    else lines[0] + "\n" + Join(lines[1..])
  }

  /** The lines of a text: a final line break ends the last line and starts no further one. */
  function SplitLines(text: string): seq<string> {
    if text == "" then []
    else
      var lines := Text.Split(text, '\n');
      if lines[|lines| - 1] == "" then lines[..|lines| - 1] else lines
  }

  // ---- lines and text ----

  lemma {:induction false} LeadingOfRendered(n: nat, content: string)
    requires content == "" || content[0] != ' '
    ensures LeadingSpaces(Spaces(n) + content) == n
  {
    if n > 0 {
      assert (Spaces(n) + content)[1..] == Spaces(n - 1) + content;
      LeadingOfRendered(n - 1, content);
    } else {
      assert Spaces(0) + content == content;
    }
  }

  lemma ReadInvertsRender(line: Line)
    requires line.content == "" || line.content[0] != ' '
    ensures ReadLine(Render(line)) == line
  {
    LeadingOfRendered(line.indent, line.content);
  }

  /** A line with text and no line break. */
  predicate IsTextLine(s: string) {
    s != "" && '\n' !in s
  }

  lemma {:induction false} SplitInvertsJoin(lines: seq<string>)
    requires forall i :: 0 <= i < |lines| ==> IsTextLine(lines[i])
    ensures SplitLines(Join(lines)) == lines
  {
    if lines != [] {
      SplitJoined(lines);
      assert IsTextLine(lines[|lines| - 1]);
      assert Join(lines) != "" by {
        assert IsTextLine(lines[0]);
      }
    }
  }

  lemma {:induction false} SplitJoined(lines: seq<string>)
    requires lines != [] && forall i :: 0 <= i < |lines| ==> '\n' !in lines[i]
    ensures Text.Split(Join(lines), '\n') == lines
  {
    hide Text.Split;
    if |lines| == 1 {
      Text.SplitSingle(lines[0], '\n');
    } else {
      Text.SplitAt(lines[0], Join(lines[1..]), '\n');
      SplitJoined(lines[1..]);
      assert lines == [lines[0]] + lines[1..];
    }
  }

  lemma {:induction false} JoinAppend(a: seq<string>, b: seq<string>)
    requires a != [] && b != []
    ensures Join(a + b) == Join(a) + "\n" + Join(b)
  {
    if |a| == 1 {
      assert (a + b)[1..] == b;
    } else {
      assert (a + b)[1..] == a[1..] + b;
      JoinAppend(a[1..], b);
    }
  }

  /** A nested text that holds several lines joins like its lines. */
  lemma JoinNested(a: seq<string>, b: seq<string>)
    requires b != []
    ensures Join(a + [Join(b)]) == Join(a + b)
  {
    if a == [] {
      assert a + [Join(b)] == [Join(b)] && a + b == b;
    } else {
      JoinAppend(a, [Join(b)]);
      JoinAppend(a, b);
    }
  }

  // ---- the printed lines are text lines ----

  /** No line break, and no blank in front. */
  predicate StartsLine(s: string) {
    '\n' !in s && (s == "" || s[0] != ' ')
  }

  /** Keys and scalars that each keep to the line they start: weaker than single plain tokens. */
  predicate Printable(v: Value) {
    match v
    case Scalar(t) => t != "" && StartsLine(t)
    case Dict(entries) => forall i :: 0 <= i < |entries| ==> StartsLine(entries[i].key) && Printable(entries[i].value)
    case List(items) => forall i :: 0 <= i < |items| ==> Printable(items[i])
  }

  lemma {:induction false} TokenizedIsPrintable(v: Value)
    requires Tokenized(v)
    ensures Printable(v)
  {
    match v
    case Scalar(t) =>
    case Dict(entries) =>
      forall i | 0 <= i < |entries| ensures StartsLine(entries[i].key) && Printable(entries[i].value) {
        TokenizedIsPrintable(entries[i].value);
      }
    case List(items) =>
      forall i | 0 <= i < |items| ensures Printable(items[i]) {
        TokenizedIsPrintable(items[i]);
      }
  }

  ghost predicate PrintsWell(line: Line) {
    line.content != "" && line.content[0] != ' ' && '\n' !in line.content
  }

  lemma {:induction false} BlockPrintsWell(v: Value, k: nat)
    requires Printable(v)
    ensures forall i :: 0 <= i < |Block(v, k)| ==> PrintsWell(Block(v, k)[i])
    decreases v, 0
  {
    match v
    case Scalar(t) =>
    case Dict(entries) => EntriesPrintWell(entries, k);
    case List(items) => ItemsPrintWell(items, k);
  }

  lemma {:induction false} EntriesPrintWell(entries: seq<Entry>, k: nat)
    requires forall i :: 0 <= i < |entries| ==> StartsLine(entries[i].key) && Printable(entries[i].value)
    ensures forall i :: 0 <= i < |EntryBlocks(entries, k)| ==> PrintsWell(EntryBlocks(entries, k)[i])
    decreases entries, 0
  {
    hide PrintsWell, Printable, StartsLine;
    if entries != [] {
      EntryPrintsWell(entries[0], k);
      assert forall i :: 0 <= i < |entries| - 1 ==> entries[1..][i] == entries[i + 1];
      EntriesPrintWell(entries[1..], k);
    }
  }

  lemma {:induction false} EntryPrintsWell(e: Entry, k: nat)
    requires StartsLine(e.key) && Printable(e.value)
    ensures forall i :: 0 <= i < |EntryBlock(e, k)| ==> PrintsWell(EntryBlock(e, k)[i])
    decreases e, 0
  {
    if IsBlock(e.value) {
      BlockPrintsWell(e.value, k + 2);
    }
  }

  lemma {:induction false} ItemsPrintWell(items: seq<Value>, k: nat)
    requires forall i :: 0 <= i < |items| ==> Printable(items[i])
    ensures forall i :: 0 <= i < |ItemBlocks(items, k)| ==> PrintsWell(ItemBlocks(items, k)[i])
    decreases items, 0
  {
    hide PrintsWell, Printable;
    if items != [] {
      ItemPrintsWell(items[0], k);
      assert forall i :: 0 <= i < |items| - 1 ==> items[1..][i] == items[i + 1];
      ItemsPrintWell(items[1..], k);
    }
  }

  lemma {:induction false} ItemPrintsWell(item: Value, k: nat)
    requires Printable(item)
    ensures forall i :: 0 <= i < |ItemBlock(item, k)| ==> PrintsWell(ItemBlock(item, k)[i])
    decreases item, 1
  {
    if IsBlock(item) {
      BlockPrintsWell(item, k + 2);
      assert PrintsWell(Block(item, k + 2)[0]);
    }
  }

  // ---- the text of a tree ----

  function Printed(v: Value, k: nat): string {
    Join(RenderAll(Block(v, k)))
  }

  function ReadAll(lines: seq<string>): (r: seq<Line>)
    ensures |r| == |lines| && forall i :: 0 <= i < |r| ==> r[i] == ReadLine(lines[i])
  {
    seq(|lines|, i requires 0 <= i < |lines| => ReadLine(lines[i]))
  }

  /** Parses a whole document. */
  function Parse(text: string): Option<Value> {
    match ParseNode(ReadAll(SplitLines(text)))
    case None => None
    case Some((v, rest)) => if rest == [] then Some(v) else None
  }

  lemma LinesOfText(v: Value, k: nat)
    requires Printable(v)
    ensures SplitLines(Printed(v, k)) == RenderAll(Block(v, k))
    ensures ReadAll(RenderAll(Block(v, k))) == Block(v, k)
  {
    hide Block, Printable;
    BlockPrintsWell(v, k);
    var lines := Block(v, k);
    forall i | 0 <= i < |lines| ensures IsTextLine(Render(lines[i])) && ReadLine(Render(lines[i])) == lines[i] {
      assert PrintsWell(lines[i]);
      ReadInvertsRender(lines[i]);
    }
    SplitInvertsJoin(RenderAll(lines));
    assert ReadAll(RenderAll(lines)) == lines;
  }

  /** Every tree but an empty container reads back as `AsRead` says, from any indentation. */
  lemma ParseOfText(v: Value, k: nat)
    requires Tokenized(v)
    ensures !IsEmpty(v) ==> Parse(Printed(v, k)) == Some(AsRead(v))
    ensures IsEmpty(v) ==> Parse(Printed(v, k)) == None
  {
    hide Tokenized, Printable, ParseNode;
    TokenizedIsPrintable(v);
    LinesOfText(v, k);
    if IsEmpty(v) {
      assert Block(v, k) == [];
      assert RenderAll([]) == [] && ReadAll([]) == [];
      NothingParsed();
    } else {
      ParseBlock(v, k, []);
      assert Block(v, k) + [] == Block(v, k);
    }
  }

  lemma NothingParsed()
    ensures ParseNode([]) == None
  {
  }

  /** The round trip holds exactly for trees that are no empty container and hold none as a list item. */
  lemma RoundTripIff(v: Value)
    requires Tokenized(v)
    ensures Parse(Printed(v, 0)) == Some(v) <==> !IsEmpty(v) && NoEmptyItem(v)
  {
    hide Tokenized, NoEmptyItem, AsRead, Parse, Printed;
    ParseOfText(v, 0);
    ReadSameIff(v);
  }

  /** Trees that round-trip print to different texts. */
  lemma TextInjective(v: Value, w: Value)
    requires Tokenized(v) && Tokenized(w)
    requires !IsEmpty(v) && NoEmptyItem(v) && !IsEmpty(w) && NoEmptyItem(w)
    requires Printed(v, 0) == Printed(w, 0)
    ensures v == w
  {
    hide Tokenized, NoEmptyItem, Parse, Printed, IsEmpty;
    RoundTripIff(v);
    RoundTripIff(w);
  }

  /** An empty container as a list item prints as the string of its brackets, so the two trees print alike. */
  lemma EmptyItemPrintsAsString(empty: Value)
    requires IsEmpty(empty)
    ensures var w := List([Scalar(if empty.Dict? then "\"{}\"" else "\"[]\"")]);
            Printed(List([empty]), 0) == Printed(w, 0) && Parse(Printed(List([empty]), 0)) == Some(w)
  {
    var v, item := List([empty]), Scalar(if empty.Dict? then "\"{}\"" else "\"[]\"");
    assert ItemBlock(empty, 0) == ItemBlock(item, 0);
    assert ItemBlocks(v.items, 0) == ItemBlocks([item], 0);
    hide Block, ItemBlocks, ItemBlock, Parse, Printed;
    assert Tokenized(empty);
    ParseOfText(v, 0);
    assert [empty][1..] == [] && ItemsAsRead([]) == [] && ItemAsRead(empty) == item;
    assert ItemsAsRead([empty]) == [item];
  }

  // ---- indentation shifts ----

  function ShiftAll(lines: seq<Line>, d: nat): (r: seq<Line>)
    ensures |r| == |lines| && forall i :: 0 <= i < |r| ==> r[i] == Line(lines[i].indent + d, lines[i].content)
  {
    seq(|lines|, i requires 0 <= i < |lines| => Line(lines[i].indent + d, lines[i].content))
  }

  /** Printing further right is printing and then shifting every line. */
  lemma {:induction false} BlockShifts(v: Value, k: nat, d: nat)
    ensures Block(v, k + d) == ShiftAll(Block(v, k), d)
    decreases v, 0
  {
    match v
    case Scalar(t) =>
    case Dict(entries) => EntriesShift(entries, k, d);
    case List(items) => ItemsShift(items, k, d);
  }

  lemma ShiftAppend(a: seq<Line>, b: seq<Line>, d: nat)
    ensures ShiftAll(a + b, d) == ShiftAll(a, d) + ShiftAll(b, d)
  {
  }

  lemma {:induction false} EntriesShift(entries: seq<Entry>, k: nat, d: nat)
    ensures EntryBlocks(entries, k + d) == ShiftAll(EntryBlocks(entries, k), d)
    decreases entries, 0
  {
    hide EntryBlock, ShiftAll;
    if entries == [] {
      assert EntryBlocks(entries, k) == [];
    } else {
      EntryShifts(entries[0], k, d);
      EntriesShift(entries[1..], k, d);
      ShiftAppend(EntryBlock(entries[0], k), EntryBlocks(entries[1..], k), d);
    }
  }

  lemma {:induction false} EntryShifts(e: Entry, k: nat, d: nat)
    ensures EntryBlock(e, k + d) == ShiftAll(EntryBlock(e, k), d)
    decreases e, 0
  {
    if IsBlock(e.value) {
      BlockShifts(e.value, k + 2, d);
      assert k + 2 + d == k + d + 2;
    }
  }

  lemma {:induction false} ItemsShift(items: seq<Value>, k: nat, d: nat)
    ensures ItemBlocks(items, k + d) == ShiftAll(ItemBlocks(items, k), d)
    decreases items, 0
  {
    hide ItemBlock, ShiftAll;
    if items == [] {
      assert ItemBlocks(items, k) == [];
    } else {
      ItemShifts(items[0], k, d);
      ItemsShift(items[1..], k, d);
      ShiftAppend(ItemBlock(items[0], k), ItemBlocks(items[1..], k), d);
    }
  }

  lemma {:induction false} ItemShifts(item: Value, k: nat, d: nat)
    ensures ItemBlock(item, k + d) == ShiftAll(ItemBlock(item, k), d)
    decreases item, 1
  {
    if IsBlock(item) {
      BlockShifts(item, k + 2, d);
      assert k + 2 + d == k + d + 2;
    }
  }
}
