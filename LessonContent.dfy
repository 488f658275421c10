/**
 * The lesson text view: the line-oriented markup that `renderMarkdownText` turns
 * into headings, lists and paragraphs, and the per-step solution toggle. The
 * rendered elements are modelled as a sequence of `Block` values; how each block
 * is drawn is presentation and not part of the model.
 */
module LessonContent {
  import opened Strings

  /** One rendered element. `H2` carries whether its title marks a hands-on task. */
  datatype Block =
    | H1(text: string)
    | H2(title: string, isTask: bool)
    | H3(text: string)
    | Numbered(items: seq<string>)
    | Bullets(items: seq<string>)
    | Paragraph(text: string)

  /** The branch of the `if` chain a line takes, tried in the order of the chain. */
  datatype LineKind = Heading1 | Heading2 | Heading3 | NumberedLine | BulletLine | BlankLine | PlainLine

  /** The two words that mark an `h2` title as a task heading. */
  const HandsOnTask: string := "ハンズオンタスク"
  const Assignment: string := "課題"

  predicate IsTaskTitle(title: string) {
    Contains(title, HandsOnTask) || Contains(title, Assignment)
  }

  /** The length of the run of ASCII digits at the start of `s`. */
  function DigitRun(s: string): (n: nat)
    ensures n <= |s|
    ensures forall k :: 0 <= k < n ==> IsDigit(s[k])
    ensures n < |s| ==> !IsDigit(s[n])
  {
    if s == [] || !IsDigit(s[0]) then 0 else 1 + DigitRun(s[1..])
  }

  /** `line.match(/^\d+\./)`: one or more digits, then a dot. */
  predicate IsNumberedLine(line: string) {
    var n := DigitRun(line);
    0 < n < |line| && line[n] == '.'
  }

  /** The `replace` of the numbered branch: the leading digits, the dot and the whitespace after them go. */
  function NumberedItem(line: string): (item: string)
    ensures IsNumberedLine(line) ==>
      var rest := line[DigitRun(line) + 1..];
      && |item| <= |rest| && item == rest[|rest| - |item|..]
      && (forall k :: 0 <= k < |rest| - |item| ==> IsWhitespace(rest[k]))
      && (item == [] || !IsWhitespace(item[0]))
    ensures !IsNumberedLine(line) ==> item == line
  {
    if IsNumberedLine(line) then TrimStart(line[DigitRun(line) + 1..]) else line
  }

  /** `line.startsWith('# ')`, `'## '`, `'### '` and `'- '`, character by character. */
  predicate IsH1Line(line: string) {
    |line| >= 2 && line[0] == '#' && line[1] == ' '
  }

  predicate IsH2Line(line: string) {
    |line| >= 3 && line[0] == '#' && line[1] == '#' && line[2] == ' '
  }

  predicate IsH3Line(line: string) {
    |line| >= 4 && line[0] == '#' && line[1] == '#' && line[2] == '#' && line[3] == ' '
  }

  predicate IsBulletLine(line: string) {
    |line| >= 2 && line[0] == '-' && line[1] == ' '
  }

  /** The character tests are the prefix tests of the chain. */
  lemma PrefixTests(line: string)
    ensures IsH1Line(line) <==> StartsWith(line, "# ")
    ensures IsH2Line(line) <==> StartsWith(line, "## ")
    ensures IsH3Line(line) <==> StartsWith(line, "### ")
    ensures IsBulletLine(line) <==> StartsWith(line, "- ")
  {
    if |line| >= 4 {
      assert line[..4] == [line[0], line[1], line[2], line[3]];
    }
    if |line| >= 3 {
      assert line[..3] == [line[0], line[1], line[2]];
    }
    if |line| >= 2 {
      assert line[..2] == [line[0], line[1]];
    }
  }

  /** The `if` chain of the loop body, in its order; the blank test is `line.trim() === ''`,
      which by the contract of `Trim` holds exactly for the lines that are all whitespace. */
  function Classify(line: string): LineKind {
    if IsH1Line(line) then Heading1
    else if IsH2Line(line) then Heading2
    else if IsH3Line(line) then Heading3
    else if IsNumberedLine(line) then NumberedLine
    else if IsBulletLine(line) then BulletLine
    else if IsBlank(line) then BlankLine
    else PlainLine
  }

  /** The end of the run of numbered lines starting at `i`: the inner `while` of the numbered branch. */
  function NumberedRun(lines: seq<string>, i: nat): (j: nat)
    requires i <= |lines|
    ensures i <= j <= |lines|
    ensures forall k :: i <= k < j ==> IsNumberedLine(lines[k])
    ensures j < |lines| ==> !IsNumberedLine(lines[j])
    decreases |lines| - i
  {
    if i < |lines| && IsNumberedLine(lines[i]) then NumberedRun(lines, i + 1) else i
  }

  /** The end of the run of `- ` lines starting at `i`: the inner `while` of the bullet branch. */
  function BulletRun(lines: seq<string>, i: nat): (j: nat)
    requires i <= |lines|
    ensures i <= j <= |lines|
    ensures forall k :: i <= k < j ==> IsBulletLine(lines[k])
    ensures j < |lines| ==> !IsBulletLine(lines[j])
    decreases |lines| - i
  {
    if i < |lines| && IsBulletLine(lines[i]) then BulletRun(lines, i + 1) else i
  }

  function NumberedItems(run: seq<string>): (items: seq<string>)
    ensures |items| == |run|
    ensures forall k :: 0 <= k < |run| ==> items[k] == NumberedItem(run[k])
  {
    seq(|run|, k requires 0 <= k < |run| => NumberedItem(run[k]))
  }

  lemma NumberedItemsSnoc(lines: seq<string>, i: nat, j: nat)
    requires i <= j < |lines|
    ensures NumberedItems(lines[i..j + 1]) == NumberedItems(lines[i..j]) + [NumberedItem(lines[j])]
  {
    assert lines[i..j + 1][..j - i] == lines[i..j];
  }

  function BulletItems(run: seq<string>): (items: seq<string>)
    ensures |items| == |run|
    ensures forall k :: 0 <= k < |run| ==> items[k] == Drop(run[k], 2)
  {
    seq(|run|, k requires 0 <= k < |run| => Drop(run[k], 2))
  }

  /** What the loop body does at line `i`: the blocks it emits and the line it resumes at. */
  datatype Scanned = Scanned(emitted: seq<Block>, next: nat)

  function Step(lines: seq<string>, i: nat): (r: Scanned)
    requires i < |lines|
    ensures i < r.next <= |lines| && |r.emitted| <= 1
  {
    var line := lines[i];
    match Classify(line)
    case Heading1 => Scanned([H1(Drop(line, 2))], i + 1)
    case Heading2 => Scanned([H2(Drop(line, 3), IsTaskTitle(Drop(line, 3)))], i + 1)
    case Heading3 => Scanned([H3(Drop(line, 4))], i + 1)
    case NumberedLine =>
      var j := NumberedRun(lines, i);
      Scanned([Numbered(NumberedItems(lines[i..j]))], j)
    case BulletLine =>
      var j := BulletRun(lines, i);
      assert IsBulletLine(lines[i]);
      Scanned([Bullets(BulletItems(lines[i..j]))], j)
    case BlankLine => Scanned([], i + 1)
    case PlainLine => Scanned([Paragraph(line)], i + 1)
  }

  /** The blocks produced for `lines[i..]`, scanning from line `i`. */
  function Blocks(lines: seq<string>, i: nat): seq<Block>
    requires i <= |lines|
    decreases |lines| - i
  {
    if i == |lines| then []
    else
      var s := Step(lines, i);
      s.emitted + Blocks(lines, s.next)
  }

  // The value of `Step` in each branch of the `if` chain, each under the tests that select it.

  lemma StepHeading1(lines: seq<string>, i: nat)
    requires i < |lines| && IsH1Line(lines[i])
    ensures Step(lines, i) == Scanned([H1(Drop(lines[i], 2))], i + 1)
  {
  }

  lemma StepHeading2(lines: seq<string>, i: nat)
    requires i < |lines| && !IsH1Line(lines[i]) && IsH2Line(lines[i])
    ensures Step(lines, i) == Scanned([H2(Drop(lines[i], 3), IsTaskTitle(Drop(lines[i], 3)))], i + 1)
  {
  }

  lemma StepHeading3(lines: seq<string>, i: nat)
    requires i < |lines| && !IsH1Line(lines[i]) && !IsH2Line(lines[i]) && IsH3Line(lines[i])
    ensures Step(lines, i) == Scanned([H3(Drop(lines[i], 4))], i + 1)
  {
  }

  lemma StepNumbered(lines: seq<string>, i: nat)
    requires i < |lines| && IsNumberedLine(lines[i])
    ensures Step(lines, i) == Scanned([Numbered(NumberedItems(lines[i..NumberedRun(lines, i)]))], NumberedRun(lines, i))
  {
    ClassifyNumbered(lines[i]);
  }

  lemma StepBullet(lines: seq<string>, i: nat)
    requires i < |lines| && IsBulletLine(lines[i])
    ensures Step(lines, i) == Scanned([Bullets(BulletItems(lines[i..BulletRun(lines, i)]))], BulletRun(lines, i))
  {
    ClassifyBullet(lines[i]);
  }

  lemma StepOther(lines: seq<string>, i: nat)
    requires i < |lines|
    requires !IsH1Line(lines[i]) && !IsH2Line(lines[i]) && !IsH3Line(lines[i])
    requires !IsNumberedLine(lines[i]) && !IsBulletLine(lines[i])
    ensures Step(lines, i) == if IsBlank(lines[i]) then Scanned([], i + 1) else Scanned([Paragraph(lines[i])], i + 1)
  {
  }

  /** One pass of the loop body keeps the emitted blocks a prefix of the whole result. */
  lemma Advance(lines: seq<string>, i: nat, before: seq<Block>, emitted: seq<Block>, next: nat)
    requires i < |lines| && before + Blocks(lines, i) == Blocks(lines, 0)
    requires Step(lines, i) == Scanned(emitted, next)
    ensures i < next <= |lines|
    ensures (before + emitted) + Blocks(lines, next) == Blocks(lines, 0)
  {
    assert Blocks(lines, i) == emitted + Blocks(lines, next);
  }

  /** The inner `while` of the numbered branch: collect the items of the run starting at `i`. */
  method NumberedScan(lines: seq<string>, i: nat) returns (listItems: seq<string>, j: nat)
    requires i <= |lines|
    ensures j == NumberedRun(lines, i)
    ensures listItems == NumberedItems(lines[i..j])
  {
    listItems := [];
    j := i;
    while j < |lines| && IsNumberedLine(lines[j])
      invariant i <= j <= |lines|
      invariant NumberedRun(lines, j) == NumberedRun(lines, i)
      invariant listItems == NumberedItems(lines[i..j])
      decreases |lines| - j
    {
      NumberedItemsSnoc(lines, i, j);
      listItems := listItems + [NumberedItem(lines[j])];
      j := j + 1;
    }
  }

  /** The inner `while` of the bullet branch: collect the items of the run starting at `i`. */
  method BulletScan(lines: seq<string>, i: nat) returns (listItems: seq<string>, j: nat)
    requires i <= |lines|
    ensures j == BulletRun(lines, i)
    ensures listItems == BulletItems(lines[i..j])
  {
    listItems := [];
    j := i;
    while j < |lines| && IsBulletLine(lines[j])
      invariant i <= j <= |lines|
      invariant BulletRun(lines, j) == BulletRun(lines, i)
      invariant listItems == BulletItems(lines[i..j])
      decreases |lines| - j
    {
      assert lines[i..j + 1][..j - i] == lines[i..j];
      listItems := listItems + [Drop(lines[j], 2)];
      j := j + 1;
    }
  }

  /** The body of the `for` loop of `renderMarkdownText` at line `i`: the blocks it pushes and
      the value it leaves in `i` before the loop increments it (`j - 1` after a list run). */
  method LoopBody(lines: seq<string>, i: nat) returns (emitted: seq<Block>, last: nat)
    requires i < |lines|
    ensures Step(lines, i) == Scanned(emitted, last + 1)
  {
    var line := lines[i];
    emitted := [];
    last := i;
    if IsH1Line(line) {
      StepHeading1(lines, i);
      emitted := emitted + [H1(Drop(line, 2))];
    } else if IsH2Line(line) {
      StepHeading2(lines, i);
      var title := Drop(line, 3);
      if Contains(title, HandsOnTask) || Contains(title, Assignment) {
        emitted := emitted + [H2(title, true)];
      } else {
        emitted := emitted + [H2(title, false)];
      }
    } else if IsH3Line(line) {
      StepHeading3(lines, i);
      emitted := emitted + [H3(Drop(line, 4))];
    } else if IsNumberedLine(line) {
      StepNumbered(lines, i);
      var listItems, j := NumberedScan(lines, i);
      emitted := emitted + [Numbered(listItems)];
      last := j - 1;
    } else if IsBulletLine(line) {
      StepBullet(lines, i);
      var listItems, j := BulletScan(lines, i);
      emitted := emitted + [Bullets(listItems)];
      last := j - 1;
    } else if IsBlank(line) {
      StepOther(lines, i);
    } else {
      StepOther(lines, i);
      emitted := emitted + [Paragraph(line)];
    }
  }

  /** The `for` loop of `renderMarkdownText`: one pass over the lines, a list branch scanning
      ahead to the end of its run and resuming right after it. */
  method RenderLines(lines: seq<string>) returns (blocks: seq<Block>)
    ensures blocks == Blocks(lines, 0)
  {
    blocks := [];
    var i := 0;
    ghost var total := Blocks(lines, 0);
    while i < |lines|
      invariant 0 <= i <= |lines|
      invariant blocks + Blocks(lines, i) == total
    {
      var emitted, last := LoopBody(lines, i);
      Advance(lines, i, blocks, emitted, last + 1);
      blocks := blocks + emitted;
      i := last + 1;
    }
    assert Blocks(lines, i) == [];
    assert blocks + [] == blocks;
  }

  /** The lines of a text: trimmed, then split on line feeds. */
  function Lines(text: string): (lines: seq<string>)
    ensures |lines| >= 1
  {
    Split(Trim(text), '\n')
  }

  /** `renderMarkdownText`: the trimmed text split on line feeds, then the loop over the lines. */
  method RenderMarkdownText(text: string) returns (blocks: seq<Block>)
    ensures blocks == Blocks(Lines(text), 0)
  {
    var lines := Split(Trim(text), '\n');
    blocks := RenderLines(lines);
  }

  /** What one line contributes to the rendered output: its branch and its text. */
  datatype Entry = Entry(kind: LineKind, text: string)

  /** The text a line of kind `Classify(line)` is shown with. */
  function Payload(line: string): string {
    match Classify(line)
    case Heading1 => Drop(line, 2)
    case Heading2 => Drop(line, 3)
    case Heading3 => Drop(line, 4)
    case NumberedLine => NumberedItem(line)
    case BulletLine => Drop(line, 2)
    case BlankLine => ""
    case PlainLine => line
  }

  /** The entry of one line: none for a blank line. */
  function EntryOf(line: string): (es: seq<Entry>)
    ensures |es| <= 1
  {
    var kind := Classify(line);
    if kind == BlankLine then [] else [Entry(kind, Payload(line))]
  }

  /** The entries of the lines that are not blank, in order, one per line. */
  function LineEntries(lines: seq<string>): seq<Entry> {
    if lines == [] then [] else EntryOf(lines[0]) + LineEntries(lines[1..])
  }

  lemma ClassifyNumbered(line: string)
    requires IsNumberedLine(line)
    ensures Classify(line) == NumberedLine
    ensures EntryOf(line) == [Entry(NumberedLine, NumberedItem(line))]
  {
    assert IsDigit(line[0]);
  }

  lemma ClassifyBullet(line: string)
    requires IsBulletLine(line)
    ensures Classify(line) == BulletLine
    ensures EntryOf(line) == [Entry(BulletLine, Drop(line, 2))]
  {
    assert line[0] == '-';
    assert DigitRun(line) == 0;
  }

  function ItemEntries(kind: LineKind, items: seq<string>): (es: seq<Entry>)
    ensures |es| == |items|
    ensures forall k :: 0 <= k < |items| ==> es[k] == Entry(kind, items[k])
  {
    seq(|items|, k requires 0 <= k < |items| => Entry(kind, items[k]))
  }

  /** The entries a block displays: one for a heading or paragraph, one per item for a list. */
  function BlockEntries(b: Block): seq<Entry> {
    match b
    case H1(t) => [Entry(Heading1, t)]
    case H2(t, _) => [Entry(Heading2, t)]
    case H3(t) => [Entry(Heading3, t)]
    case Numbered(items) => ItemEntries(NumberedLine, items)
    case Bullets(items) => ItemEntries(BulletLine, items)
    case Paragraph(t) => [Entry(PlainLine, t)]
  }

  function Flatten(bs: seq<Block>): seq<Entry> {
    if bs == [] then [] else BlockEntries(bs[0]) + Flatten(bs[1..])
  }

  lemma {:induction false} FlattenAppend(a: seq<Block>, b: seq<Block>)
    ensures Flatten(a + b) == Flatten(a) + Flatten(b)
  {
    if a == [] {
      assert a + b == b;
    } else {
      assert (a + b)[1..] == a[1..] + b;
      FlattenAppend(a[1..], b);
    }
  }

  lemma {:induction false} LineEntriesAppend(a: seq<string>, b: seq<string>)
    ensures LineEntries(a + b) == LineEntries(a) + LineEntries(b)
  {
    if a == [] {
      assert a + b == b;
    } else {
      assert (a + b)[1..] == a[1..] + b;
      LineEntriesAppend(a[1..], b);
    }
  }

  lemma NumberedEntriesCons(run: seq<string>)
    requires run != [] && IsNumberedLine(run[0])
    ensures LineEntries(run) == [Entry(NumberedLine, NumberedItem(run[0]))] + LineEntries(run[1..])
  {
    ClassifyNumbered(run[0]);
  }

  lemma ItemEntriesCons(kind: LineKind, items: seq<string>)
    requires items != []
    ensures ItemEntries(kind, items) == [Entry(kind, items[0])] + ItemEntries(kind, items[1..])
  {
  }

  lemma NumberedItemsCons(run: seq<string>)
    requires run != []
    ensures NumberedItems(run) == [NumberedItem(run[0])] + NumberedItems(run[1..])
  {
  }

  lemma BulletEntriesCons(run: seq<string>)
    requires run != [] && IsBulletLine(run[0])
    ensures LineEntries(run) == [Entry(BulletLine, Drop(run[0], 2))] + LineEntries(run[1..])
  {
    ClassifyBullet(run[0]);
  }

  lemma BulletItemsCons(run: seq<string>)
    requires run != []
    ensures BulletItems(run) == [Drop(run[0], 2)] + BulletItems(run[1..])
  {
  }

  /** A run of numbered lines displays exactly the entries of those lines. */
  lemma {:induction false} NumberedRunEntries(run: seq<string>)
    requires forall k :: 0 <= k < |run| ==> IsNumberedLine(run[k])
    ensures LineEntries(run) == ItemEntries(NumberedLine, NumberedItems(run))
  {
    if run != [] {
      NumberedRunEntries(run[1..]);
      NumberedEntriesCons(run);
      NumberedItemsCons(run);
      ItemEntriesCons(NumberedLine, NumberedItems(run));
    }
  }

  /** A run of `- ` lines displays exactly the entries of those lines. */
  lemma {:induction false} BulletRunEntries(run: seq<string>)
    requires forall k :: 0 <= k < |run| ==> IsBulletLine(run[k])
    ensures LineEntries(run) == ItemEntries(BulletLine, BulletItems(run))
  {
    if run != [] {
      BulletRunEntries(run[1..]);
      BulletEntriesCons(run);
      BulletItemsCons(run);
      ItemEntriesCons(BulletLine, BulletItems(run));
    }
  }

  lemma NumberedStepEntries(lines: seq<string>, i: nat)
    requires i < |lines| && Classify(lines[i]) == NumberedLine
    ensures Flatten(Step(lines, i).emitted) == LineEntries(lines[i..Step(lines, i).next])
  {
    var s := Step(lines, i);
    NumberedRunEntries(lines[i..s.next]);
    assert Flatten(s.emitted) == BlockEntries(s.emitted[0]);
  }

  lemma BulletStepEntries(lines: seq<string>, i: nat)
    requires i < |lines| && Classify(lines[i]) == BulletLine
    ensures Flatten(Step(lines, i).emitted) == LineEntries(lines[i..Step(lines, i).next])
  {
    var s := Step(lines, i);
    BulletRunEntries(lines[i..s.next]);
    assert Flatten(s.emitted) == BlockEntries(s.emitted[0]);
  }

  lemma SingleStepEntries(lines: seq<string>, i: nat)
    requires i < |lines| && Classify(lines[i]) != NumberedLine && Classify(lines[i]) != BulletLine
    ensures Flatten(Step(lines, i).emitted) == LineEntries(lines[i..Step(lines, i).next])
  {
    var line := lines[i];
    var s := Step(lines, i);
    assert s.next == i + 1;
    assert lines[i..s.next] == [line];
    assert LineEntries([line]) == EntryOf(line);
    if Classify(line) != BlankLine {
      assert Flatten(s.emitted) == BlockEntries(s.emitted[0]);
    }
  }

  /** The blocks one step emits display the entries of the lines it consumes. */
  lemma StepEntries(lines: seq<string>, i: nat)
    requires i < |lines|
    ensures Flatten(Step(lines, i).emitted) == LineEntries(lines[i..Step(lines, i).next])
  {
    var kind := Classify(lines[i]);
    if kind == NumberedLine {
      NumberedStepEntries(lines, i);
    } else if kind == BulletLine {
      BulletStepEntries(lines, i);
    } else {
      SingleStepEntries(lines, i);
    }
  }

  /** Every non-blank line lands in exactly one block, with its text, in source order: the
      blocks from line `i` on display the entries of `lines[i..]` and nothing else. */
  lemma {:induction false} EveryLineInOneBlock(lines: seq<string>, i: nat)
    requires i <= |lines|
    ensures Flatten(Blocks(lines, i)) == LineEntries(lines[i..])
    decreases |lines| - i
  {
    if i < |lines| {
      var s := Step(lines, i);
      assert lines[i..] == lines[i..s.next] + lines[s.next..];
      LineEntriesAppend(lines[i..s.next], lines[s.next..]);
      EveryLineInOneBlock(lines, s.next);
      FlattenAppend(s.emitted, Blocks(lines, s.next));
      StepEntries(lines, i);
    }
  }

  /** The whole text: the rendered blocks display the non-blank lines of the trimmed text. */
  lemma RenderedTextCoversLines(text: string)
    ensures Flatten(Blocks(Lines(text), 0)) == LineEntries(Lines(text))
  {
    EveryLineInOneBlock(Lines(text), 0);
    assert Lines(text)[0..] == Lines(text);
  }

  /** The list a step emits holds at least one item: the line that starts the run. */
  lemma StepListsNonEmpty(lines: seq<string>, i: nat)
    requires i < |lines|
    ensures forall b :: b in Step(lines, i).emitted && (b.Numbered? || b.Bullets?) ==> |b.items| > 0
  {
    if IsNumberedLine(lines[i]) {
      StepNumbered(lines, i);
    } else if IsBulletLine(lines[i]) {
      StepBullet(lines, i);
    }
  }

  /** A list block always holds at least one item. */
  lemma {:induction false} ListsAreNonEmpty(lines: seq<string>, i: nat)
    requires i <= |lines|
    ensures forall b :: b in Blocks(lines, i) && (b.Numbered? || b.Bullets?) ==> |b.items| > 0
    decreases |lines| - i
  {
    if i < |lines| {
      var s := Step(lines, i);
      StepListsNonEmpty(lines, i);
      ListsAreNonEmpty(lines, s.next);
      assert Blocks(lines, i) == s.emitted + Blocks(lines, s.next);
    }
  }

  /** Every `h2` block is flagged as a task heading exactly when its title holds one of the two
      task words. */
  lemma {:induction false} TaskFlagsMatchTitles(lines: seq<string>, i: nat)
    requires i <= |lines|
    ensures forall b :: b in Blocks(lines, i) && b.H2? ==> (b.isTask <==> IsTaskTitle(b.title))
    decreases |lines| - i
  {
    if i < |lines| {
      var s := Step(lines, i);
      TaskFlagsMatchTitles(lines, s.next);
      assert Blocks(lines, i) == s.emitted + Blocks(lines, s.next);
    }
  }

  /** Leading whitespace is skipped by `TrimStart`. */
  lemma {:induction false} TrimStartSkips(gap: string, t: string)
    requires forall k :: 0 <= k < |gap| ==> IsWhitespace(gap[k])
    ensures TrimStart(gap + t) == TrimStart(t)
    decreases |gap|
  {
    if gap == [] {
      assert gap + t == t;
    } else {
      assert (gap + t)[1..] == gap[1..] + t;
      TrimStartSkips(gap[1..], t);
    }
  }

  /** A one-digit marker followed by whitespace and `a` is a numbered line with item `a`. */
  lemma SampleItem(d: char, gap: string)
    requires IsDigit(d) && (forall k :: 0 <= k < |gap| ==> IsWhitespace(gap[k]))
    ensures IsNumberedLine([d, '.'] + gap + "a") && NumberedItem([d, '.'] + gap + "a") == "a"
  {
    var line := [d, '.'] + gap + "a";
    assert line[1..][0] == '.';
    assert DigitRun(line[1..]) == 0;
    assert DigitRun(line) == 1;
    assert line[2..] == gap + "a";
    TrimStartSkips(gap, "a");
  }

  /** Two numbered lines followed by another line form a run of two. */
  lemma TwoLineRunEnd(lines: seq<string>, i: nat)
    requires i + 2 < |lines|
    requires IsNumberedLine(lines[i]) && IsNumberedLine(lines[i + 1]) && !IsNumberedLine(lines[i + 2])
    ensures NumberedRun(lines, i) == i + 2
  {
    assert NumberedRun(lines, i + 2) == i + 2;
    assert NumberedRun(lines, i + 1) == i + 2;
  }

  lemma TwoLineItems(run: seq<string>)
    requires |run| == 2
    ensures NumberedItems(run) == [NumberedItem(run[0]), NumberedItem(run[1])]
  {
  }

  /** The step at a run of two numbered lines emits one list of their two items. */
  lemma TwoLineRun(lines: seq<string>, i: nat)
    requires i + 2 < |lines|
    requires IsNumberedLine(lines[i]) && IsNumberedLine(lines[i + 1]) && !IsNumberedLine(lines[i + 2])
    ensures Step(lines, i) == Scanned([Numbered([NumberedItem(lines[i]), NumberedItem(lines[i + 1])])], i + 2)
  {
    TwoLineRunEnd(lines, i);
    StepNumbered(lines, i);
    TwoLineItems(lines[i..i + 2]);
  }

  // The steps over the sample text of `SampleBlocks`, one kind of line at a time.

  lemma FirstItem()
    ensures IsNumberedLine("1. a") && NumberedItem("1. a") == "a"
  {
    SampleItem('1', " ");
    assert ['1', '.'] + " " + "a" == "1. a";
  }

  lemma SecondItem()
    ensures IsNumberedLine("2.  a") && NumberedItem("2.  a") == "a"
  {
    SampleItem('2', "  ");
    assert ['2', '.'] + "  " + "a" == "2.  a";
  }

  lemma SampleNumbered(lines: seq<string>)
    requires |lines| > 3 && lines[1] == "1. a" && lines[2] == "2.  a" && lines[3] == ""
    ensures Step(lines, 1) == Scanned([Numbered(["a", "a"])], 3)
  {
    FirstItem();
    SecondItem();
    assert DigitRun(lines[3]) == 0;
    TwoLineRun(lines, 1);
  }

  /** The step at a single `- ` line emits a one-item bullet list. */
  lemma OneLineBullet(lines: seq<string>, i: nat)
    requires i + 1 < |lines| && IsBulletLine(lines[i]) && !IsBulletLine(lines[i + 1])
    ensures Step(lines, i) == Scanned([Bullets([Drop(lines[i], 2)])], i + 1)
  {
    assert BulletRun(lines, i + 1) == i + 1;
    assert BulletRun(lines, i) == i + 1;
    StepBullet(lines, i);
    var items := BulletItems(lines[i..i + 1]);
    assert |items| == 1 && items[0] == Drop(lines[i], 2);
    assert items == [Drop(lines[i], 2)];
  }

  lemma SampleBullet(lines: seq<string>)
    requires |lines| > 5 && lines[4] == "- x" && lines[5] == "text"
    ensures Step(lines, 4) == Scanned([Bullets(["x"])], 5)
  {
    assert Drop("- x", 2) == "x";
    OneLineBullet(lines, 4);
  }

  lemma SampleParagraph(lines: seq<string>)
    requires |lines| > 5 && lines[5] == "text"
    ensures Step(lines, 5) == Scanned([Paragraph("text")], 6)
  {
    assert DigitRun(lines[5]) == 0;
    assert !IsWhitespace(lines[5][0]);
    StepOther(lines, 5);
  }

  lemma SampleBlank(lines: seq<string>)
    requires |lines| > 3 && lines[3] == ""
    ensures Step(lines, 3) == Scanned([], 4)
  {
    assert DigitRun(lines[3]) == 0;
    StepOther(lines, 3);
  }

  /** A small lesson text: a heading, a numbered run, a blank line, a bullet and a paragraph. */
  lemma SampleBlocks(lines: seq<string>)
    requires lines == ["# Intro", "1. a", "2.  a", "", "- x", "text"]
    ensures Blocks(lines, 0) == [H1("Intro"), Numbered(["a", "a"]), Bullets(["x"]), Paragraph("text")]
  {
    StepHeading1(lines, 0);
    assert Drop(lines[0], 2) == "Intro";
    SampleNumbered(lines);
    SampleBlank(lines);
    SampleBullet(lines);
    SampleParagraph(lines);
    assert Blocks(lines, 6) == [];
    assert Blocks(lines, 5) == [Paragraph("text")];
    assert Blocks(lines, 4) == [Bullets(["x"]), Paragraph("text")];
    assert Blocks(lines, 3) == Blocks(lines, 4);
    assert Blocks(lines, 1) == [Numbered(["a", "a"])] + Blocks(lines, 3);
  }

  /** The three heading prefixes exclude each other, so each heading kind is decided by its own
      prefix alone, whatever the order of the tests. */
  lemma HeadingKinds(line: string)
    ensures Classify(line) == Heading1 <==> StartsWith(line, "# ")
    ensures Classify(line) == Heading2 <==> StartsWith(line, "## ")
    ensures Classify(line) == Heading3 <==> StartsWith(line, "### ")
  {
    PrefixTests(line);
  }

  /** Headings need their space: `#` alone, `#x` and `####…` fall through to a paragraph. */
  lemma UnspacedHashIsParagraph(line: string)
    requires |line| >= 1 && line[0] == '#'
    requires |line| == 1 || (line[1] != ' ' && line[1] != '#') || StartsWith(line, "####")
    ensures Classify(line) == PlainLine
  {
    PrefixTests(line);
    assert !IsWhitespace(line[0]);
    assert DigitRun(line) == 0;
    if StartsWith(line, "####") {
      assert line[..4] == "####";
      assert line[1] == '#' && line[2] == '#' && line[3] == '#';
    }
  }

  /** An indented list marker is not a list item: the prefix tests look at the raw line. */
  lemma IndentedBulletIsParagraph(rest: string)
    ensures Classify("  - " + rest) == PlainLine
  {
    var line := "  - " + rest;
    assert line[0] == ' ' && line[1] == ' ' && line[2] == '-';
    assert !IsWhitespace(line[2]);
  }

  /** `showSolutions[i]`: a step's solution is shown when its entry is present and true. */
  function Shown(m: map<nat, bool>, i: nat): bool {
    i in m && m[i]
  }

  /** `toggleSolution`: entry `i` becomes the negation of whether it was shown; a missing entry
      counts as not shown. */
  function ToggleSolution(m: map<nat, bool>, i: nat): (r: map<nat, bool>)
    ensures r.Keys == m.Keys + {i}
    ensures Shown(r, i) == !Shown(m, i)
    ensures forall k :: k in m && k != i ==> r[k] == m[k]
  {
    m[i := !Shown(m, i)]
  }

  /** Toggling step `i` changes what is shown for step `i` only. */
  lemma ToggleOnlyAffectsItsStep(m: map<nat, bool>, i: nat, k: nat)
    ensures Shown(ToggleSolution(m, i), k) == (if k == i then !Shown(m, k) else Shown(m, k))
  {
  }

  /** Toggling the same step twice restores what every step shows. */
  lemma ToggleSolutionTwice(m: map<nat, bool>, i: nat, k: nat)
    ensures Shown(ToggleSolution(ToggleSolution(m, i), i), k) == Shown(m, k)
  {
    ToggleOnlyAffectsItsStep(m, i, k);
    ToggleOnlyAffectsItsStep(ToggleSolution(m, i), i, k);
  }
}
