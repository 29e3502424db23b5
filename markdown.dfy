/** `parseMarkdown` of the Markdown renderer: a single pass over the lines of the
    post text that emits headings, blockquotes, bullet lists, fenced code blocks,
    spacers and paragraphs, carrying three pieces of state from line to line (the
    pending list items, whether a code fence is open, and the buffered code lines).

    The line rule is the pure function `Step`, the whole pass is `Run` and the end
    of input is `Finish`; the method `ParseMarkdown` is the loop itself, proved to
    compute `Finish(Run(Start, lines))`. */
module Markdown {
  import opened Wrappers
  import opened Text
  import opened Inline
  import opened Seqs

  datatype Block =
    | Heading(level: nat, spans: seq<Span>)
    | Blockquote(spans: seq<Span>)
    | BulletList(items: seq<seq<Span>>)
    | CodeBlock(code: string)
    | Spacer
    | Paragraph(spans: seq<Span>)

  /** The loop's variables: the blocks emitted so far, the list items not yet
      emitted, whether a code fence is open, and the lines buffered inside it. */
  datatype Scan = Scan(elements: seq<Block>, listItems: seq<seq<Span>>, inCode: bool, code: seq<string>)

  const Start := Scan([], [], false, [])

  /** A fence line: its trimmed text starts with three backticks; whatever
      follows them (a language name) is ignored. */
  predicate IsFence(line: string) {
    StartsWith(Trim(line), "```")
  }

  predicate IsHeading(line: string) {
    StartsWith(line, "# ") || StartsWith(line, "## ") || StartsWith(line, "### ")
  }

  predicate IsQuote(line: string) {
    StartsWith(line, "> ")
  }

  predicate IsListItem(line: string) {
    StartsWith(line, "- ") || StartsWith(line, "* ")
  }

  /** The block a line outside a code block and outside a list gives on its own:
      a heading or a quote with its marker stripped, a spacer for a blank line,
      otherwise a paragraph of the whole line. */
  function LineBlock(line: string): Block {
    if StartsWith(line, "# ") then Heading(1, ParseInline(line[2..]))
    else if StartsWith(line, "## ") then Heading(2, ParseInline(line[3..]))
    else if StartsWith(line, "### ") then Heading(3, ParseInline(line[4..]))
    else if IsQuote(line) then Blockquote(ParseInline(line[2..]))
    else if Trim(line) == "" then Spacer
    else Paragraph(ParseInline(line))
  }

  /** Each line's own block, in order. */
  function LineBlocks(lines: seq<string>): (r: seq<Block>)
    ensures |r| == |lines|
    decreases |lines|
  {
    if lines == [] then [] else [LineBlock(lines[0])] + LineBlocks(lines[1..])
  }

  /** The block at each position is that line's block. */
  lemma {:induction false} LineBlocksAt(lines: seq<string>, i: nat)
    requires i < |lines|
    ensures LineBlocks(lines)[i] == LineBlock(lines[i])
    decreases i
  {
    if i > 0 {
      LineBlocksAt(lines[1..], i - 1);
    }
  }

  /** The pending list, emitted as one block when it has items. */
  function Flush(elements: seq<Block>, items: seq<seq<Span>>): seq<Block> {
    if |items| > 0 then elements + [BulletList(items)] else elements
  }

  /** One line of the scan. Fence lines are checked first, even inside a code
      block; headings and quotes are emitted without touching the pending list;
      only the remaining lines flush it. */
  function Step(st: Scan, line: string): Scan {
    if IsFence(line) then
      if st.inCode then Scan(st.elements + [CodeBlock(Join(st.code, "\n"))], st.listItems, false, [])
      else st.(inCode := true)
    else if st.inCode then st.(code := st.code + [line])
    else if IsHeading(line) || IsQuote(line) then st.(elements := st.elements + [LineBlock(line)])
    else if IsListItem(line) then st.(listItems := st.listItems + [ParseInline(line[2..])])
    else st.(elements := Flush(st.elements, st.listItems) + [LineBlock(line)], listItems := [])
  }

  /** The scan over `lines`, from state `st`. */
  function Run(st: Scan, lines: seq<string>): Scan
    decreases |lines|
  {
    if lines == [] then st else Run(Step(st, lines[0]), lines[1..])
  }

  /** After the last line: the pending list, then an unterminated code block. */
  function Finish(st: Scan): seq<Block> {
    Flush(st.elements, st.listItems) + (if st.inCode then [CodeBlock(Join(st.code, "\n"))] else [])
  }

  /** The blocks of a text. */
  function Blocks(text: string): seq<Block> {
    Finish(Run(Start, SplitOn(text, '\n')))
  }

  /** The whole component: empty content renders nothing at all (`None`), any
      other content renders its blocks. */
  function Render(content: string): Option<seq<Block>> {
    if content == "" then None else Some(Blocks(content))
  }

  /** The renderer's loop, with the source's variables and its branch order. */
  method ParseMarkdown(text: string) returns (blocks: seq<Block>)
    ensures blocks == Blocks(text)
  {
    var lines := SplitOn(text, '\n');
    var elements: seq<Block> := [];
    var listItems: seq<seq<Span>> := [];
    var inCodeBlock := false;
    var codeBlockContent: seq<string> := [];
    var i := 0;
    while i < |lines|
      invariant 0 <= i <= |lines|
      invariant Run(Scan(elements, listItems, inCodeBlock, codeBlockContent), lines[i..]) == Run(Start, lines)
    {
      var line := lines[i];
      assert lines[i..][0] == line && lines[i..][1..] == lines[i + 1..];
      if IsFence(line) {
        if inCodeBlock {
          elements := elements + [CodeBlock(Join(codeBlockContent, "\n"))];
          codeBlockContent := [];
          inCodeBlock := false;
        } else {
          inCodeBlock := true;
        }
      } else if inCodeBlock {
        codeBlockContent := codeBlockContent + [line];
      } else if StartsWith(line, "# ") {
        elements := elements + [Heading(1, ParseInline(line[2..]))];
      } else if StartsWith(line, "## ") {
        elements := elements + [Heading(2, ParseInline(line[3..]))];
      } else if StartsWith(line, "### ") {
        elements := elements + [Heading(3, ParseInline(line[4..]))];
      } else if StartsWith(line, "> ") {
        elements := elements + [Blockquote(ParseInline(line[2..]))];
      } else if StartsWith(line, "- ") || StartsWith(line, "* ") {
        listItems := listItems + [ParseInline(line[2..])];
      } else {
        if |listItems| > 0 {
          elements := elements + [BulletList(listItems)];
          listItems := [];
        }
        if Trim(line) == "" {
          if |listItems| == 0 {
            elements := elements + [Spacer];
          }
        } else {
          elements := elements + [Paragraph(ParseInline(line))];
        }
      }
      i := i + 1;
    }
    if |listItems| > 0 {
      elements := elements + [BulletList(listItems)];
    }
    if inCodeBlock {
      elements := elements + [CodeBlock(Join(codeBlockContent, "\n"))];
    }
    blocks := elements;
  }

  /** `MarkdownRenderer` itself: nothing for empty content, else the blocks. */
  method RenderContent(content: string) returns (r: Option<seq<Block>>)
    ensures r == Render(content)
  {
    if content == "" {
      return None;
    }
    var blocks := ParseMarkdown(content);
    r := Some(blocks);
  }

  // ---------------------------------------------------------------------------
  // Properties of the scan

  /** Outside a code block the buffer is empty. */
  ghost predicate Tidy(st: Scan) {
    !st.inCode ==> st.code == []
  }

  /** Something is waiting to be emitted or has been emitted. */
  ghost predicate Pending(st: Scan) {
    |st.elements| > 0 || |st.listItems| > 0 || st.inCode
  }

  /** Every line leaves something to show: it emits a block, adds a list item, or
      opens or continues a code block. */
  lemma StepPending(st: Scan, line: string)
    ensures var s' := Step(st, line);
      |s'.elements| > |st.elements| || |s'.listItems| > |st.listItems|
      || (s'.inCode && !st.inCode) || (s'.inCode && |s'.code| == |st.code| + 1)
    ensures Pending(Step(st, line))
  {
  }

  /** Empty content renders nothing at all; any other content renders at least
      one block (even a single blank line gives a spacer). */
  lemma RenderEmptyIff(content: string)
    ensures Render(content) == None <==> content == ""
    ensures content != "" ==> |Render(content).value| >= 1
  {
    if content != "" {
      var lines := SplitOn(content, '\n');
      assert lines == [lines[0]] + lines[1..];
      RunPending(Step(Start, lines[0]), lines[1..]);
    }
  }

  /** Once something is pending, it stays pending. */
  lemma {:induction false} RunPending(st: Scan, lines: seq<string>)
    requires Pending(st)
    ensures Pending(Run(st, lines))
    decreases |lines|
  {
    if lines != [] {
      StepPending(st, lines[0]);
      RunPending(Step(st, lines[0]), lines[1..]);
    }
  }

  /** Scanning two runs of lines is scanning the first, then the second. */
  lemma {:induction false} RunAppend(st: Scan, a: seq<string>, b: seq<string>)
    ensures Run(st, a + b) == Run(Run(st, a), b)
    decreases |a|
  {
    if a != [] {
      assert (a + b)[0] == a[0] && (a + b)[1..] == a[1..] + b;
      RunAppend(Step(st, a[0]), a[1..], b);
    } else {
      assert a + b == b;
    }
  }

  /** The scan keeps its tidiness. */
  lemma {:induction false} RunTidy(st: Scan, lines: seq<string>)
    requires Tidy(st)
    ensures Tidy(Run(st, lines))
    decreases |lines|
  {
    if lines != [] {
      RunTidy(Step(st, lines[0]), lines[1..]);
    }
  }

  /** Blocks are only ever appended: what has been emitted is never changed. */
  lemma {:induction false} RunExtends(st: Scan, lines: seq<string>)
    ensures st.elements <= Run(st, lines).elements
    decreases |lines|
  {
    if lines != [] {
      var st' := Step(st, lines[0]);
      assert st.elements <= st'.elements;
      RunExtends(st', lines[1..]);
    }
  }

  predicate NoFence(lines: seq<string>) {
    forall i :: 0 <= i < |lines| ==> !IsFence(lines[i])
  }

  /** Inside a code block, lines that are not fences are buffered verbatim, in
      order, and nothing else changes. */
  lemma {:induction false} CodeBody(st: Scan, body: seq<string>)
    requires st.inCode && NoFence(body)
    ensures Run(st, body) == st.(code := st.code + body)
    decreases |body|
  {
    if body != [] {
      var st' := Step(st, body[0]);
      assert st' == st.(code := st.code + [body[0]]);
      assert NoFence(body[1..]) by {
        forall i | 0 <= i < |body[1..]| ensures !IsFence(body[1..][i]) {
          assert body[1..][i] == body[i + 1];
        }
      }
      CodeBody(st', body[1..]);
      assert st.code + [body[0]] + body[1..] == st.code + body;
    }
  }

  /** Scanning one line is one step. */
  lemma RunOne(st: Scan, line: string)
    ensures Run(st, [line]) == Step(st, line)
  {
    assert [line][1..] == [];
  }

  /** A fenced block: the opening fence emits nothing, the lines in between are
      joined with line breaks into one code block (never inline-parsed), and the
      list pending before the fence stays pending, so it is emitted after the
      code block. */
  lemma FencedBlock(st: Scan, openFence: string, body: seq<string>, closeFence: string)
    requires !st.inCode && Tidy(st)
    requires IsFence(openFence) && NoFence(body) && IsFence(closeFence)
    ensures Run(st, [openFence] + body + [closeFence])
         == st.(elements := st.elements + [CodeBlock(Join(body, "\n"))])
  {
    var afterOpen := Step(st, openFence);
    assert afterOpen == st.(inCode := true);
    RunOne(st, openFence);
    RunAppend(st, [openFence], body);
    CodeBody(afterOpen, body);
    assert Run(st, [openFence] + body) == st.(inCode := true, code := body);
    RunAppend(st, [openFence] + body, [closeFence]);
    RunOne(st.(inCode := true, code := body), closeFence);
  }

  /** An unterminated fence: at the end of input the pending list comes first and
      the buffered lines still make one code block. */
  lemma UnterminatedFence(st: Scan, openFence: string, body: seq<string>)
    requires !st.inCode && Tidy(st)
    requires IsFence(openFence) && NoFence(body)
    ensures Finish(Run(st, [openFence] + body))
         == Flush(st.elements, st.listItems) + [CodeBlock(Join(body, "\n"))]
  {
    var afterOpen := Step(st, openFence);
    assert afterOpen == st.(inCode := true);
    RunOne(st, openFence);
    RunAppend(st, [openFence], body);
    CodeBody(afterOpen, body);
    assert Run(st, [openFence] + body) == st.(inCode := true, code := body);
  }

  /** A line that starts with neither whitespace nor a backtick is no fence. */
  lemma NotFenceByFirstChar(line: string)
    requires |line| > 0 && !IsWhitespace(line[0]) && line[0] != '`'
    ensures !IsFence(line)
  {
    assert TrimStart(line) == line;
    TrimEndSpec(line);
    var t := Trim(line);
    if |t| >= 3 {
      assert t[0] == line[0];
    }
  }

  /** A blank line (whitespace only) outside a code block flushes the pending
      list and always adds a spacer: the emptiness test guarding the spacer runs
      after the flush has emptied the list. */
  lemma BlankLineSpacer(st: Scan, line: string)
    requires !st.inCode && Trim(line) == ""
    ensures Step(st, line) == st.(elements := Flush(st.elements, st.listItems) + [Spacer], listItems := [])
  {
    TrimEmptyIff(line);
    if |line| > 0 {
      assert IsWhitespace(line[0]);
      assert !StartsWith(line, "# ") && !StartsWith(line, "## ") && !StartsWith(line, "### ") by {
        assert line[0] != '#';
      }
    }
  }

  /** A line that is neither a fence nor a list item. */
  predicate SimpleLine(line: string) {
    !IsFence(line) && !IsListItem(line)
  }

  /** A line that is no fence and no list item, outside a code block and with no
      list pending, adds its own block and nothing else. */
  lemma StepSimple(st: Scan, line: string)
    requires !st.inCode && st.listItems == [] && SimpleLine(line)
    ensures Step(st, line) == st.(elements := st.elements + [LineBlock(line)])
  {
  }

  /** Lines without fences and list items give one block each, in order, with no
      merging: each line's own `LineBlock`. */
  lemma {:induction false} RunSimple(st: Scan, lines: seq<string>)
    requires !st.inCode && st.listItems == []
    requires forall i :: 0 <= i < |lines| ==> SimpleLine(lines[i])
    ensures Run(st, lines) == st.(elements := st.elements + LineBlocks(lines))
    decreases |lines|
  {
    if lines != [] {
      var st' := Step(st, lines[0]);
      StepSimple(st, lines[0]);
      var rest := lines[1..];
      assert forall i :: 0 <= i < |rest| ==> SimpleLine(rest[i]) by {
        forall i | 0 <= i < |rest| ensures SimpleLine(rest[i]) {
          assert rest[i] == lines[i + 1];
        }
      }
      RunSimple(st', rest);
      assert LineBlocks(lines) == [LineBlock(lines[0])] + LineBlocks(rest);
      AppendAssoc(st.elements, [LineBlock(lines[0])], LineBlocks(rest));
    }
  }

  /** A text without fences and list items renders one block per line. */
  lemma RenderSimple(content: string)
    requires content != ""
    requires forall i :: 0 <= i < |SplitOn(content, '\n')| ==> SimpleLine(SplitOn(content, '\n')[i])
    ensures Render(content) == Some(LineBlocks(SplitOn(content, '\n')))
  {
    var lines := SplitOn(content, '\n');
    RunSimple(Start, lines);
    var r := Run(Start, lines);
    assert [] + LineBlocks(lines) == LineBlocks(lines);
    assert r.listItems == [] && !r.inCode && r.elements == LineBlocks(lines);
    assert Finish(r) == LineBlocks(lines);
  }

  /** The spans of list item lines, marker stripped, in order. */
  function ItemSpans(lines: seq<string>): (r: seq<seq<Span>>)
    requires forall i :: 0 <= i < |lines| ==> IsListItem(lines[i])
    ensures |r| == |lines|
    decreases |lines|
  {
    if lines == [] then [] else assert IsListItem(lines[0]); [ParseInline(lines[0][2..])] + ItemSpans(lines[1..])
  }

  /** Item `i` of the list is the spans of line `i` after its two-character marker. */
  lemma {:induction false} ItemSpansAt(lines: seq<string>, i: nat)
    requires forall j :: 0 <= j < |lines| ==> IsListItem(lines[j])
    requires i < |lines|
    ensures IsListItem(lines[i]) && ItemSpans(lines)[i] == ParseInline(lines[i][2..])
    decreases i
  {
    if i > 0 {
      ItemSpansAt(lines[1..], i - 1);
      assert lines[1..][i - 1] == lines[i];
    }
  }

  /** A list item line (`- ` or `* `) outside a code block adds the spans of
      its text after the marker to the pending list, and emits nothing. */
  lemma StepItem(st: Scan, line: string)
    requires !st.inCode && IsListItem(line)
    ensures Step(st, line) == st.(listItems := st.listItems + [ParseInline(line[2..])])
  {
    ListItemNotFence(line);
    assert !IsHeading(line) && !IsQuote(line) by {
      assert line[0] == '-' || line[0] == '*';
    }
  }

  /** Consecutive list items, in any mix of `- ` and `* `, accumulate into one
      pending list, nothing emitted. */
  lemma {:induction false} ListRun(st: Scan, lines: seq<string>)
    requires !st.inCode
    requires forall i :: 0 <= i < |lines| ==> IsListItem(lines[i])
    ensures Run(st, lines) == st.(listItems := st.listItems + ItemSpans(lines))
    decreases |lines|
  {
    if lines != [] {
      var head := ParseInline(lines[0][2..]);
      var st' := st.(listItems := st.listItems + [head]);
      StepItem(st, lines[0]);
      assert Run(st, lines) == Run(st', lines[1..]);
      ListRun(st', lines[1..]);
      var rest := ItemSpans(lines[1..]);
      assert ItemSpans(lines) == [head] + rest;
      AppendAssoc(st.listItems, [head], rest);
    }
  }

  /** A run of list items followed by a line that is no fence, list item, heading
      or quote: the line flushes all the items as one list, then adds its own
      block. */
  lemma ListThenLine(st: Scan, lines: seq<string>, line: string)
    requires !st.inCode && Tidy(st) && st.listItems == [] && |lines| > 0
    requires forall i :: 0 <= i < |lines| ==> IsListItem(lines[i])
    requires SimpleLine(line) && !IsHeading(line) && !IsQuote(line)
    ensures Run(st, lines + [line])
         == st.(elements := st.elements + [BulletList(ItemSpans(lines)), LineBlock(line)])
  {
    ListRun(st, lines);
    RunAppend(st, lines, [line]);
    var mid := st.(listItems := ItemSpans(lines));
    assert st.listItems + ItemSpans(lines) == ItemSpans(lines);
    RunOne(mid, line);
  }

  /** A heading or a quote outside a code block emits its own block and leaves
      the pending list as it is. */
  lemma StepHeadingOrQuote(st: Scan, line: string)
    requires !st.inCode && (IsHeading(line) || IsQuote(line))
    ensures Step(st, line) == st.(elements := st.elements + [LineBlock(line)])
  {
    assert line[0] == '#' || line[0] == '>';
    NotFenceByFirstChar(line);
  }

  /** A run of headings and quotes outside a code block emits their blocks in
      order and keeps the pending list, however long, pending. */
  lemma {:induction false} RunHeadings(st: Scan, lines: seq<string>)
    requires !st.inCode
    requires forall i :: 0 <= i < |lines| ==> IsHeading(lines[i]) || IsQuote(lines[i])
    ensures Run(st, lines) == st.(elements := st.elements + LineBlocks(lines))
    decreases |lines|
  {
    if lines != [] {
      var st' := st.(elements := st.elements + [LineBlock(lines[0])]);
      StepHeadingOrQuote(st, lines[0]);
      assert Run(st, lines) == Run(st', lines[1..]);
      RunHeadings(st', lines[1..]);
      assert LineBlocks(lines) == [LineBlock(lines[0])] + LineBlocks(lines[1..]);
      AppendAssoc(st.elements, [LineBlock(lines[0])], LineBlocks(lines[1..]));
    }
  }

  /** List items followed by headings and quotes: the headings and quotes are
      emitted first, in order, and the whole list only at the end of input. */
  lemma HeadingsBeforeList(items: seq<string>, heads: seq<string>)
    requires |items| > 0
    requires forall i :: 0 <= i < |items| ==> IsListItem(items[i])
    requires forall i :: 0 <= i < |heads| ==> IsHeading(heads[i]) || IsQuote(heads[i])
    ensures Finish(Run(Start, items + heads)) == LineBlocks(heads) + [BulletList(ItemSpans(items))]
  {
    ListRun(Start, items);
    RunAppend(Start, items, heads);
    var mid := Start.(listItems := ItemSpans(items));
    assert Start.listItems + ItemSpans(items) == ItemSpans(items);
    RunHeadings(mid, heads);
    assert [] + LineBlocks(heads) == LineBlocks(heads);
  }

  /** A list item line is never a fence. */
  lemma ListItemNotFence(line: string)
    requires IsListItem(line)
    ensures !IsFence(line)
  {
    assert line[0] == '-' || line[0] == '*';
    NotFenceByFirstChar(line);
  }

  /** A heading does not flush the pending list: in "- item" followed by
      "# title" the heading is emitted first and the list only at the end. */
  lemma HeadingBeforePendingList(item: string, heading: string)
    requires IsListItem(item) && StartsWith(heading, "# ")
    requires '\n' !in item && '\n' !in heading
    ensures Blocks(Join([item, heading], "\n"))
         == [Heading(1, ParseInline(heading[2..])), BulletList([ParseInline(item[2..])])]
  {
    assert heading[0] == '#';
    NotFenceByFirstChar(heading);
    SplitJoin([item, heading], '\n');
    var st := Step(Start, item);
    StepItem(Start, item);
    assert Start.listItems + [ParseInline(item[2..])] == [ParseInline(item[2..])];
    assert Step(st, heading) == st.(elements := [Heading(1, ParseInline(heading[2..]))]);
    assert [item, heading][1..] == [heading];
    RunOne(st, heading);
  }

  /** A fence does not flush the pending list either: a list item followed by a
      fenced block renders as the code block, then the list. */
  lemma ListAfterCodeBlock(item: string, openFence: string, body: seq<string>, closeFence: string)
    requires IsListItem(item) && IsFence(openFence) && NoFence(body) && IsFence(closeFence)
    ensures Finish(Run(Start, [item, openFence] + body + [closeFence]))
         == [CodeBlock(Join(body, "\n")), BulletList([ParseInline(item[2..])])]
  {
    var st := Step(Start, item);
    StepItem(Start, item);
    assert Start.listItems + [ParseInline(item[2..])] == [ParseInline(item[2..])];
    assert [item, openFence] + body + [closeFence] == [item] + ([openFence] + body + [closeFence]);
    RunAppend(Start, [item], [openFence] + body + [closeFence]);
    FencedBlock(st, openFence, body, closeFence);
  }

  /** Headings need the exact marker at the very start of the line: four hashes
      or a leading space make a paragraph. */
  lemma HeadingNeedsExactPrefix()
    ensures LineBlock("#### x") == Paragraph(ParseInline("#### x"))
    ensures LineBlock(" # x") == Paragraph(ParseInline(" # x"))
  {
    var a := "#### x";
    assert a[..2] != "# " && a[..3] != "## " && a[..4] != "### " by { assert a[1] == '#' && a[2] == '#' && a[3] == '#'; }
    assert Trim(a) != "" by { TrimEmptyIff(a); assert !IsWhitespace(a[0]); }
    var b := " # x";
    assert b[..2] != "# " && b[..3] != "## " && b[..4] != "### " && b[..2] != "> " by { assert b[0] == ' '; }
    assert Trim(b) != "" by { TrimEmptyIff(b); assert !IsWhitespace(b[1]); }
  }
}
