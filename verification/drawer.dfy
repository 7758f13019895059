/** The two pure text combinators of the terminal drawer: boards printed
    side by side, and a titled frame around a block of text. Strings are
    sequences of Unicode characters; where the source measures a string
    with `len`, the model takes its length in UTF-8 bytes. */
module Drawer {
  import opened Text

  /** The lines of every board, in argument order. */
  function BoardLines(boards: seq<string>): (lines: seq<seq<string>>)
    ensures |lines| == |boards|
    ensures forall j | 0 <= j < |boards| :: lines[j] == Split(boards[j], '\n')
  {
    seq(|boards|, j requires 0 <= j < |boards| => Split(boards[j], '\n'))
  }

  /** The greatest number of lines among the boards, or 0 for none. */
  function MaxLines(lines: seq<seq<string>>): (n: nat)
    ensures forall j | 0 <= j < |lines| :: |lines[j]| <= n
    ensures n == 0 || exists j | 0 <= j < |lines| :: |lines[j]| == n
  {
    if |lines| == 0 then 0
    else
      var rest := MaxLines(lines[1..]);
      assert forall j | 1 <= j < |lines| :: lines[j] == lines[1..][j - 1];
      if |lines[0]| > rest then |lines[0]| else rest
  }

  /** Line `i` of the merged text: line `i` of every board that has one,
      each followed by the separator, in argument order. */
  function MergedLine(lines: seq<seq<string>>, i: nat, separator: string): string {
    if |lines| == 0 then ""
    else (if i < |lines[0]| then lines[0][i] + separator else "") + MergedLine(lines[1..], i, separator)
  }

  /** Merged line `i` for every line of the longest board. */
  function MergedLines(lines: seq<seq<string>>, separator: string): (merged: seq<string>)
    ensures |merged| == MaxLines(lines)
    ensures forall i | 0 <= i < |merged| :: merged[i] == MergedLine(lines, i, separator)
  {
    seq(MaxLines(lines), i requires 0 <= i < MaxLines(lines) => MergedLine(lines, i, separator))
  }

  /** Every merged line is a single line when the separator holds no
      newline. */
  lemma MergedLinesAreLines(lines: seq<seq<string>>, separator: string)
    requires forall j, k | 0 <= j < |lines| && 0 <= k < |lines[j]| :: '\n' !in lines[j][k]
    requires '\n' !in separator
    ensures forall i | 0 <= i < |MergedLines(lines, separator)| :: '\n' !in MergedLines(lines, separator)[i]
  {
    var parts := MergedLines(lines, separator);
    forall i | 0 <= i < |parts| ensures '\n' !in parts[i] {
      MergedLineIsOneLine(lines, i, separator);
    }
  }

  /** `mergeBoardsHorizontally`: the merged lines separated by newlines,
      with none after the last. Split at its newlines, the merged text
      gives back exactly the merged lines; with no boards it is empty. */
  function MergeBoardsHorizontally(separator: string, boards: seq<string>): (merged: string)
    ensures |boards| == 0 ==> merged == ""
    ensures |boards| >= 1 && '\n' !in separator ==>
      Split(merged, '\n') == MergedLines(BoardLines(boards), separator)
  {
    var lines := BoardLines(boards);
    var parts := MergedLines(lines, separator);
    if |boards| >= 1 && '\n' !in separator then
      assert |lines[0]| >= 1;
      MergedLinesAreLines(lines, separator);
      SplitJoin(parts, '\n');
      Join(parts, "\n")
    else
      Join(parts, "\n")
  }

  /** A board that lacks line `i` adds nothing to merged line `i`; every
      other board adds its line and the separator. */
  lemma {:induction false} MergedLineSkipsShortBoards(lines: seq<seq<string>>, i: nat, separator: string)
    requires forall j | 0 <= j < |lines| :: |lines[j]| <= i
    ensures MergedLine(lines, i, separator) == ""
  {
    if |lines| > 0 {
      assert forall j | 0 <= j < |lines| - 1 :: lines[1..][j] == lines[j + 1];
      MergedLineSkipsShortBoards(lines[1..], i, separator);
    }
  }

  /** No merged line holds a newline when the separator holds none. */
  lemma {:induction false} MergedLineIsOneLine(lines: seq<seq<string>>, i: nat, separator: string)
    requires forall j, k | 0 <= j < |lines| && 0 <= k < |lines[j]| :: '\n' !in lines[j][k]
    requires '\n' !in separator
    ensures '\n' !in MergedLine(lines, i, separator)
  {
    if |lines| > 0 {
      assert forall j | 0 <= j < |lines| - 1 :: lines[1..][j] == lines[j + 1];
      MergedLineIsOneLine(lines[1..], i, separator);
    }
  }

  /** Read back line by line, the merged text has exactly as many lines as
      the longest board, and line `i` is merged line `i`. */
  lemma MergeLines(separator: string, boards: seq<string>)
    requires |boards| >= 1 && '\n' !in separator
    ensures var lines := BoardLines(boards);
      var merged := Split(MergeBoardsHorizontally(separator, boards), '\n');
      && |merged| == MaxLines(lines)
      && forall i | 0 <= i < |merged| :: merged[i] == MergedLine(lines, i, separator)
  {
    var lines := BoardLines(boards);
    var parts := MergedLines(lines, separator);
    assert Split(MergeBoardsHorizontally(separator, boards), '\n') == parts;
  }

  /** Past the last line of the longest board there is nothing to merge. */
  lemma NothingPastLongestBoard(separator: string, boards: seq<string>, i: nat)
    requires i >= MaxLines(BoardLines(boards))
    ensures MergedLine(BoardLines(boards), i, separator) == ""
  {
    MergedLineSkipsShortBoards(BoardLines(boards), i, separator);
  }

  /** The width inside the frame: the title's length plus five, or the
      content width when that is larger. */
  function WindowWidth(title: string, contentWidth: int): (w: int)
    ensures w >= ByteLen(title) + 5 && w >= contentWidth
    ensures w == ByteLen(title) + 5 || w == contentWidth
  {
    if contentWidth > ByteLen(title) + 5 then contentWidth else ByteLen(title) + 5
  }

  const TopLeft: char := '\U{250C}'
  const TopRight: char := '\U{2510}'
  const BottomLeft: char := '\U{2514}'
  const BottomRight: char := '\U{2518}'
  const Horizontal: char := '\U{2500}'
  const Vertical: char := '\U{2502}'

  function TopBorder(title: string, width: int): string {
    [TopLeft, Horizontal, ' '] + title + " " + Repeat(Horizontal, width - ByteLen(title) - 3) + [TopRight]
  }

  function ContentLine(line: string, padding: int): string {
    [Vertical] + line + Repeat(' ', padding) + [Vertical]
  }

  function BottomBorder(width: int): string {
    [BottomLeft] + Repeat(Horizontal, width) + [BottomRight]
  }

  /** Every content line between the two borders, padded alike. */
  function ContentLines(contentLines: seq<string>, padding: int): (middle: seq<string>)
    ensures |middle| == |contentLines|
    ensures forall i | 0 <= i < |middle| :: middle[i] == ContentLine(contentLines[i], padding)
  {
    seq(|contentLines|, i requires 0 <= i < |contentLines| => ContentLine(contentLines[i], padding))
  }

  /** The lines of the frame: the top border with the title, every content
      line padded by the same number of spaces, the bottom border. */
  function FrameLines(title: string, content: string, contentWidth: int): (lines: seq<string>)
    ensures |lines| == Occurrences(content, '\n') + 3
    ensures lines[0] == TopBorder(title, WindowWidth(title, contentWidth))
    ensures lines[|lines| - 1] == BottomBorder(WindowWidth(title, contentWidth))
    ensures forall i | 0 <= i < |lines| - 2 ::
      lines[i + 1] == ContentLine(Split(content, '\n')[i], WindowWidth(title, contentWidth) - contentWidth)
  {
    var width := WindowWidth(title, contentWidth);
    var middle := ContentLines(Split(content, '\n'), width - contentWidth);
    var lines := [TopBorder(title, width)] + middle + [BottomBorder(width)];
    assert forall i | 0 <= i < |middle| :: lines[i + 1] == middle[i];
    lines
  }

  /** `windowAround`: each line of the frame followed by a newline. */
  function WindowAround(title: string, content: string, contentWidth: int): (s: string)
    ensures s == Join(FrameLines(title, content, contentWidth), "\n") + "\n"
  {
    var lines := FrameLines(title, content, contentWidth);
    TerminatedIsJoin(lines, '\n');
    Terminated(lines, "\n")
  }

  /** Read back line by line, the window is exactly the lines of the
      frame, followed by an empty remainder after the final newline; this
      needs a title without a newline. */
  lemma WindowLines(title: string, content: string, contentWidth: int)
    requires '\n' !in title
    ensures Split(WindowAround(title, content, contentWidth), '\n') == FrameLines(title, content, contentWidth) + [""]
  {
    var frame := FrameLines(title, content, contentWidth);
    var all := frame + [""];
    JoinAppendEmpty(frame, "\n");
    FrameLinesAreLines(title, content, contentWidth);
    assert forall k | 0 <= k < |all| :: '\n' !in all[k] by {
      assert forall k | 0 <= k < |frame| :: all[k] == frame[k];
    }
    SplitJoin(all, '\n');
  }

  /** Neither border holds a newline, when the title holds none. */
  lemma BordersAreLines(title: string, width: int)
    requires '\n' !in title
    ensures '\n' !in TopBorder(title, width)
    ensures '\n' !in BottomBorder(width)
  {
    var run := Repeat(Horizontal, width - ByteLen(title) - 3);
    assert TopBorder(title, width) == [TopLeft, Horizontal, ' '] + title + " " + run + [TopRight];
    assert '\n' !in run;
    assert '\n' !in Repeat(Horizontal, width);
  }

  /** A content line holds a newline only when its text does. */
  lemma ContentLineIsLine(line: string, padding: int)
    requires '\n' !in line
    ensures '\n' !in ContentLine(line, padding)
  {
    assert '\n' !in Repeat(' ', padding);
  }

  /** No line of the frame holds a newline, when the title holds none. */
  lemma FrameLinesAreLines(title: string, content: string, contentWidth: int)
    requires '\n' !in title
    ensures var frame := FrameLines(title, content, contentWidth);
      forall k | 0 <= k < |frame| :: '\n' !in frame[k]
  {
    var frame := FrameLines(title, content, contentWidth);
    var contentLines := Split(content, '\n');
    var width := WindowWidth(title, contentWidth);
    BordersAreLines(title, width);
    forall k | 0 <= k < |frame| ensures '\n' !in frame[k] {
      if 0 < k < |frame| - 1 {
        var i := k - 1;
        assert frame[i + 1] == ContentLine(contentLines[i], width - contentWidth);
        ContentLineIsLine(contentLines[i], width - contentWidth);
      }
    }
  }

  /** Joining one more, empty, part adds just the separator. */
  lemma {:induction false} JoinAppendEmpty(parts: seq<string>, sep: string)
    requires |parts| >= 1
    ensures Join(parts + [""], sep) == Join(parts, sep) + sep
  {
    if |parts| > 1 {
      assert (parts + [""])[1..] == parts[1..] + [""];
      JoinAppendEmpty(parts[1..], sep);
    }
  }

  /** With a title of single-byte characters and content lines of exactly
      `contentWidth` characters, every line of the frame is two characters
      wider than the inside width: the frame is a rectangle. */
  lemma WindowIsRectangular(title: string, content: string, contentWidth: int)
    requires forall k | 0 <= k < |title| :: title[k] as int < 0x80
    requires forall i | 0 <= i < |Split(content, '\n')| :: |Split(content, '\n')[i]| == contentWidth
    ensures var frame := FrameLines(title, content, contentWidth);
      forall i | 0 <= i < |frame| :: |frame[i]| == WindowWidth(title, contentWidth) + 2
  {
  }
}
