/**
 Responses of several rows: the broker joins them with newlines, the client takes them apart with
 std::getline and counts them by their newlines.
 */
module Lines {
  import opened Text

  function JoinLines(lines: seq<string>): string {
    if lines == [] then ""
    else if |lines| == 1 then lines[0]
    else JoinLines(lines[..|lines| - 1]) + "\n" + lines[|lines| - 1]
  }

  // What a loop over std::getline collects.
  function SplitLines(s: string): seq<string>
    decreases |s|
  {
    if s == "" then [] else [Line(s)] + SplitLines(AfterLine(s))
  }

  function CountNewlines(s: string): nat {
    if s == "" then 0 else CountNewlines(s[..|s| - 1]) + if s[|s| - 1] == '\n' then 1 else 0
  }

  // count_messages of the consumer
  function CountMessages(response: string): nat {
    if response == "" then 0 else CountNewlines(response) + 1
  }

  // Rows that can be told apart after joining.
  ghost predicate AreRows(lines: seq<string>) {
    forall i | 0 <= i < |lines| :: lines[i] != "" && '\n' !in lines[i]
  }

  lemma {:induction false} JoinFront(first: string, lines: seq<string>)
    requires lines != []
    ensures JoinLines([first] + lines) == first + "\n" + JoinLines(lines)
  {
    var all := [first] + lines;
    if |lines| == 1 {
      assert all[..1] == [first];
    } else {
      assert all[..|all| - 1] == [first] + lines[..|lines| - 1];
      JoinFront(first, lines[..|lines| - 1]);
    }
  }

  // The first count rows of a response, and the newline that announces another one.
  function JoinedSoFar(lines: seq<string>, count: nat): string
    requires count <= |lines|
  {
    JoinLines(lines[..count]) + if 0 < count < |lines| then "\n" else ""
  }

  lemma JoinStarts(lines: seq<string>)
    ensures JoinedSoFar(lines, 0) == ""
    ensures JoinedSoFar(lines, |lines|) == JoinLines(lines)
  {
    assert lines[..|lines|] == lines;
    assert JoinLines(lines) + "" == JoinLines(lines);
  }

  lemma JoinOneMore(lines: seq<string>, count: nat)
    requires count < |lines|
    ensures JoinedSoFar(lines, count + 1) == JoinedSoFar(lines, count) + lines[count] + if count + 1 < |lines| then "\n" else ""
  {
    var front := lines[..count];
    assert lines[..count + 1][..count] == front;
    if count == 0 {
      assert "" + lines[0] == lines[0];
    }
    assert JoinedSoFar(lines, count) + lines[count] == JoinLines(lines[..count + 1]);
  }

  lemma SplitFront(first: string, after: string)
    requires first != "" && '\n' !in first
    ensures SplitLines(first) == [first]
    ensures SplitLines(first + "\n" + after) == [first] + SplitLines(after)
  {
    hide LineLength;
    assert first + "" == first;
    ReadsLine(first, "");
    assert first + "\n" + after == first + ("\n" + after);
    assert ("\n" + after)[1..] == after;
    ReadsLine(first, "\n" + after);
    hide Line, AfterLine;
  }

  /** Splitting undoes joining. */
  lemma {:induction false} SplitUndoesJoin(lines: seq<string>)
    requires AreRows(lines)
    ensures SplitLines(JoinLines(lines)) == lines
    ensures JoinLines(lines) == "" <==> lines == []
  {
    hide Line, AfterLine;
    if |lines| == 1 {
      SplitFront(lines[0], "");
      assert lines == [lines[0]];
    } else if |lines| > 1 {
      assert lines == [lines[0]] + lines[1..];
      SplitUndoesJoin(lines[1..]);
      hide SplitLines;
      JoinFront(lines[0], lines[1..]);
      SplitFront(lines[0], JoinLines(lines[1..]));
    }
  }

  lemma {:induction false} JoinLonger(lines: seq<string>, more: seq<string>)
    ensures |JoinLines(lines)| <= |JoinLines(lines + more)|
    decreases |more|
  {
    if more == [] {
      assert lines + more == lines;
    } else {
      var front := more[..|more| - 1];
      JoinLonger(lines, front);
      assert (lines + more)[..|lines + more| - 1] == lines + front;
      assert |lines + more| == 1 ==> lines == [];
    }
  }

  lemma {:induction false} CountConcat(a: string, b: string)
    ensures CountNewlines(a + b) == CountNewlines(a) + CountNewlines(b)
  {
    if b == "" {
      assert a + b == a;
    } else {
      assert (a + b)[..|a + b| - 1] == a + b[..|b| - 1];
      CountConcat(a, b[..|b| - 1]);
    }
  }

  lemma {:induction false} NoNewlines(s: string)
    requires '\n' !in s
    ensures CountNewlines(s) == 0
  {
    if s != "" {
      NoNewlines(s[..|s| - 1]);
    }
  }

  /** Of any text, the count is the number of lines std::getline finds in it, and one more when it ends in a newline. */
  lemma {:induction false} CountOfAnyText(text: string)
    requires text != ""
    ensures CountMessages(text) == |SplitLines(text)| + if text[|text| - 1] == '\n' then 1 else 0
    decreases |text|
  {
    var line, after := Line(text), AfterLine(text);
    LineParts(text);
    OneLineMore(text);
    hide CountNewlines, SplitLines, Line, AfterLine;
    if |line| < |text| {
      CountBehind(line, after);
      NothingCounts();
      if after != "" {
        CountOfAnyText(after);
      }
    } else {
      NoNewlines(line);
      NothingCounts();
    }
  }

  lemma OneLineMore(text: string)
    requires text != ""
    ensures |SplitLines(text)| == 1 + |SplitLines(AfterLine(text))|
  {
    hide Line, AfterLine;
  }

  lemma NothingCounts()
    ensures CountNewlines("") == |SplitLines("")| == 0
  {
  }

  lemma CountBehind(line: string, after: string)
    requires '\n' !in line
    ensures CountNewlines(line + "\n" + after) == 1 + CountNewlines(after)
  {
    NoNewlines(line);
    OneNewline();
    hide CountNewlines;
    CountConcat(line + "\n", after);
    CountConcat(line, "\n");
  }

  lemma LineParts(text: string)
    requires text != ""
    ensures '\n' !in Line(text)
    ensures if |Line(text)| < |text| then text == Line(text) + "\n" + AfterLine(text) else text == Line(text) && AfterLine(text) == ""
  {
    var n := LineLength(text);
    if n < |text| {
      assert text == text[..n] + [text[n]] + text[n + 1..];
    }
  }

  lemma OneNewline()
    ensures CountNewlines("\n") == 1
  {
    assert "\n"[..0] == "";
  }

  /** Counting newlines counts the rows, zero exactly when there are none. */
  lemma {:induction false} CountOfJoin(lines: seq<string>)
    requires AreRows(lines)
    ensures CountMessages(JoinLines(lines)) == |lines|
  {
    SplitUndoesJoin(lines);
    if |lines| == 1 {
      NoNewlines(lines[0]);
    } else if |lines| > 1 {
      var front, last := lines[..|lines| - 1], lines[|lines| - 1];
      CountOfJoin(front);
      SplitUndoesJoin(front);
      NoNewlines(last);
      CountConcat(JoinLines(front) + "\n", last);
      CountConcat(JoinLines(front), "\n");
      OneNewline();
    }
  }
}
