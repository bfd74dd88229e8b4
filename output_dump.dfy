/** The output side of `analyzeImage`: the flat float array of the
    [1, 67, 8400] output tensor is read back as 67 rows of 8400 scores
    (score (i, j) at `i * 8400 + j`) and rendered as one text block per class:
    the header `Class i:` and a newline, the 8400 scores each formatted with
    `%.2f` and followed by a space, then a blank line.

    The `%.2f` formatter is a parameter `fmt`. `Dump` specifies the string;
    `DumpOutput` is proved to build exactly that, and `DumpLayout` proves how
    the string reads back: split at newlines it gives, per class, the header,
    the line of scores and an empty line, and the line of scores split at
    spaces gives the formatted scores of that class in anchor order. */
module OutputDump {
  import opened RowMajor

  /** Classes in the output tensor (its second dimension). */
  const NumClasses: nat := 67
  /** Candidate boxes per class (its third dimension). */
  const NumAnchors: nat := 8400

  // ---------------------------------------------------------------------------
  // Decimal rendering of the class index

  function Digit(d: nat): (c: char)
    requires d < 10
    ensures '0' <= c <= '9'
  {
    (48 + d) as char
  }

  /** Kotlin's rendering of a non-negative `Int` in a string template:
      decimal digits, most significant first, no leading zero. */
  function Decimal(n: nat): (s: string)
    ensures |s| >= 1
    ensures forall k :: 0 <= k < |s| ==> '0' <= s[k] <= '9'
    ensures s[0] == '0' ==> s == "0"
  {
    if n < 10 then [Digit(n)] else Decimal(n / 10) + [Digit(n % 10)]
  }

  /** Reads a string of decimal digits as a number. */
  function ParseDecimal(s: string): nat
    requires forall k :: 0 <= k < |s| ==> '0' <= s[k] <= '9'
  {
    if s == [] then 0 else ParseDecimal(s[..|s| - 1]) * 10 + (s[|s| - 1] as int - 48)
  }

  /** Reading a rendered index gives the index back. */
  lemma {:induction false} DecimalRoundTrip(n: nat)
    ensures ParseDecimal(Decimal(n)) == n
  {
    if n >= 10 {
      var s := Decimal(n);
      assert s[..|s| - 1] == Decimal(n / 10);
      DecimalRoundTrip(n / 10);
    }
  }

  /** Distinct class indices get distinct headers: the header determines
      the index. */
  lemma HeaderInjective(m: nat, n: nat)
    requires Header(m) == Header(n)
    ensures m == n
  {
    var h := Header(m);
    assert Decimal(m) == h[6..|h| - 2];
    assert Decimal(n) == h[6..|h| - 2];
    DecimalRoundTrip(m);
    DecimalRoundTrip(n);
  }

  // ---------------------------------------------------------------------------
  // Specification of the string

  /** `"Class $i:\n"`: one line, ended by the only newline in it. */
  function Header(i: nat): (h: string)
    ensures |h| >= 9 && h[..6] == "Class " && h[|h| - 2..] == ":\n"
    ensures forall k :: 0 <= k < |h| - 1 ==> h[k] != '\n'
  {
    "Class " + Decimal(i) + ":\n"
  }

  /** The text of scores 0 .. count-1 of class `i`, each `%.2f ` formatted. */
  function Entries(result: seq<real>, i: nat, count: nat, anchors: nat, fmt: real -> string): (e: string)
    requires count <= anchors
    requires FlatIndex(i, count, anchors) <= |result|
    ensures |e| >= count
    ensures count > 0 ==> e[|e| - 1] == ' '
  {
    if count == 0 then []
    else Entries(result, i, count - 1, anchors, fmt) + fmt(result[FlatIndex(i, count - 1, anchors)]) + " "
  }

  /** The block of class `i`: header, its scores, blank line. */
  function Block(result: seq<real>, i: nat, anchors: nat, fmt: real -> string): (b: string)
    requires FlatIndex(i, anchors, anchors) <= |result|
    ensures |b| >= |Header(i)| + 2
    ensures b[..|Header(i)|] == Header(i) && b[|b| - 2..] == "\n\n"
  {
    Header(i) + Entries(result, i, anchors, anchors, fmt) + "\n\n"
  }

  /** The whole string for classes 0 .. classes-1. */
  function Dump(result: seq<real>, classes: nat, anchors: nat, fmt: real -> string): (d: string)
    requires FlatIndex(classes, 0, anchors) <= |result|
    ensures d == [] <==> classes == 0
    ensures classes > 0 ==> |d| >= 11 && d[..9] == "Class 0:\n" && d[|d| - 2..] == "\n\n"
  {
    if classes == 0 then []
    else
      FlatIndexNextRow(classes - 1, anchors);
      var before := Dump(result, classes - 1, anchors, fmt);
      var block := Block(result, classes - 1, anchors, fmt);
      assert Decimal(0) == "0";
      assert classes == 1 ==> block[..9] == "Class 0:\n";
      assert (before + block)[|before + block| - 2..] == block[|block| - 2..];
      assert |before| >= 9 ==> (before + block)[..9] == before[..9];
      assert before == [] ==> before + block == block;
      before + block
  }

  // ---------------------------------------------------------------------------
  // The dump loop of `analyzeImage`

  /** The inner `j` loop of the dump: append the scores of class `i`, read
      at `i * anchors + j` for j = 0 .. anchors-1, each formatted and
      followed by a space. */
  method AppendScores(text: string, result: seq<real>, i: nat, anchors: nat, fmt: real -> string)
    returns (text': string)
    requires FlatIndex(i, anchors, anchors) <= |result|
    ensures text' == text + Entries(result, i, anchors, anchors, fmt)
  {
    text' := text;
    for j := 0 to anchors
      invariant text' == text + Entries(result, i, j, anchors, fmt)
    {
      var value := result[FlatIndex(i, j, anchors)];
      text' := text' + (fmt(value) + " ");
    }
  }

  /** The dump loops of `analyzeImage`, for an output of `classes` rows of
      `anchors` scores (67 and 8400 in the app): for each class, append the
      header, the class's scores and a blank line. The result is exactly
      `Dump` of the output array. */
  method DumpOutput(result: seq<real>, classes: nat, anchors: nat, fmt: real -> string)
    returns (resultString: string)
    requires |result| == classes * anchors
    ensures resultString == Dump(result, classes, anchors, fmt)
  {
    resultString := "";
    for i := 0 to classes
      invariant FlatIndex(i, 0, anchors) <= |result|
      invariant resultString == Dump(result, i, anchors, fmt)
    {
      FlatIndexNextRow(i, anchors);
      MulMonotone(i + 1, classes, anchors);
      ghost var done := resultString;
      resultString := resultString + ("Class " + Decimal(i) + ":\n");
      resultString := AppendScores(resultString, result, i, anchors, fmt);
      resultString := resultString + "\n\n";
      DumpStep(result, i, anchors, fmt);
      Append3(done, Header(i), Entries(result, i, anchors, anchors, fmt), "\n\n");
    }
  }

  /** One more class appends its block. */
  lemma DumpStep(result: seq<real>, i: nat, anchors: nat, fmt: real -> string)
    requires FlatIndex(i + 1, 0, anchors) <= |result|
    ensures FlatIndex(i, anchors, anchors) <= |result|
    ensures Dump(result, i + 1, anchors, fmt) ==
            Dump(result, i, anchors, fmt) + (Header(i) + Entries(result, i, anchors, anchors, fmt) + "\n\n")
  {
    FlatIndexNextRow(i, anchors);
  }

  lemma Append2(a: string, b: string, c: string)
    ensures a + b + c == a + (b + c)
  {
  }

  lemma Append3(a: string, b: string, c: string, d: string)
    ensures a + b + c + d == a + (b + c + d)
  {
  }

  // ---------------------------------------------------------------------------
  // Reading the string back

  /** The pieces of `s` between occurrences of `sep`: one more piece than
      there are separators, none containing `sep`. */
  function Split(s: string, sep: char): (parts: seq<string>)
    ensures |parts| >= 1
    ensures forall k :: 0 <= k < |parts| ==> sep !in parts[k]
  {
    if s == [] then [""]
    else
      var rest := Split(s[1..], sep);
      if s[0] == sep then [""] + rest else [[s[0]] + rest[0]] + rest[1..]
  }

  /** The pieces glued back together with the separator between them. */
  function Join(parts: seq<string>, sep: char): string
    requires |parts| >= 1
  {
    if |parts| == 1 then parts[0] else parts[0] + [sep] + Join(parts[1..], sep)
  }

  /** Splitting loses nothing: joining the pieces gives the string back. */
  lemma {:induction false} JoinSplit(s: string, sep: char)
    ensures Join(Split(s, sep), sep) == s
  {
    if s != [] {
      var rest := Split(s[1..], sep);
      JoinSplit(s[1..], sep);
      if s[0] == sep {
        assert Split(s, sep) == [""] + rest;
        assert (([""] + rest)[1..]) == rest;
        assert [s[0]] + s[1..] == s;
      } else {
        var parts := [[s[0]] + rest[0]] + rest[1..];
        assert Split(s, sep) == parts;
        assert parts[1..] == rest[1..];
        if |rest| == 1 {
          assert [s[0]] + s[1..] == s;
        } else {
          assert Join(rest, sep) == rest[0] + [sep] + Join(rest[1..], sep);
          assert Join(parts, sep) == [s[0]] + rest[0] + [sep] + Join(rest[1..], sep);
          assert [s[0]] + s[1..] == s;
        }
      }
    }
  }

  /** A string without the separator is a single piece. */
  lemma {:induction false} SplitNone(s: string, sep: char)
    requires sep !in s
    ensures Split(s, sep) == [s]
  {
    if s != [] {
      SplitNone(s[1..], sep);
      assert [s[0]] + s[1..] == s;
    }
  }

  /** Splitting at a separator splits the two sides independently. */
  lemma {:induction false} SplitAt(a: string, sep: char, b: string)
    ensures Split(a + [sep] + b, sep) == Split(a, sep) + Split(b, sep)
  {
    var s := a + [sep] + b;
    if a == [] {
      assert s[0] == sep && s[1..] == b;
    } else {
      assert s[0] == a[0] && s[1..] == a[1..] + [sep] + b;
      SplitAt(a[1..], sep, b);
    }
  }

  /** The formatted scores of class `i`, in anchor order. */
  function Formatted(result: seq<real>, i: nat, anchors: nat, fmt: real -> string): (words: seq<string>)
    requires FlatIndex(i, anchors, anchors) <= |result|
    ensures |words| == anchors
  {
    seq(anchors, j requires 0 <= j < anchors => fmt(result[FlatIndex(i, j, anchors)]))
  }

  /** Each score is followed by exactly one space, so splitting the scores of
      a class at spaces gives back the formatted scores, then what follows. */
  lemma {:induction false} EntriesWords(result: seq<real>, i: nat, count: nat, anchors: nat,
                                        fmt: real -> string, tail: string)
    requires count <= anchors && FlatIndex(i, anchors, anchors) <= |result|
    requires forall v :: ' ' !in fmt(v)
    requires ' ' !in tail
    ensures Split(Entries(result, i, count, anchors, fmt) + tail, ' ') ==
            Formatted(result, i, anchors, fmt)[..count] + [tail]
  {
    var words := Formatted(result, i, anchors, fmt);
    if count == 0 {
      SplitNone(tail, ' ');
      assert Entries(result, i, count, anchors, fmt) + tail == tail;
    } else {
      var w := fmt(result[FlatIndex(i, count - 1, anchors)]);
      var before := Entries(result, i, count - 1, anchors, fmt);
      EntriesWords(result, i, count - 1, anchors, fmt, w);
      SplitAt(before + w, ' ', tail);
      assert before + w + " " + tail == before + w + [' '] + tail;
      SplitNone(tail, ' ');
      assert words[..count] == words[..count - 1] + [w];
    }
  }

  /** The lines of the dump for classes 0 .. classes-1 (before the final
      empty one): per class its header, its scores and an empty line. */
  function Lines(result: seq<real>, classes: nat, anchors: nat, fmt: real -> string): (lines: seq<string>)
    requires FlatIndex(classes, 0, anchors) <= |result|
    ensures |lines| == 3 * classes
  {
    if classes == 0 then []
    else
      FlatIndexNextRow(classes - 1, anchors);
      var i := classes - 1;
      Lines(result, i, anchors, fmt) +
        ["Class " + Decimal(i) + ":", Entries(result, i, anchors, anchors, fmt), ""]
  }

  /** The dump, followed by any text without a newline, splits at newlines
      into `Lines` and that text. */
  lemma {:induction false} DumpSplitsIntoLines(result: seq<real>, classes: nat, anchors: nat,
                                               fmt: real -> string, tail: string)
    requires FlatIndex(classes, 0, anchors) <= |result|
    requires forall v :: '\n' !in fmt(v)
    requires '\n' !in tail
    ensures Split(Dump(result, classes, anchors, fmt) + tail, '\n') ==
            Lines(result, classes, anchors, fmt) + [tail]
  {
    if classes == 0 {
      SplitNone(tail, '\n');
      assert Dump(result, classes, anchors, fmt) + tail == tail;
    } else {
      var i := classes - 1;
      FlatIndexNextRow(i, anchors);
      var title := "Class " + Decimal(i) + ":";
      var scores := Entries(result, i, anchors, anchors, fmt);
      var before := Dump(result, i, anchors, fmt);
      ScoresHaveNoNewline(result, i, anchors, anchors, fmt);
      var lines := Lines(result, i, anchors, fmt);
      DumpSplitsIntoLines(result, i, anchors, fmt, title);
      LastBlock(result, classes, anchors, fmt);
      calc {
        Split(Dump(result, classes, anchors, fmt) + tail, '\n');
        Split(before + (title + ['\n'] + (scores + "\n\n")) + tail, '\n');
        { BlockSplits(before, title, scores, tail, lines); }
        lines + [title, scores, ""] + [tail];
        Lines(result, classes, anchors, fmt) + [tail];
      }
    }
  }

  /** The last class's block of `Dump` and its lines in `Lines`. */
  lemma LastBlock(result: seq<real>, classes: nat, anchors: nat, fmt: real -> string)
    requires FlatIndex(classes, 0, anchors) <= |result| && classes > 0
    ensures FlatIndex(classes - 1, anchors, anchors) <= |result|
    ensures var i := classes - 1;
      var title := "Class " + Decimal(i) + ":";
      var scores := Entries(result, i, anchors, anchors, fmt);
      Dump(result, classes, anchors, fmt) == Dump(result, i, anchors, fmt) + (title + ['\n'] + (scores + "\n\n")) &&
      Lines(result, classes, anchors, fmt) == Lines(result, i, anchors, fmt) + [title, scores, ""]
  {
    var i := classes - 1;
    var title := "Class " + Decimal(i) + ":";
    var scores := Entries(result, i, anchors, anchors, fmt);
    DumpStep(result, i, anchors, fmt);
    assert Header(i) == title + ['\n'];
    Append2(title + ['\n'], scores, "\n\n");
  }

  /** One more block after text whose lines are known: the header line, the
      scores line and the empty line follow. */
  lemma BlockSplits(before: string, title: string, scores: string, tail: string, lines: seq<string>)
    requires Split(before + title, '\n') == lines + [title]
    requires '\n' !in scores && '\n' !in tail
    ensures Split(before + (title + ['\n'] + (scores + "\n\n")) + tail, '\n') == lines + [title, scores, ""] + [tail]
  {
    calc {
      Split(before + (title + ['\n'] + (scores + "\n\n")) + tail, '\n');
      { Regroup(before, title, ['\n'], scores + "\n\n", tail); }
      Split((before + title) + ['\n'] + (scores + "\n\n" + tail), '\n');
      { SplitAt(before + title, '\n', scores + "\n\n" + tail); }
      Split(before + title, '\n') + Split(scores + "\n\n" + tail, '\n');
      { BlockEndSplits(scores, tail); }
      lines + [title] + [scores, "", tail];
    }
  }

  lemma Regroup(a: string, b: string, c: string, d: string, e: string)
    ensures a + (b + c + d) + e == (a + b) + c + (d + e)
  {
  }

  /** The end of a block: scores, newline, empty line, then the next text. */
  lemma BlockEndSplits(scores: string, tail: string)
    requires '\n' !in scores && '\n' !in tail
    ensures Split(scores + "\n\n" + tail, '\n') == [scores, "", tail]
  {
    assert scores + "\n\n" + tail == scores + ['\n'] + ([] + ['\n'] + tail);
    SplitAt(scores, '\n', [] + ['\n'] + tail);
    SplitAt([], '\n', tail);
    SplitNone(scores, '\n');
    SplitNone(tail, '\n');
    SplitNone([], '\n');
  }

  /** The scores of a class contain no newline. */
  lemma {:induction false} ScoresHaveNoNewline(result: seq<real>, i: nat, count: nat, anchors: nat,
                                               fmt: real -> string)
    requires count <= anchors && FlatIndex(i, count, anchors) <= |result|
    requires forall v :: '\n' !in fmt(v)
    ensures '\n' !in Entries(result, i, count, anchors, fmt)
  {
    if count > 0 {
      ScoresHaveNoNewline(result, i, count - 1, anchors, fmt);
    }
  }

  /** Line `k` of `Lines`: line 3i is the header of class i without its
      newline, line 3i+1 its scores, line 3i+2 empty. */
  lemma {:induction false} LinesAt(result: seq<real>, classes: nat, anchors: nat, fmt: real -> string, i: nat)
    requires FlatIndex(classes, 0, anchors) <= |result|
    requires i < classes
    ensures FlatIndex(i, anchors, anchors) <= |result|
    ensures Lines(result, classes, anchors, fmt)[3 * i] == "Class " + Decimal(i) + ":"
    ensures Lines(result, classes, anchors, fmt)[3 * i + 1] == Entries(result, i, anchors, anchors, fmt)
    ensures Lines(result, classes, anchors, fmt)[3 * i + 2] == ""
  {
    FlatIndexNextRow(classes - 1, anchors);
    if i < classes - 1 {
      LinesAt(result, classes - 1, anchors, fmt, i);
    }
  }

  /** How the dump reads: split at newlines it has 3 lines per class and a
      final empty one; for class i (in ascending order) line 3i is
      `Class i:`, line 3i+2 is empty, and line 3i+1 split at spaces gives
      exactly the `anchors` formatted scores `fmt(result[i * anchors + j])`
      for j = 0, 1, ..., each followed by one space. */
  lemma DumpLayout(result: seq<real>, classes: nat, anchors: nat, fmt: real -> string)
    requires FlatIndex(classes, 0, anchors) <= |result|
    requires forall v :: ' ' !in fmt(v) && '\n' !in fmt(v)
    ensures var lines := Split(Dump(result, classes, anchors, fmt), '\n');
      |lines| == 3 * classes + 1 && lines[3 * classes] == "" &&
      forall i :: 0 <= i < classes ==>
        lines[3 * i] == "Class " + Decimal(i) + ":" &&
        lines[3 * i + 2] == "" &&
        FlatIndex(i, anchors, anchors) <= |result| &&
        Split(lines[3 * i + 1], ' ') == Formatted(result, i, anchors, fmt) + [""]
  {
    var dump := Dump(result, classes, anchors, fmt);
    DumpSplitsIntoLines(result, classes, anchors, fmt, "");
    assert dump + "" == dump;
    var lines := Split(dump, '\n');
    forall i | 0 <= i < classes
      ensures lines[3 * i] == "Class " + Decimal(i) + ":"
      ensures lines[3 * i + 2] == ""
      ensures FlatIndex(i, anchors, anchors) <= |result|
      ensures Split(lines[3 * i + 1], ' ') == Formatted(result, i, anchors, fmt) + [""]
    {
      LinesAt(result, classes, anchors, fmt, i);
      EntriesWords(result, i, anchors, anchors, fmt, "");
      assert Entries(result, i, anchors, anchors, fmt) + "" == Entries(result, i, anchors, anchors, fmt);
      assert Formatted(result, i, anchors, fmt)[..anchors] == Formatted(result, i, anchors, fmt);
    }
  }
}
