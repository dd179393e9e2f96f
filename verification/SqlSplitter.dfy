/**
 Splitting an exported SQL file into statements, line by line: between statements, lines that hold
 two dashes are skipped, and a statement that carries a code block is not closed inside the block.
 */
module SqlSplitter {
  import opened Sequences

  // ---------- strings ----------

  function TrimRight(s: string, c: char): (r: string)
    ensures |r| <= |s| && r == s[..|r|]
    ensures r != "" ==> r[|r| - 1] != c
  {
    if s != "" && s[|s| - 1] == c then TrimRight(s[..|s| - 1], c) else s
  }

  function TrimLeft(s: string, c: char): string {
    if s != "" && s[0] == c then TrimLeft(s[1..], c) else s
  }

  predicate OccursAt(s: string, sub: string, i: int) {
    0 <= i <= |s| - |sub| && s[i..i + |sub|] == sub
  }

  predicate Contains(s: string, sub: string) {
    exists i | 0 <= i <= |s| - |sub| :: OccursAt(s, sub, i)
  }

  /** Where sub occurs last, or -1. */
  function LastIndex(s: string, sub: string): (r: int)
    ensures r == -1 <==> !Contains(s, sub)
    ensures r != -1 ==> OccursAt(s, sub, r) && forall j :: r < j ==> !OccursAt(s, sub, j)
  {
    LastIndexFrom(s, sub, |s| - |sub|)
  }

  function LastIndexFrom(s: string, sub: string, i: int): (r: int)
    requires i <= |s| - |sub|
    ensures -1 <= r && (r == -1 ==> forall j :: 0 <= j <= i ==> !OccursAt(s, sub, j))
    ensures r != -1 ==> OccursAt(s, sub, r) && forall j :: r < j <= i ==> !OccursAt(s, sub, j)
  {
    if i < 0 then -1 else if OccursAt(s, sub, i) then i else LastIndexFrom(s, sub, i - 1)
  }

  // ---------- lines ----------

  /** The longer regular expressions of the source, as the functions they are of a line. */
  datatype Regexes = Regexes(startsCodeBlock: string -> bool, bodyBegins: string -> bool, commentCode: string -> nat)

  /** The questions the splitter asks about a trimmed, non-blank line. */
  datatype Tests = Tests(rx: Regexes, isEnd: string -> bool, hasDashes: string -> bool,
                         dollarQuote: string -> Delimiter, carries: (string, string) -> bool)

  function TestsOf(rx: Regexes): Tests {
    Tests(rx, t => Trimmed(t) != "" && IsEndOfSqlStmt(t), t => Contains(TrimLeft(t, ' '), "--"),
          DollarQuote, CarriesDelimiter)
  }

  datatype Delimiter = NoDelimiter | Delimiter(text: string)

  function FromDollar(s: string): string {
    if s != "" && s[0] != '$' then FromDollar(s[1..]) else s
  }

  function UpToDollar(s: string): string {
    if s != "" && s[|s| - 1] != '$' then UpToDollar(s[..|s| - 1]) else s
  }

  /** The longest text of the line that begins and ends with a dollar sign, two of them at least. */
  function DollarQuote(line: string): Delimiter {
    var text := UpToDollar(FromDollar(line));
    if |text| >= 2 then Delimiter(text) else NoDelimiter
  }

  function Trimmed(line: string): string { TrimRight(line, ' ') }

  predicate IsEndOfSqlStmt(line: string)
    requires Trimmed(line) != ""
  {
    var t := Trimmed(line);
    t[|t| - 1] == ';' ||
    var comment := LastIndex(t, "--");
    var code := if comment != -1 then Trimmed(t[..comment]) else t;
    code != "" && code[|code| - 1] == ';'
  }

  predicate EndsWithSemicolon(s: string) { s != "" && s[|s| - 1] == ';' }

  /** A semicolon with no comment after it ends the statement if and only if only spaces follow it. */
  lemma UncommentedEndIsSeenIff(code: string, gap: string, line: string)
    requires line == code + ";" + gap && ';' !in gap && !Contains(line, "--")
    ensures Trimmed(line) != "" && (IsEndOfSqlStmt(line) <==> Trimmed(gap) == "")
  {
    TrimKeepsFront(code + ";", gap);
    SemicolonThenGap(code, gap);
    var t := Trimmed(line);
    if i :| 0 <= i <= |t| - 2 && OccursAt(t, "--", i) {
      assert line[i..i + 2] == t[i..i + 2];
      assert OccursAt(line, "--", i);
    }
  }

  lemma SemicolonThenGap(code: string, gap: string)
    requires ';' !in gap
    ensures EndsWithSemicolon(Trimmed((code + ";") + gap)) <==> Trimmed(gap) == ""
  {
    TrimKeepsFront(code + ";", gap);
    assert Trimmed(gap) != "" ==> Trimmed(gap)[|Trimmed(gap)| - 1] in gap;
  }

  /**
   A semicolon followed by a comment ends the statement if and only if only spaces stand between them
   and the comment has no second "--", or the comment, or what it has before its last "--", happens to
   end with a semicolon itself.
   */
  lemma CommentedEndIsSeenIff(code: string, gap: string, comment: string, line: string)
    requires comment == Trimmed(comment) && ';' !in gap && line == code + ";" + gap + "-" + ("-" + comment)
    ensures Trimmed(line) == line
    ensures IsEndOfSqlStmt(line) <==>
              || (Trimmed(gap) == "" && !Contains("-" + comment, "--"))
              || EndsWithSemicolon(comment)
              || EndsWithSemicolon(BeforeLastMarker("-" + comment))
  {
    var rest, head := "-" + comment, code + ";" + gap;
    LastMarker(head, rest, line);
    TextBeforeMarker(code, gap, rest, line);
    var seen := (Trimmed(gap) == "" && !Contains(rest, "--")) || EndsWithSemicolon(BeforeLastMarker(rest));
    CommentedEnd(seen, rest, comment, line);
  }

  function BeforeLastMarker(s: string): string {
    if LastIndex(s, "--") == -1 then "" else Trimmed(s[..LastIndex(s, "--")])
  }

  lemma CommentedEnd(seen: bool, rest: string, comment: string, line: string)
    requires comment == Trimmed(comment) && rest == "-" + comment && |rest| < |line| && line[|line| - |rest|..] == rest
    requires LastIndex(line, "--") >= 0 && (EndsWithSemicolon(BeforeLastMarker(line)) <==> seen)
    ensures Trimmed(line) == line
    ensures IsEndOfSqlStmt(line) <==> seen || EndsWithSemicolon(comment)
  {
    assert line[|line| - 1] == rest[|rest| - 1];
  }

  lemma TextBeforeMarker(code: string, gap: string, rest: string, line: string)
    requires ';' !in gap && rest != "" && rest[0] == '-' && line == code + ";" + gap + "-" + rest
    requires var last, p := LastIndex(rest, "--"), |code + ";" + gap|;
             LastIndex(line, "--") == if last == -1 then p else p + 1 + last
    ensures EndsWithSemicolon(BeforeLastMarker(line)) <==>
              (Trimmed(gap) == "" && !Contains(rest, "--")) || EndsWithSemicolon(BeforeLastMarker(rest))
  {
    var head, last := code + ";" + gap, LastIndex(rest, "--");
    if last == -1 {
      Front(head, "-" + rest);
      assert line == head + ("-" + rest) && head == (code + ";") + gap;
      SemicolonThenGap(code, gap);
    } else {
      Front((head + "-") + rest[..last], rest[last..]);
      assert line == ((head + "-") + rest[..last]) + rest[last..];
      TrimKeepsFront(head + "-", rest[..last]);
    }
  }

  lemma LastMarker(head: string, rest: string, line: string)
    requires rest != "" && rest[0] == '-' && line == head + "-" + rest
    ensures var last := LastIndex(rest, "--");
            LastIndex(line, "--") == if last == -1 then |head| else |head| + 1 + last
  {
    var p := |head|;
    forall j | p < j
      ensures OccursAt(line, "--", j) <==> OccursAt(rest, "--", j - p - 1)
    {
      if j + 2 <= |line| {
        assert line[j..j + 2] == rest[j - p - 1..j - p + 1];
      }
    }
    assert line[p..p + 2] == "--" && OccursAt(line, "--", p);
    var last := LastIndex(rest, "--");
    if last != -1 {
      assert OccursAt(line, "--", p + 1 + last);
    }
  }

  /** Trailing blanks of a string that has a non-blank in front are those of its tail. */
  lemma {:induction false} TrimKeepsFront(front: string, tail: string)
    requires front != "" && front[|front| - 1] != ' '
    ensures Trimmed(front + tail) == front + Trimmed(tail)
    decreases |tail|
  {
    if tail == "" {
      assert front + tail == front;
    } else if tail[|tail| - 1] == ' ' {
      assert (front + tail)[..|front + tail| - 1] == front + tail[..|tail| - 1];
      TrimKeepsFront(front, tail[..|tail| - 1]);
    }
  }

  /** So a comment that opens with three dashes hides the end of the statement before it. */
  lemma DashedCommentHidesEnd()
    ensures Trimmed("x; --- y") == "x; --- y" && !IsEndOfSqlStmt("x; --- y")
  {
    var t := "x; --- y";
    assert t[3..5] == "--" && t[4..6] == "--";
    assert OccursAt(t, "--", 4);
    assert t[5..7] == "- " && t[6..8] == " y";
    assert LastIndex(t, "--") == 4;
    assert t[..4] == "x; -";
    assert Trimmed("x; -") == "x; -";
  }

  /** And a tab between the semicolon and the comment hides it as well. */
  lemma TabHidesEnd()
    ensures Trimmed("x;\t-- y") == "x;\t-- y" && !IsEndOfSqlStmt("x;\t-- y")
  {
    var code, gap, comment, line := "x", "\t", " y", "x;\t-- y";
    assert line == code + ";" + gap + "-" + ("-" + comment);
    CommentedEndIsSeenIff(code, gap, comment, line);
    var rest := "-" + comment;
    assert rest[0..2] == "- " && rest[1..3] == " y";
    assert !Contains(rest, "--");
  }

  const END := "END"
  const END_LOWER := "end"

  predicate CarriesDelimiter(line: string, delimiter: string) {
    Contains(line, delimiter) || (delimiter == END && Contains(line, END_LOWER))
  }

  /** What a line can do to the statement it is in. */
  datatype Kind = Ending | Opening | Carrying(delimiter: string)

  function DelimiterOf(tests: Tests, line: string): string {
    match tests.dollarQuote(line)
    case Delimiter(text) => text
    case NoDelimiter => END
  }

  predicate Is(tests: Tests, kind: Kind, line: string) {
    var t := Trimmed(line);
    t != "" &&
    match kind
    case Ending => tests.isEnd(t)
    case Opening => !tests.isEnd(t) && (tests.dollarQuote(t).Delimiter? || tests.rx.bodyBegins(t))
    case Carrying(delimiter) => tests.carries(t, delimiter)
  }

  /** The first line from `from` on of the given kind, or the number of lines. */
  function First(tests: Tests, kind: Kind, lines: seq<string>, from: nat): (r: nat)
    requires from <= |lines|
    ensures from <= r <= |lines|
    decreases |lines| - from
  {
    if from == |lines| || Is(tests, kind, lines[from]) then from else First(tests, kind, lines, from + 1)
  }

  lemma {:induction false} FirstIs(tests: Tests, kind: Kind, lines: seq<string>, from: nat)
    requires from <= |lines|
    ensures First(tests, kind, lines, from) < |lines| ==> Is(tests, kind, lines[First(tests, kind, lines, from)])
    ensures forall j :: from <= j < First(tests, kind, lines, from) ==> !Is(tests, kind, lines[j])
    decreases |lines| - from
  {
    if from < |lines| && !Is(tests, kind, lines[from]) {
      FirstIs(tests, kind, lines, from + 1);
    }
  }

  /**
   The line that closes the statement starting at `first`, or the number of lines. A statement that
   may hold a code block and opens one before any line ends it, closes at the first ending line at
   or after the next line with the delimiter that opened the block.
   */
  function CloseOf(tests: Tests, lines: seq<string>, first: nat): (r: nat)
    requires first < |lines|
    ensures first <= r <= |lines|
  {
    var end := First(tests, Ending, lines, first);
    if !tests.rx.startsCodeBlock(Trimmed(lines[first])) then end
    else
      var open := First(tests, Opening, lines, first);
      if end <= open then end
      else
        First(tests, Ending, lines, First(tests, Carrying(DelimiterOf(tests, Trimmed(lines[open]))), lines, open + 1))
  }

  /** The non-blank lines, trimmed, each followed by a separator. */
  function Text(lines: seq<string>, separator: string): string {
    if lines == [] then ""
    else
      var t := Trimmed(lines[|lines| - 1]);
      Text(lines[..|lines| - 1], separator) + if t == "" then "" else t + separator
  }

  // ---------- collecting one statement ----------

  datatype BlockState = NotStarted | Started(delimiter: string) | Completed

  /** The end of a statement, once its closing line is known. */
  function Past(lines: seq<string>, close: nat): nat {
    if close < |lines| then close + 1 else |lines|
  }

  /** What has been collected after the lines first..past. */
  predicate Collected(lines: seq<string>, first: nat, past: nat, stmt: string, formatted: string)
    requires first <= past <= |lines|
  {
    stmt == Text(lines[first..past], " ") && formatted == Text(lines[first..past], "\n")
  }

  lemma CollectOne(lines: seq<string>, first: nat, i: nat, stmt: string, formatted: string)
    requires first <= i < |lines| && Collected(lines, first, i, stmt, formatted)
    ensures var t := Trimmed(lines[i]);
            if t == "" then Collected(lines, first, i + 1, stmt, formatted)
            else Collected(lines, first, i + 1, stmt + (t + " "), formatted + (t + "\n"))
  {
    assert lines[first..i + 1] == lines[first..i] + [lines[i]];
  }

  method CollectSqlStmt(tests: Tests, lines: seq<string>, first: nat) returns (stmt: string, formatted: string, i: nat)
    requires first < |lines|
    ensures i == First(tests, Ending, lines, first)
    ensures Collected(lines, first, Past(lines, i), stmt, formatted)
  {
    stmt, formatted, i := "", "", first;
    while i < |lines|
      invariant first <= i <= |lines|
      invariant First(tests, Ending, lines, first) == First(tests, Ending, lines, i)
      invariant Collected(lines, first, i, stmt, formatted)
    {
      var currLine := Trimmed(lines[i]);
      CollectOne(lines, first, i, stmt, formatted);
      StepMovesOn(tests, lines, Completed, i);
      if currLine != "" {
        stmt := stmt + (currLine + " ");
        formatted := formatted + (currLine + "\n");
        if tests.isEnd(currLine) {
          return;
        }
      }
      i := i + 1;
    }
  }

  /** Where the rest of the statement closes, from each state of the scan. */
  function CloseFrom(tests: Tests, lines: seq<string>, state: BlockState, i: nat): nat
    requires i <= |lines|
  {
    match state
    case NotStarted =>
      var end, open := First(tests, Ending, lines, i), First(tests, Opening, lines, i);
      if end <= open then end
      else First(tests, Ending, lines,
            First(tests, Carrying(DelimiterOf(tests, Trimmed(lines[open]))), lines, open + 1))
    case Started(delimiter) => First(tests, Ending, lines, First(tests, Carrying(delimiter), lines, i))
    case Completed => First(tests, Ending, lines, i)
  }

  /** One non-blank line: whether it closes the statement, and the state after it. */
  function Step(tests: Tests, state: BlockState, t: string): (bool, BlockState)
    requires t != "" && t == Trimmed(t)
  {
    match state
    case NotStarted =>
      if tests.isEnd(t) then (true, NotStarted)
      else if tests.dollarQuote(t).Delimiter? then (false, Started(tests.dollarQuote(t).text))
      else if tests.rx.bodyBegins(t) then (false, Started(END))
      else (false, NotStarted)
    case Started(delimiter) =>
      if tests.carries(t, delimiter) then (tests.isEnd(t), Completed) else (false, Started(delimiter))
    case Completed => (tests.isEnd(t), Completed)
  }

  lemma StepMovesOn(tests: Tests, lines: seq<string>, state: BlockState, i: nat)
    requires i < |lines|
    ensures var t := Trimmed(lines[i]);
            if t == "" then CloseFrom(tests, lines, state, i) == CloseFrom(tests, lines, state, i + 1)
            else if Step(tests, state, t).0 then CloseFrom(tests, lines, state, i) == i
            else CloseFrom(tests, lines, state, i) == CloseFrom(tests, lines, Step(tests, state, t).1, i + 1)
  {
  }

  method CollectSqlStmtContainingCode(tests: Tests, lines: seq<string>, first: nat)
    returns (stmt: string, formatted: string, i: nat)
    requires first < |lines| && tests.rx.startsCodeBlock(Trimmed(lines[first]))
    ensures i == CloseOf(tests, lines, first)
    ensures Collected(lines, first, Past(lines, i), stmt, formatted)
  {
    stmt, formatted, i := "", "", first;
    var state := NotStarted;
    while i < |lines|
      invariant first <= i <= |lines|
      invariant CloseOf(tests, lines, first) == CloseFrom(tests, lines, state, i)
      invariant Collected(lines, first, i, stmt, formatted)
    {
      var currLine := Trimmed(lines[i]);
      CollectOne(lines, first, i, stmt, formatted);
      StepMovesOn(tests, lines, state, i);
      if currLine != "" {
        stmt := stmt + (currLine + " ");
        formatted := formatted + (currLine + "\n");
        match state
        case NotStarted =>
          if tests.isEnd(currLine) {
            return;
          } else if tests.dollarQuote(currLine).Delimiter? {
            state := Started(tests.dollarQuote(currLine).text);
          } else if tests.rx.bodyBegins(currLine) {
            state := Started(END);
          }
        case Started(delimiter) =>
          if tests.carries(currLine, delimiter) {
            state := Completed;
            if tests.isEnd(currLine) {
              return;
            }
          }
        case Completed =>
          if tests.isEnd(currLine) {
            return;
          }
      }
      i := i + 1;
    }
  }

  // ---------- the whole file ----------

  /** A statement, and the code of the skipped line reported against it (0 for none). */
  datatype SqlInfo = SqlInfo(stmt: string, formattedStmt: string, reported: nat)

  /** The lines first..past of a file. */
  datatype Span = Span(first: nat, past: nat)

  predicate IsBlank(line: string) { Trimmed(line) == "" }

  predicate IsSkipped(tests: Tests, line: string) { !IsBlank(line) && tests.hasDashes(Trimmed(line)) }

  predicate StartsStatement(tests: Tests, line: string) { !IsBlank(line) && !IsSkipped(tests, line) }

  predicate Covers(span: Span, j: nat) { span.first <= j < span.past }

  predicate Covered(spans: seq<Span>, j: nat) {
    exists k | 0 <= k < |spans| :: Covers(spans[k], j)
  }

  /** A span is one whole statement. */
  predicate IsStatement(tests: Tests, lines: seq<string>, span: Span) {
    && span.first < |lines| && StartsStatement(tests, lines[span.first])
    && span.past == Past(lines, CloseOf(tests, lines, span.first))
  }

  function PastOf(spans: seq<Span>): nat {
    if spans == [] then 0 else spans[|spans| - 1].past
  }

  /** The code of the last skipped line among lines[from..to]. */
  function LastSkipped(tests: Tests, lines: seq<string>, from: nat, to: nat): nat
    requires from <= to <= |lines|
  {
    if from == to then 0
    else if IsSkipped(tests, lines[to - 1]) then tests.rx.commentCode(Trimmed(lines[to - 1]))
    else LastSkipped(tests, lines, from, to - 1)
  }

  /** The first `seen` lines, cut into statements, in file order, with nothing but blank and skipped lines between
      them. */
  ghost predicate Cut(tests: Tests, lines: seq<string>, seen: nat, spans: seq<Span>) {
    && (forall k :: 0 <= k < |spans| ==> IsStatement(tests, lines, spans[k]) && spans[k].past <= seen)
    && (forall k, l :: 0 <= k < l < |spans| ==> spans[k].past <= spans[l].first)
    && (forall j: nat {:trigger Covered(spans, j)} :: j < seen && j < |lines| && !Covered(spans, j) ==>
          !StartsStatement(tests, lines[j]))
  }

  predicate IsTextOf(lines: seq<string>, span: Span, info: SqlInfo)
    requires span.first <= span.past <= |lines|
  {
    && info.stmt == Text(lines[span.first..span.past], " ")
    && info.formattedStmt == TrimRight(Text(lines[span.first..span.past], "\n"), '\n')
  }

  ghost predicate DescribedAt(tests: Tests, lines: seq<string>, reporting: bool, spans: seq<Span>,
                              infos: seq<SqlInfo>, k: nat) {
    && k < |spans| && k < |infos|
    && spans[k].first <= spans[k].past <= |lines| && PastOf(spans[..k]) <= spans[k].first
    && IsTextOf(lines, spans[k], infos[k])
    && infos[k].reported == if reporting then LastSkipped(tests, lines, PastOf(spans[..k]), spans[k].first) else 0
  }

  ghost predicate Describes(tests: Tests, lines: seq<string>, reporting: bool, spans: seq<Span>, infos: seq<SqlInfo>) {
    |infos| == |spans| && forall k: nat :: k < |spans| ==> DescribedAt(tests, lines, reporting, spans, infos, k)
  }

  method ProcessCollectedSql(stmt: string, formatted: string, reporting: bool, reportNextSql: nat)
    returns (info: SqlInfo, report: nat)
    ensures info == SqlInfo(stmt, TrimRight(formatted, '\n'), if reporting then reportNextSql else 0)
    ensures report == if reporting then 0 else reportNextSql
  {
    report := reportNextSql;
    var reported := 0;
    if reportNextSql > 0 && reporting {
      reported := reportNextSql;
      report := 0;
    }
    return SqlInfo(stmt, TrimRight(formatted, '\n'), reported), report;
  }

  /** The state of the loop after `seen` lines. */
  ghost predicate Progress(tests: Tests, lines: seq<string>, reporting: bool, seen: nat,
                           spans: seq<Span>, infos: seq<SqlInfo>, reportNextSql: nat) {
    && seen <= |lines|
    && Cut(tests, lines, seen, spans) && Describes(tests, lines, reporting, spans, infos)
    && PastOf(spans) <= seen
    && (reporting ==> reportNextSql == LastSkipped(tests, lines, PastOf(spans), seen))
  }

  method CollectStatement(tests: Tests, lines: seq<string>, first: nat) returns (stmt: string, formatted: string,
                          past: nat)
    requires first < |lines| && StartsStatement(tests, lines[first])
    ensures first < past <= |lines| && IsStatement(tests, lines, Span(first, past))
    ensures Collected(lines, first, past, stmt, formatted)
  {
    var i;
    if tests.rx.startsCodeBlock(Trimmed(lines[first])) {
      stmt, formatted, i := CollectSqlStmtContainingCode(tests, lines, first);
    } else {
      stmt, formatted, i := CollectSqlStmt(tests, lines, first);
    }
    past := Past(lines, i);
  }

  method ParseSqlFile(tests: Tests, lines: seq<string>, reporting: bool) returns (infos: seq<SqlInfo>)
    ensures exists spans :: Splits(tests, lines, reporting, spans, infos)
  {
    infos := [];
    var reportNextSql := 0;
    var i := 0;
    ghost var spans: seq<Span> := [];
    while i < |lines|
      invariant Progress(tests, lines, reporting, i, spans, infos, reportNextSql)
    {
      var currLine := Trimmed(lines[i]);
      if |currLine| == 0 {
        LooseLine(tests, lines, reporting, i, spans, infos, reportNextSql);
        i := i + 1;
      } else if tests.hasDashes(currLine) {
        LooseLine(tests, lines, reporting, i, spans, infos, reportNextSql);
        reportNextSql := tests.rx.commentCode(currLine);
        i := i + 1;
      } else {
        var stmt, formatted, past := CollectStatement(tests, lines, i);
        var info, report := ProcessCollectedSql(stmt, formatted, reporting, reportNextSql);
        OneStatement(tests, lines, reporting, spans, infos, reportNextSql, Span(i, past), info, report);
        spans, infos, reportNextSql, i := spans + [Span(i, past)], infos + [info], report, past;
      }
    }
    LinesAreConserved(tests, lines, reporting, spans, infos);
  }

  /** The statements of a file, with the line tests the program uses. */
  method ParseSqlFileForObjectType(rx: Regexes, lines: seq<string>, reporting: bool) returns (infos: seq<SqlInfo>)
    ensures exists spans :: Splits(TestsOf(rx), lines, reporting, spans, infos)
  {
    infos := ParseSqlFile(TestsOf(rx), lines, reporting);
  }

  lemma LooseLine(tests: Tests, lines: seq<string>, reporting: bool, i: nat, spans: seq<Span>, infos: seq<SqlInfo>,
                  reportNextSql: nat)
    requires i < |lines| && Progress(tests, lines, reporting, i, spans, infos, reportNextSql) &&
          !StartsStatement(tests, lines[i])
    ensures Progress(tests, lines, reporting, i + 1, spans, infos,
                     if IsSkipped(tests, lines[i]) then tests.rx.commentCode(Trimmed(lines[i])) else reportNextSql)
  {
  }

  lemma OneStatement(tests: Tests, lines: seq<string>, reporting: bool, spans: seq<Span>, infos: seq<SqlInfo>,
                     reportNextSql: nat, span: Span, info: SqlInfo, report: nat)
    requires span.first < span.past <= |lines| && IsStatement(tests, lines, span)
    requires Progress(tests, lines, reporting, span.first, spans, infos, reportNextSql)
    requires IsTextOf(lines, span, info) && info.reported == if reporting then reportNextSql else 0
    requires reporting ==> report == 0
    ensures Progress(tests, lines, reporting, span.past, spans + [span], infos + [info], report)
  {
    NextStatement(tests, lines, span.first, spans, span);
    MoreDescribed(tests, lines, reporting, spans, infos, span, info);
  }

  lemma NextStatement(tests: Tests, lines: seq<string>, i: nat, spans: seq<Span>, span: Span)
    requires Cut(tests, lines, i, spans) && IsStatement(tests, lines, span) && span.first == i
    ensures Cut(tests, lines, span.past, spans + [span])
  {
    forall j: nat | j < |lines|
      ensures Covered(spans + [span], j) <==> Covered(spans, j) || Covers(span, j)
    {
      if k :| 0 <= k < |spans| && Covers(spans[k], j) {
        assert Covers((spans + [span])[k], j);
      }
      if Covers(span, j) {
        assert Covers((spans + [span])[|spans|], j);
      }
    }
  }

  lemma MoreDescribed(tests: Tests, lines: seq<string>, reporting: bool, spans: seq<Span>, infos: seq<SqlInfo>,
                      span: Span, info: SqlInfo)
    requires PastOf(spans) <= span.first <= span.past <= |lines|
    requires Describes(tests, lines, reporting, spans, infos) && IsTextOf(lines, span, info)
    requires info.reported == if reporting then LastSkipped(tests, lines, PastOf(spans), span.first) else 0
    ensures Describes(tests, lines, reporting, spans + [span], infos + [info])
  {
    forall k: nat | k < |spans + [span]|
      ensures DescribedAt(tests, lines, reporting, spans + [span], infos + [info], k)
    {
      if k < |spans| {
        StillDescribed(tests, lines, reporting, spans, infos, span, info, k);
      } else {
        assert (spans + [span])[..k] == spans;
      }
    }
  }

  lemma StillDescribed(tests: Tests, lines: seq<string>, reporting: bool, spans: seq<Span>, infos: seq<SqlInfo>,
                       span: Span, info: SqlInfo, k: nat)
    requires DescribedAt(tests, lines, reporting, spans, infos, k)
    ensures DescribedAt(tests, lines, reporting, spans + [span], infos + [info], k)
  {
    assert (spans + [span])[..k] == spans[..k];
  }

  // ---------- what a cut is ----------

  /** The statements of a file, one after the other. */
  function Statements(infos: seq<SqlInfo>): string {
    if infos == [] then "" else Statements(infos[..|infos| - 1]) + infos[|infos| - 1].stmt
  }

  /** The lines of the first n that are in a statement. */
  function Kept(lines: seq<string>, spans: seq<Span>, n: nat): seq<string>
    requires n <= |lines|
  {
    if n == 0 then [] else Kept(lines, spans, n - 1) + if Covered(spans, n - 1) then [lines[n - 1]] else []
  }

  /** Each non-blank line is in exactly one statement or is skipped, and the statements together are
      the text of the lines kept, in file order. */
  ghost predicate Conserves(tests: Tests, lines: seq<string>, spans: seq<Span>, infos: seq<SqlInfo>) {
    && (forall j: nat {:trigger Covered(spans, j)} :: j < |lines| && !IsBlank(lines[j]) ==>
          Covered(spans, j) || IsSkipped(tests, lines[j]))
    && (forall j, k, l {:trigger Covers(spans[k], j), Covers(spans[l], j)} ::
          0 <= k < |spans| && 0 <= l < |spans| && Covers(spans[k], j) && Covers(spans[l], j) ==> k == l)
    && Statements(infos) == Text(Kept(lines, spans, |lines|), " ")
  }

  /** The file is cut into statements, which are described, and nothing but skipped lines is lost. */
  ghost predicate Splits(tests: Tests, lines: seq<string>, reporting: bool, spans: seq<Span>, infos: seq<SqlInfo>) {
    && Cut(tests, lines, |lines|, spans) && Describes(tests, lines, reporting, spans, infos)
    && Conserves(tests, lines, spans, infos)
  }

  lemma LinesAreConserved(tests: Tests, lines: seq<string>, reporting: bool, spans: seq<Span>, infos: seq<SqlInfo>)
    requires Cut(tests, lines, |lines|, spans) && Describes(tests, lines, reporting, spans, infos)
    ensures Splits(tests, lines, reporting, spans, infos)
  {
    TextIsKept(tests, lines, reporting, spans, infos, |spans|);
    assert spans[..|spans|] == spans && infos[..|infos|] == infos;
    BetweenSpans(tests, lines, spans, |spans|);
    KeptGap(lines, spans, PastOf(spans), |lines|);
  }

  lemma {:induction false} OneMoreText(tests: Tests, lines: seq<string>, reporting: bool, spans: seq<Span>,
                                       infos: seq<SqlInfo>, m: nat)
    requires Cut(tests, lines, |lines|, spans) && Describes(tests, lines, reporting, spans, infos) && m < |spans|
    requires PastOf(spans[..m]) <= |lines|
    requires Statements(infos[..m]) == Text(Kept(lines, spans, PastOf(spans[..m])), " ")
    ensures PastOf(spans[..m + 1]) <= |lines|
    ensures Statements(infos[..m + 1]) == Text(Kept(lines, spans, PastOf(spans[..m + 1])), " ")
  {
    SpanFacts(tests, lines, reporting, spans, infos, m);
    BetweenSpans(tests, lines, spans, m);
    OneMoreKept(lines, spans, infos, m);
  }

  lemma {:induction false} TextIsKept(tests: Tests, lines: seq<string>, reporting: bool, spans: seq<Span>,
                                      infos: seq<SqlInfo>, m: nat)
    requires Cut(tests, lines, |lines|, spans) && Describes(tests, lines, reporting, spans, infos) && m <= |spans|
    ensures PastOf(spans[..m]) <= |lines|
    ensures Statements(infos[..m]) == Text(Kept(lines, spans, PastOf(spans[..m])), " ")
  {
    if m > 0 {
      TextIsKept(tests, lines, reporting, spans, infos, m - 1);
      OneMoreText(tests, lines, reporting, spans, infos, m - 1);
    }
  }

  lemma {:induction false} SpanFacts(tests: Tests, lines: seq<string>, reporting: bool, spans: seq<Span>,
                                     infos: seq<SqlInfo>, m: nat)
    requires Describes(tests, lines, reporting, spans, infos) && m < |spans|
    ensures m < |infos| && PastOf(spans[..m]) <= spans[m].first <= spans[m].past <= |lines|
    ensures infos[m].stmt == Text(lines[spans[m].first..spans[m].past], " ")
    ensures PastOf(spans[..m + 1]) == spans[m].past
  {
    assert DescribedAt(tests, lines, reporting, spans, infos, m);
    assert spans[..m + 1][m] == spans[m];
  }

  lemma {:induction false} OneMoreKept(lines: seq<string>, spans: seq<Span>, infos: seq<SqlInfo>, m: nat)
    requires m < |spans| && m < |infos| && PastOf(spans[..m]) <= spans[m].first <= spans[m].past <= |lines|
    requires forall j :: PastOf(spans[..m]) <= j < spans[m].first ==> !Covered(spans, j)
    requires infos[m].stmt == Text(lines[spans[m].first..spans[m].past], " ")
    requires Statements(infos[..m]) == Text(Kept(lines, spans, PastOf(spans[..m])), " ")
    ensures Statements(infos[..m + 1]) == Text(Kept(lines, spans, spans[m].past), " ")
  {
    assert infos[..m + 1][..m] == infos[..m];
    KeptGap(lines, spans, PastOf(spans[..m]), spans[m].first);
    KeptSpan(lines, spans, m, spans[m].past);
    TextAppend(Kept(lines, spans, spans[m].first), lines[spans[m].first..spans[m].past], " ");
  }

  /** No line between the end of one statement and the start of the next is in any. */
  lemma BetweenSpans(tests: Tests, lines: seq<string>, spans: seq<Span>, m: nat)
    requires Cut(tests, lines, |lines|, spans) && m <= |spans|
    ensures PastOf(spans[..m]) <= |lines|
    ensures forall j :: PastOf(spans[..m]) <= j < (if m < |spans| then spans[m].first else |lines|) ==>
          !Covered(spans, j)
  {
    forall j, k | PastOf(spans[..m]) <= j < (if m < |spans| then spans[m].first else |lines|) && 0 <= k < |spans|
      ensures !Covers(spans[k], j)
    {
      if k < m - 1 {
        assert spans[k].past <= spans[m - 1].first;
      }
    }
  }

  lemma {:induction false} KeptGap(lines: seq<string>, spans: seq<Span>, from: nat, end: nat)
    requires from <= end <= |lines| && forall j :: from <= j < end ==> !Covered(spans, j)
    ensures Kept(lines, spans, end) == Kept(lines, spans, from)
    decreases end
  {
    if from < end {
      KeptGap(lines, spans, from, end - 1);
    }
  }

  lemma {:induction false} KeptSpan(lines: seq<string>, spans: seq<Span>, m: nat, end: nat)
    requires m < |spans| && spans[m].first <= end <= spans[m].past && end <= |lines|
    ensures Kept(lines, spans, end) == Kept(lines, spans, spans[m].first) + lines[spans[m].first..end]
    decreases end
  {
    if spans[m].first < end {
      KeptSpan(lines, spans, m, end - 1);
      assert Covers(spans[m], end - 1) && Covered(spans, end - 1);
      assert lines[spans[m].first..end] == lines[spans[m].first..end - 1] + [lines[end - 1]];
    }
  }

  lemma {:induction false} TextAppend(a: seq<string>, b: seq<string>, separator: string)
    ensures Text(a + b, separator) == Text(a, separator) + Text(b, separator)
  {
    if b == [] {
      assert a + b == a;
    } else {
      var most, t := b[..|b| - 1], Trimmed(b[|b| - 1]);
      assert (a + b)[..|a + b| - 1] == a + most;
      TextAppend(a, most, separator);
      Associates(Text(a, separator), Text(most, separator), if t == "" then "" else t + separator);
    }
  }

  /** A file can be cut in one way only, so what is returned is determined by the lines. */
  lemma {:induction false} CutIsUnique(tests: Tests, lines: seq<string>, a: seq<Span>, b: seq<Span>, n: nat)
    requires Cut(tests, lines, |lines|, a) && Cut(tests, lines, |lines|, b) && n <= |a|
    ensures n <= |b| && a[..n] == b[..n]
  {
    if n > 0 {
      CutIsUnique(tests, lines, a, b, n - 1);
      NextIsSame(tests, lines, a, b, n - 1);
    }
  }

  lemma NextIsSame(tests: Tests, lines: seq<string>, a: seq<Span>, b: seq<Span>, m: nat)
    requires Cut(tests, lines, |lines|, a) && Cut(tests, lines, |lines|, b)
    requires m < |a| && m <= |b| && a[..m] == b[..m]
    ensures m < |b| && a[m] == b[m]
  {
    SpansEndBefore(tests, lines, a, m);
    assert forall i :: 0 <= i < m ==> a[..m][i] == a[i] && b[..m][i] == b[i];
    NextIsCovered(tests, lines, b, m, a[m].first);
    SpansEndBefore(tests, lines, b, m);
    NextIsCovered(tests, lines, a, m, b[m].first);
  }

  lemma SpansEndBefore(tests: Tests, lines: seq<string>, spans: seq<Span>, m: nat)
    requires Cut(tests, lines, |lines|, spans) && m < |spans|
    ensures IsStatement(tests, lines, spans[m]) && forall i :: 0 <= i < m ==> spans[i].past <= spans[m].first
  {
  }

  /** The next statement of a cut starts no later than the next line that starts one. */
  lemma NextIsCovered(tests: Tests, lines: seq<string>, spans: seq<Span>, m: nat, j: nat)
    requires Cut(tests, lines, |lines|, spans) && j < |lines| && StartsStatement(tests, lines[j])
    requires m <= |spans| && forall i :: 0 <= i < m ==> spans[i].past <= j
    ensures m < |spans| && spans[m].first <= j
  {
    assert Covered(spans, j);
    var k :| 0 <= k < |spans| && Covers(spans[k], j);
    assert m <= k;
  }

  /**
   When the opening delimiter of a code block precedes every ending line, the statement closes at
   the first ending line at or after the next line with the delimiter, and at none before it.
   */
  lemma BlockClosesAfterItsDelimiter(tests: Tests, lines: seq<string>, first: nat, open: nat, close: nat)
    requires first <= open < close < |lines| && tests.rx.startsCodeBlock(Trimmed(lines[first]))
    requires Is(tests, Opening, lines[open]) && forall j :: first <= j < open ==>
          !Is(tests, Opening, lines[j]) && !Is(tests, Ending, lines[j])
    ensures CloseOf(tests, lines, first) == close <==>
              && Is(tests, Ending, lines[close])
              && exists c :: open < c <= close &&
                    Is(tests, Carrying(DelimiterOf(tests, Trimmed(lines[open]))), lines[c])
                   && (forall j :: open < j < c ==>
                         !Is(tests, Carrying(DelimiterOf(tests, Trimmed(lines[open]))), lines[j]))
                   && forall j :: c <= j < close ==> !Is(tests, Ending, lines[j])
  {
    var delimiter := Carrying(DelimiterOf(tests, Trimmed(lines[open])));
    var carrying := First(tests, delimiter, lines, open + 1);
    FirstIs(tests, Opening, lines, first);
    FirstIs(tests, Ending, lines, first);
    FirstIs(tests, delimiter, lines, open + 1);
    FirstIs(tests, Ending, lines, carrying);
    assert First(tests, Opening, lines, first) == open;
    assert First(tests, Ending, lines, first) > open;
  }

  /** For the program's tests, a statement starts on a line with something other than spaces and no two dashes. */
  lemma StatementsStart(rx: Regexes, lines: seq<string>, spans: seq<Span>, k: nat)
    requires Cut(TestsOf(rx), lines, |lines|, spans) && k < |spans|
    ensures spans[k].first < |lines| && Trimmed(lines[spans[k].first]) != ""
    ensures !Contains(Trimmed(lines[spans[k].first]), "--")
  {
    assert IsStatement(TestsOf(rx), lines, spans[k]);
    DashesAreNotTrimmed(Trimmed(lines[spans[k].first]));
  }

  // ---------- the delimiters of the program ----------

  predicate TwoDollars(t: string) {
    exists i, j :: 0 <= i < j < |t| && t[i] == '$' && t[j] == '$'
  }

  lemma {:induction false} FromDollarIs(s: string)
    ensures |FromDollar(s)| <= |s| && FromDollar(s) == s[|s| - |FromDollar(s)|..]
    ensures '$' !in s[..|s| - |FromDollar(s)|]
    ensures FromDollar(s) != "" ==> FromDollar(s)[0] == '$'
  {
    if s != "" && s[0] != '$' {
      FromDollarIs(s[1..]);
      var n := |s| - |FromDollar(s)|;
      assert s[1..][n - 1..] == s[n..] && s[..n] == [s[0]] + s[1..][..n - 1];
    }
  }

  lemma {:induction false} UpToDollarIs(s: string)
    ensures |UpToDollar(s)| <= |s| && UpToDollar(s) == s[..|UpToDollar(s)|]
    ensures '$' !in s[|UpToDollar(s)|..]
    ensures UpToDollar(s) != "" ==> UpToDollar(s)[|UpToDollar(s)| - 1] == '$'
  {
    if s != "" && s[|s| - 1] != '$' {
      var n := |UpToDollar(s)|;
      UpToDollarIs(s[..|s| - 1]);
      assert s[n..] == s[..|s| - 1][n..] + [s[|s| - 1]];
    }
  }

  /** What is found in a line with two dollar signs runs from the first of them to the last. */
  lemma DollarQuoteIs(t: string)
    ensures DollarQuote(t).Delimiter? <==> TwoDollars(t)
    ensures DollarQuote(t).Delimiter? ==>
              exists i, j :: 0 <= i < j < |t| && t[i] == '$' && t[j] == '$' && DollarQuote(t).text == t[i..j + 1]
                   && '$' !in t[..i] && '$' !in t[j + 1..]
  {
    FromDollarIs(t);
    var rest := FromDollar(t);
    UpToDollarIs(rest);
    var i, n := |t| - |rest|, |UpToDollar(rest)|;
    var j := i + n - 1;
    assert rest == t[i..] && t[i + n..] == rest[n..];
    assert forall k :: 0 <= k < i ==> t[k] == t[..i][k];
    assert forall k :: i + n <= k < |t| ==> t[k] == t[i + n..][k - i - n];
    if n >= 2 {
      assert t[i] == rest[0] && t[j] == rest[n - 1] && UpToDollar(rest) == t[i..j + 1];
    }
  }

  /** The line ends a statement. */
  predicate Ends(line: string) { Trimmed(line) != "" && IsEndOfSqlStmt(Trimmed(line)) }

  predicate HasAny(texts: seq<string>, line: string) {
    exists text <- texts :: Contains(Trimmed(line), text)
  }

  /** The first line after `open` with one of the texts. */
  ghost predicate FirstAfter(lines: seq<string>, open: nat, texts: seq<string>, c: nat) {
    open < c < |lines| && HasAny(texts, lines[c]) && forall j :: open < j < c ==> !HasAny(texts, lines[j])
  }

  /** `close` is the first ending line at or after the first line after `open` with one of the texts. */
  ghost predicate EndsFrom(lines: seq<string>, open: nat, texts: seq<string>, close: nat) {
    && close < |lines| && Ends(lines[close])
    && exists c: nat ::
         FirstAfter(lines, open, texts, c) && c <= close && forall j :: c <= j < close ==> !Ends(lines[j])
  }

  /** No line before `open` ends the statement or opens a block, in the program's tests. */
  predicate PlainUpTo(rx: Regexes, lines: seq<string>, first: nat, open: nat)
    requires open < |lines|
  {
    forall j :: first <= j < open ==>
      Trimmed(lines[j]) == ""
      || (!Ends(lines[j]) && !TwoDollars(Trimmed(lines[j])) && !rx.bodyBegins(Trimmed(lines[j])))
  }

  lemma {:induction false} PlainIs(rx: Regexes, lines: seq<string>, first: nat, open: nat)
    requires first <= open < |lines| && PlainUpTo(rx, lines, first, open)
    ensures forall j :: first <= j < open ==>
              !Is(TestsOf(rx), Opening, lines[j]) && !Is(TestsOf(rx), Ending, lines[j])
  {
    forall j | first <= j < open
      ensures !Is(TestsOf(rx), Opening, lines[j]) && !Is(TestsOf(rx), Ending, lines[j])
    {
      DollarQuoteIs(Trimmed(lines[j]));
      PlainIsAt(rx, lines[j]);
    }
  }

  lemma PlainIsAt(rx: Regexes, line: string)
    ensures Is(TestsOf(rx), Ending, line) <==> Ends(line)
    ensures Is(TestsOf(rx), Opening, line) <==>
              Trimmed(line) != "" && !Ends(line)
              && (DollarQuote(Trimmed(line)).Delimiter? || rx.bodyBegins(Trimmed(line)))
  {
    TrimmedTwice(line);
  }

  lemma TrimmedTwice(line: string)
    ensures Trimmed(Trimmed(line)) == Trimmed(line)
  {
  }

  /**
   For the program's tests: an SQL body, opened by a line without two dollar signs, closes at the first
   ending line at or after the next line that has END or end in it, and at none before.
   */
  lemma SqlBodyClosesAtEnd(rx: Regexes, lines: seq<string>, first: nat, open: nat, close: nat)
    requires first <= open < close < |lines| && rx.startsCodeBlock(Trimmed(lines[first]))
    requires PlainUpTo(rx, lines, first, open) && Trimmed(lines[open]) != "" && !Ends(lines[open])
    requires rx.bodyBegins(Trimmed(lines[open])) && !TwoDollars(Trimmed(lines[open]))
    ensures CloseOf(TestsOf(rx), lines, first) == close <==>
              EndsFrom(lines, open, ["END", "end"], close)
  {
    OpensSqlBody(rx, lines, first, open);
    forall j | 0 <= j < |lines|
      ensures Is(TestsOf(rx), Carrying("END"), lines[j]) <==> HasAny(["END", "end"], lines[j])
    {
      CarriesEnd(rx, lines[j]);
    }
    ClosesVia(rx, TestsOf(rx), lines, first, open, close, "END", ["END", "end"]);
  }

  /** Where a block closes, once it is known which lines have its delimiter. */
  lemma ClosesVia(rx: Regexes, tests: Tests, lines: seq<string>, first: nat, open: nat, close: nat,
                  text: string, texts: seq<string>)
    requires tests == TestsOf(rx) && first <= open < close < |lines| && rx.startsCodeBlock(Trimmed(lines[first]))
    requires OpensWith(tests, lines, first, open, text)
    requires forall j :: 0 <= j < |lines| ==> (Is(tests, Carrying(text), lines[j]) <==> HasAny(texts, lines[j]))
    ensures CloseOf(tests, lines, first) == close <==> EndsFrom(lines, open, texts, close)
  {
    forall j | 0 <= j < |lines|
      ensures Is(tests, Ending, lines[j]) <==> Ends(lines[j])
    {
      PlainIsAt(rx, lines[j]);
    }
    ClosesViaTests(tests, lines, first, open, close, text, texts);
  }

  lemma ClosesViaTests(tests: Tests, lines: seq<string>, first: nat, open: nat, close: nat,
                       text: string, texts: seq<string>)
    requires first <= open < close < |lines| && tests.rx.startsCodeBlock(Trimmed(lines[first]))
    requires OpensWith(tests, lines, first, open, text)
    requires forall j :: 0 <= j < |lines| ==> (Is(tests, Carrying(text), lines[j]) <==> HasAny(texts, lines[j]))
    requires forall j :: 0 <= j < |lines| ==> (Is(tests, Ending, lines[j]) <==> Ends(lines[j]))
    ensures CloseOf(tests, lines, first) == close <==> EndsFrom(lines, open, texts, close)
  {
    BlockClosesAfterItsDelimiter(tests, lines, first, open, close);
    assert forall c: nat :: FirstAfter(lines, open, texts, c) <==>
        && open < c < |lines| && Is(tests, Carrying(text), lines[c])
        && forall j :: open < j < c ==> !Is(tests, Carrying(text), lines[j]);
  }

  /** The line opens a block with that delimiter, and none before it does or ends the statement. */
  predicate OpensWith(tests: Tests, lines: seq<string>, first: nat, open: nat, text: string) {
    Opens(tests, lines, first, open) && DelimiterOf(tests, Trimmed(lines[open])) == text
  }

  lemma OpensSqlBody(rx: Regexes, lines: seq<string>, first: nat, open: nat)
    requires first <= open < |lines| && PlainUpTo(rx, lines, first, open)
    requires Trimmed(lines[open]) != "" && !Ends(lines[open])
    requires rx.bodyBegins(Trimmed(lines[open])) && !TwoDollars(Trimmed(lines[open]))
    ensures OpensWith(TestsOf(rx), lines, first, open, "END")
  {
    PlainIs(rx, lines, first, open);
    DollarQuoteIs(Trimmed(lines[open]));
    PlainIsAt(rx, lines[open]);
  }

  lemma OpensQuoted(rx: Regexes, lines: seq<string>, first: nat, open: nat, text: string)
    requires first <= open < |lines| && PlainUpTo(rx, lines, first, open) && !Ends(lines[open])
    requires Trimmed(lines[open]) != "" && DollarQuote(Trimmed(lines[open])) == Delimiter(text)
    ensures OpensWith(TestsOf(rx), lines, first, open, text)
  {
    PlainIs(rx, lines, first, open);
    PlainIsAt(rx, lines[open]);
  }

  lemma HasEither(a: string, b: string, line: string)
    ensures HasAny([a, b], line) <==> Contains(Trimmed(line), a) || Contains(Trimmed(line), b)
  {
    assert [a, b][0] == a && [a, b][1] == b;
  }

  lemma CarriesEnd(rx: Regexes, line: string)
    ensures Is(TestsOf(rx), Carrying("END"), line) <==> HasAny(["END", "end"], line)
  {
    HasEither("END", "end", line);
  }

  /** The same for a block in dollar quotes: what closes it is the text from the first dollar sign of the
      opening line to the last. */
  lemma DollarBlockClosesAtText(rx: Regexes, lines: seq<string>, first: nat, open: nat, close: nat,
                                before: string, text: string, after: string)
    requires first <= open < close < |lines| && rx.startsCodeBlock(Trimmed(lines[first]))
    requires PlainUpTo(rx, lines, first, open) && !Ends(lines[open])
    requires Trimmed(lines[open]) == before + text + after && '$' !in before && '$' !in after
    requires |text| >= 2 && text[0] == '$' && text[|text| - 1] == '$'
    ensures CloseOf(TestsOf(rx), lines, first) == close <==>
              EndsFrom(lines, open, [text], close)
  {
    QuotedText(before, text, after);
    OpensQuoted(rx, lines, first, open, text);
    QuotedClosesAtText(rx, lines, first, open, close, text);
  }

  lemma QuotedClosesAtText(rx: Regexes, lines: seq<string>, first: nat, open: nat, close: nat, text: string)
    requires first <= open < close < |lines| && rx.startsCodeBlock(Trimmed(lines[first]))
    requires OpensWith(TestsOf(rx), lines, first, open, text) && text != "" && text[0] == '$'
    ensures CloseOf(TestsOf(rx), lines, first) == close <==> EndsFrom(lines, open, [text], close)
  {
    forall j | 0 <= j < |lines|
      ensures Is(TestsOf(rx), Carrying(text), lines[j]) <==> HasAny([text], lines[j])
    {
      CarriesText(rx, text, lines[j]);
    }
    ClosesVia(rx, TestsOf(rx), lines, first, open, close, text, [text]);
  }

  lemma CarriesText(rx: Regexes, text: string, line: string)
    requires text != "" && text[0] == '$'
    ensures Is(TestsOf(rx), Carrying(text), line) <==> HasAny([text], line)
  {
    assert HasAny([text], line) <==> Contains(Trimmed(line), text) by {
      assert [text][0] == text;
    }
    if Trimmed(line) == "" {
      assert !Contains("", text);
    }
  }

  lemma QuotedText(before: string, text: string, after: string)
    requires '$' !in before && '$' !in after && |text| >= 2 && text[0] == '$' && text[|text| - 1] == '$'
    ensures DollarQuote(before + text + after) == Delimiter(text)
  {
    FromFirstDollar(before, text + after);
    assert before + text + after == before + (text + after);
    UpToLastDollar(text, after);
  }

  lemma {:induction false} UpToLastDollar(text: string, after: string)
    requires '$' !in after && text != "" && text[|text| - 1] == '$'
    ensures UpToDollar(text + after) == text
    decreases |after|
  {
    if after == "" {
      assert text + after == text;
    } else {
      assert (text + after)[..|text + after| - 1] == text + after[..|after| - 1];
      UpToLastDollar(text, after[..|after| - 1]);
    }
  }

  /** The first line that opens a code block, with no line before it that ends the statement. */
  predicate Opens(tests: Tests, lines: seq<string>, first: nat, open: nat) {
    && first <= open < |lines| && Is(tests, Opening, lines[open])
    && forall j :: first <= j < open ==> !Is(tests, Opening, lines[j]) && !Is(tests, Ending, lines[j])
  }

  predicate NoneEnds(tests: Tests, lines: seq<string>, from: nat) {
    forall j :: from <= j < |lines| ==> !Is(tests, Ending, lines[j])
  }

  /** After the line that opens the block, no line with its delimiter has an ending line at or after it. */
  predicate NeverClosed(tests: Tests, lines: seq<string>, open: nat)
    requires open < |lines|
  {
    forall c: nat :: open < c < |lines| && Is(tests, Carrying(DelimiterOf(tests, Trimmed(lines[open]))), lines[c]) ==>
      NoneEnds(tests, lines, c)
  }

  /**
   A statement takes in the rest of the file if and only if no line ends it, or it opens a code block
   whose delimiter is not met again, or met again too late.
   */
  lemma RunsToEndOfFileIff(tests: Tests, lines: seq<string>, first: nat)
    requires first < |lines|
    ensures CloseOf(tests, lines, first) == |lines| <==>
              || NoneEnds(tests, lines, first)
              || (tests.rx.startsCodeBlock(Trimmed(lines[first]))
                  && exists open :: Opens(tests, lines, first, open) && NeverClosed(tests, lines, open))
  {
    var end, open := First(tests, Ending, lines, first), First(tests, Opening, lines, first);
    FirstIs(tests, Ending, lines, first);
    FirstIs(tests, Opening, lines, first);
    assert forall o :: Opens(tests, lines, first, o) ==> o == open < end;
    if tests.rx.startsCodeBlock(Trimmed(lines[first])) && open < end {
      var delimiter := Carrying(DelimiterOf(tests, Trimmed(lines[open])));
      var carrying := First(tests, delimiter, lines, open + 1);
      FirstIs(tests, delimiter, lines, open + 1);
      FirstIs(tests, Ending, lines, carrying);
      assert Opens(tests, lines, first, open);
    }
  }

  lemma {:induction false} FromFirstDollar(front: string, rest: string)
    requires '$' !in front && rest != "" && rest[0] == '$'
    ensures FromDollar(front + rest) == rest
  {
    if front == "" {
      assert front + rest == rest;
    } else {
      assert (front + rest)[1..] == front[1..] + rest;
      FromFirstDollar(front[1..], rest);
    }
  }

  lemma NoDashes(line: string)
    requires '-' !in line
    ensures !Contains(line, "--")
  {
    forall i | 0 <= i <= |line| - 2
      ensures !OccursAt(line, "--", i)
    {
      assert line[i..i + 2][0] in line;
    }
  }

  /** A line that quotes a text at its end opens a block that closes where the same text is met again. */
  lemma QuotingLineOpens(rx: Regexes, front: string, text: string, line: string)
    requires line == front + text && '$' !in front && '-' !in line
    requires |text| >= 2 && text[0] == text[|text| - 1] == '$'
    ensures Trimmed(line) == line && DollarQuote(line) == Delimiter(text) && DelimiterOf(TestsOf(rx), line) == text
    ensures Is(TestsOf(rx), Opening, line)
    ensures !(" " <= line) ==> StartsStatement(TestsOf(rx), line)
  {
    FromFirstDollar(front, text);
    assert line[|line| - 1] == '$';
    NoDashes(line);
    assert LastIndex(line, "--") == -1;
  }

  lemma UnclosedRunsOn(tests: Tests, lines: seq<string>)
    requires lines != [] && tests.rx.startsCodeBlock(Trimmed(lines[0])) && Is(tests, Opening, lines[0])
    requires var delimiter := Carrying(DelimiterOf(tests, Trimmed(lines[0])));
             forall j :: 0 < j < |lines| ==> !Is(tests, delimiter, lines[j])
    ensures CloseOf(tests, lines, 0) == |lines|
  {
    RunsToEndOfFileIff(tests, lines, 0);
    assert Opens(tests, lines, 0, 0) && NeverClosed(tests, lines, 0);
  }

  lemma NotCarried(rx: Regexes, text: string, line: string)
    requires text != END && !Contains(Trimmed(line), text)
    ensures !Is(TestsOf(rx), Carrying(text), line)
  {
  }

  /**
   A block on one line: what the program takes for its delimiter is the quoted text itself, so the statement
   takes in every later line of the file if none repeats it.
   */
  lemma OneLineBlockTakesAll(rx: Regexes, front: string, text: string, lines: seq<string>, spans: seq<Span>)
    requires |text| >= 2 && text[0] == text[|text| - 1] == '$' && '$' !in front
    requires lines != [] && lines[0] == front + text && '-' !in lines[0] && !(" " <= lines[0])
    requires rx.startsCodeBlock(lines[0]) && forall j :: 0 < j < |lines| ==> !Contains(Trimmed(lines[j]), text)
    ensures Cut(TestsOf(rx), lines, |lines|, spans) <==> spans == [Span(0, |lines|)]
  {
    QuotingLineOpens(rx, front, text, lines[0]);
    forall j | 0 < j < |lines|
      ensures !Is(TestsOf(rx), Carrying(text), lines[j])
    {
      NotCarried(rx, text, lines[j]);
    }
    UnclosedRunsOn(TestsOf(rx), lines);
    WholeFileIsCut(TestsOf(rx), lines, spans);
  }

  lemma WholeFileIsCut(tests: Tests, lines: seq<string>, spans: seq<Span>)
    requires lines != [] && StartsStatement(tests, lines[0]) && CloseOf(tests, lines, 0) == |lines|
    ensures Cut(tests, lines, |lines|, spans) <==> spans == [Span(0, |lines|)]
  {
    var whole := [Span(0, |lines|)];
    assert forall j :: 0 <= j < |lines| ==> Covers(whole[0], j);
    assert Cut(tests, lines, |lines|, whole);
    if Cut(tests, lines, |lines|, spans) {
      CutIsUnique(tests, lines, spans, whole, |spans|);
      CutIsUnique(tests, lines, whole, spans, 1);
    }
  }

  const FRONT := "CREATE PROCEDURE p() AS "
  const BODY := "$$ select 1 $$"

  lemma FrontIsPlain()
    ensures '$' !in FRONT && '-' !in FRONT && FRONT[0] == 'C'
  {
  }

  lemma BodyIsQuoted()
    ensures '-' !in BODY && |BODY| == 14 && BODY[0] == BODY[|BODY| - 1] == '$'
  {
  }

  lemma TooShort(line: string, text: string)
    requires |line| < |text|
    ensures !Contains(Trimmed(line), text)
  {
  }

  /** A whole procedure with its body on one line swallows the rest of the file: its closing semicolon is waited
      for behind a second copy of the body. */
  lemma OneLineProcedureTakesAll(rx: Regexes, lines: seq<string>, spans: seq<Span>)
    requires |lines| >= 2 && lines[0] == FRONT + BODY && lines[1] == "LANGUAGE sql;" && rx.startsCodeBlock(lines[0])
    requires forall j :: 2 <= j < |lines| ==> !Contains(Trimmed(lines[j]), BODY)
    ensures Cut(TestsOf(rx), lines, |lines|, spans) <==> spans == [Span(0, |lines|)]
  {
    FrontIsPlain();
    BodyIsQuoted();
    TooShort(lines[1], BODY);
    assert lines[0][0] == 'C';
    OneLineBlockTakesAll(rx, FRONT, BODY, lines, spans);
  }

  lemma OpenLine(line: string)
    requires line != "" && line[|line| - 1] != ' ' && line[|line| - 1] != ';' && '-' !in line
    ensures Trimmed(line) == line && !Ends(line)
  {
    NoDashes(line);
    assert LastIndex(line, "--") == -1;
  }

  lemma ClosingLine(line: string)
    requires line != "" && line[|line| - 1] == ';'
    ensures Trimmed(line) == line && Ends(line)
  {
  }

  lemma UndashedStarts(rx: Regexes, line: string)
    requires Trimmed(line) == line != "" && '-' !in line
    ensures StartsStatement(TestsOf(rx), line)
  {
    NoDashes(line);
    DashesAreNotTrimmed(line);
  }

  lemma MiddleDiffers(line: string, sub: string, i: int)
    requires |sub| == 3 && sub[1] !in line
    ensures !OccursAt(line, sub, i)
  {
    if 0 <= i <= |line| - 3 {
      assert line[i..i + 3][1] in line;
    }
  }

  lemma HasNoEnd(line: string)
    requires Trimmed(line) == line && 'n' !in line && 'N' !in line
    ensures !HasAny(["END", "end"], line)
  {
    forall i | 0 <= i <= |line| - 3
      ensures !OccursAt(line, "END", i) && !OccursAt(line, "end", i)
    {
      MiddleDiffers(line, "END", i);
      MiddleDiffers(line, "end", i);
    }
    HasEither("END", "end", line);
  }

  lemma HasEndAtStart(line: string)
    requires |line| == 4 && line[..3] == "end" && Trimmed(line) == line
    ensures HasAny(["END", "end"], line)
  {
    assert OccursAt(line, "end", 0) && ["END", "end"][1] == "end";
    assert Contains(Trimmed(line), "end");
  }

  lemma CutInTwo(tests: Tests, lines: seq<string>, n: nat, spans: seq<Span>)
    requires 0 < n < |lines| && StartsStatement(tests, lines[0]) && CloseOf(tests, lines, 0) == n - 1
    requires StartsStatement(tests, lines[n]) && CloseOf(tests, lines, n) == |lines| - 1
    ensures Cut(tests, lines, |lines|, spans) <==> spans == [Span(0, n), Span(n, |lines|)]
  {
    var both := [Span(0, n), Span(n, |lines|)];
    assert forall j :: 0 <= j < n ==> Covers(both[0], j);
    assert forall j :: n <= j < |lines| ==> Covers(both[1], j);
    assert Cut(tests, lines, |lines|, both);
    if Cut(tests, lines, |lines|, spans) {
      CutIsUnique(tests, lines, spans, both, |spans|);
      CutIsUnique(tests, lines, both, spans, 2);
    }
  }

  const HEAD := "CREATE FUNCTION f() RETURNS int"
  const ATOMIC := "BEGIN ATOMIC"
  const INNER := "select 1;"
  const CLOSING := "end;"
  const NEXT := "select 2;"

  lemma SqlBodyLines()
    ensures HEAD[|HEAD| - 1] == 't' && '-' !in HEAD && '$' !in HEAD
    ensures ATOMIC[|ATOMIC| - 1] == 'C' && '-' !in ATOMIC && '$' !in ATOMIC
    ensures INNER[|INNER| - 1] == ';' && '-' !in INNER && 'n' !in INNER && 'N' !in INNER
    ensures CLOSING[|CLOSING| - 1] == ';' && CLOSING[..3] == "end" && |CLOSING| == 4
    ensures NEXT[|NEXT| - 1] == ';' && '-' !in NEXT
  {
  }

  lemma SqlBodyCloses(rx: Regexes, lines: seq<string>)
    requires lines == [HEAD, ATOMIC, INNER, CLOSING, NEXT]
    requires rx.startsCodeBlock(HEAD) && !rx.bodyBegins(HEAD) && rx.bodyBegins(ATOMIC)
    ensures CloseOf(TestsOf(rx), lines, 0) == 3
  {
    SqlBodyLines();
    OpenLine(HEAD);
    OpenLine(ATOMIC);
    ClosingLine(INNER);
    ClosingLine(CLOSING);
    HasNoEnd(INNER);
    HasEndAtStart(CLOSING);
    assert FirstAfter(lines, 1, ["END", "end"], 3);
    SqlBodyClosesAtEnd(rx, lines, 0, 1, 3);
  }

  /** A lower-case end closes an SQL body, and the statement in it does not: a file of a function and a query. */
  lemma LowerCaseEndCloses(rx: Regexes, lines: seq<string>, spans: seq<Span>)
    requires lines == [HEAD, ATOMIC, INNER, CLOSING, NEXT]
    requires rx.startsCodeBlock(HEAD) && !rx.bodyBegins(HEAD) && rx.bodyBegins(ATOMIC) && !rx.startsCodeBlock(NEXT)
    ensures Cut(TestsOf(rx), lines, 5, spans) <==> spans == [Span(0, 4), Span(4, 5)]
  {
    SqlBodyCloses(rx, lines);
    SqlBodyLines();
    OpenLine(HEAD);
    ClosingLine(NEXT);
    UndashedStarts(rx, HEAD);
    UndashedStarts(rx, NEXT);
    PlainIsAt(rx, NEXT);
    assert CloseOf(TestsOf(rx), lines, 4) == 4;
    CutInTwo(TestsOf(rx), lines, 4, spans);
  }

  // ---------- what is lost ----------

  predicate BeginsComment(line: string) { "--" <= TrimLeft(Trimmed(line), ' ') }

  /** The line is not the second or a later one of a statement. */
  predicate AtBoundary(spans: seq<Span>, j: nat) {
    forall k | 0 <= k < |spans| :: !(spans[k].first < j < spans[k].past)
  }

  lemma OccursLater(t: string, i: int)
    requires t != ""
    ensures OccursAt(t[1..], "--", i) <==> i >= 0 && OccursAt(t, "--", i + 1)
  {
    if 0 <= i <= |t| - 3 {
      assert t[1..][i..i + 2] == t[i + 1..i + 3];
    }
  }

  lemma BlankInFront(t: string)
    requires t != "" && t[0] == ' '
    ensures Contains(t[1..], "--") <==> Contains(t, "--")
  {
    assert !OccursAt(t, "--", 0) by {
      assert |t| >= 2 ==> t[0..2][0] == ' ';
    }
    if i :| 0 <= i <= |t| - 2 && OccursAt(t, "--", i) {
      OccursLater(t, i - 1);
    }
    if i :| 0 <= i <= |t[1..]| - 2 && OccursAt(t[1..], "--", i) {
      OccursLater(t, i);
    }
  }

  lemma {:induction false} DashesAreNotTrimmed(t: string)
    ensures Contains(TrimLeft(t, ' '), "--") <==> Contains(t, "--")
  {
    if t != "" && t[0] == ' ' {
      DashesAreNotTrimmed(t[1..]);
      BlankInFront(t);
    }
  }

  /** A non-blank line between statements is lost if and only if it contains "--", wherever in the line:
      also when it starts, or is, a statement. */
  lemma LostIffDashes(rx: Regexes, lines: seq<string>, spans: seq<Span>, j: nat)
    requires Cut(TestsOf(rx), lines, |lines|, spans) && j < |lines| && AtBoundary(spans, j) && !IsBlank(lines[j])
    ensures !Covered(spans, j) <==> Contains(Trimmed(lines[j]), "--")
  {
    DashesAreNotTrimmed(Trimmed(lines[j]));
    if k :| 0 <= k < |spans| && Covers(spans[k], j) {
      assert IsStatement(TestsOf(rx), lines, spans[k]) && spans[k].first == j;
    }
  }

  /** A whole statement with a comment after it is lost, though it does not begin with the comment: the file
      that holds the very line the end-of-statement test is meant to accept has no statement. */
  lemma CommentedStatementIsLost(rx: Regexes, spans: seq<Span>)
    ensures !BeginsComment("CREATE TABLE t1 (c1 int); -- table t1")
    ensures Cut(TestsOf(rx), ["CREATE TABLE t1 (c1 int); -- table t1"], 1, spans) <==> spans == []
  {
    var line := "CREATE TABLE t1 (c1 int); -- table t1";
    assert line[26..28] == "--" && OccursAt(line, "--", 26);
    DashesAreNotTrimmed(line);
    assert Trimmed(line) == line && TrimLeft(line, ' ') == line;
    assert Cut(TestsOf(rx), [line], 1, spans) && spans != [] ==> IsStatement(TestsOf(rx), [line], spans[0]);
  }
}
