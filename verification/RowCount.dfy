/**
 Counting exported rows while the data file is still being written: the reader meets the end of
 the file in the middle of lines and carries the unfinished part over to the next attempt.
 */
module RowCount {
  import opened Sequences

  datatype DbType = Postgres | Oracle | MySql

  /** What one call of the buffered reader returns: a line with its newline, or the end of the file. */
  datatype Read = Line(text: string) | Eof(text: string)

  predicate WellFormed(r: Read) {
    match r
    case Line(text) => text != "" && text[|text| - 1] == '\n' && '\n' !in text[..|text| - 1]
    case Eof(text) => '\n' !in text
  }

  function Content(feed: seq<Read>): string {
    if feed == [] then "" else Content(feed[..|feed| - 1]) + feed[|feed| - 1].text
  }

  // ---------- lines of a text ----------

  /** The newline-terminated lines of a text, and what follows the last newline. */
  function Split(s: string): (r: (seq<string>, string)) {
    if s == "" then ([], "")
    else
      var (lines, rest) := Split(s[..|s| - 1]);
      if s[|s| - 1] == '\n' then (lines + [rest + "\n"], "") else (lines, rest + [s[|s| - 1]])
  }

  lemma {:induction false} SplitMore(s: string, t: string)
    requires '\n' !in t
    ensures Split(s + t) == (Split(s).0, Split(s).1 + t)
    decreases |t|
  {
    if t == "" {
      assert s + t == s;
      assert Split(s).1 + t == Split(s).1;
    } else {
      var most := t[..|t| - 1];
      assert (s + t)[..|s + t| - 1] == s + most;
      SplitMore(s, most);
      assert Split(s).1 + most + [t[|t| - 1]] == Split(s).1 + t;
    }
  }

  lemma SplitNewline(s: string)
    ensures Split(s + "\n") == (Split(s).0 + [Split(s).1 + "\n"], "")
  {
    assert (s + "\n")[..|s|] == s;
  }

  lemma SplitLine(s: string, t: string)
    requires t != "" && t[|t| - 1] == '\n' && '\n' !in t[..|t| - 1]
    ensures Split(s + t) == (Split(s).0 + [Split(s).1 + t], "")
  {
    var most := t[..|t| - 1];
    assert t == most + "\n";
    SplitMore(s, most);
    SplitNewline(s + most);
    Associates(s, most, "\n");
    Associates(Split(s).1, most, "\n");
  }

  // ---------- data lines ----------

  const END_OF_COPY := "\\."

  predicate StartsWithEnd(line: string) { END_OF_COPY <= line }

  /** Whether the line is counted, and whether the next one is inside a COPY statement. */
  function IsDataLine(db: DbType, startsCopy: string -> bool, line: string, insideCopy: bool): (bool, bool) {
    var endOfCopy := line == END_OF_COPY || line == END_OF_COPY + "\n";
    var data := !(line == "" || line == "\n" || endOfCopy);
    if db == Postgres then (data, insideCopy)
    else if insideCopy then (data, !endOfCopy)
    else (false, startsCopy(line))
  }

  /** A line is a row if and only if it is none of four texts and, but for PostgreSQL, inside a COPY statement,
      which the line that starts it opens and the end marker closes. */
  lemma DataLineIff(db: DbType, startsCopy: string -> bool, line: string, insideCopy: bool)
    ensures IsDataLine(db, startsCopy, line, insideCopy).0 <==>
              line !in ["", "\n", "\\.", "\\.\n"] && (db == Postgres || insideCopy)
    ensures db != Postgres ==>
              (IsDataLine(db, startsCopy, line, insideCopy).1 <==>
                 if insideCopy then line !in ["\\.", "\\.\n"] else startsCopy(line))
  {
    assert END_OF_COPY + "\n" == "\\.\n";
  }

  /** Rows counted over a list of lines, from outside any COPY statement. */
  function Tally(db: DbType, startsCopy: string -> bool, lines: seq<string>): (nat, bool) {
    if lines == [] then (0, false)
    else
      var (count, inside) := Tally(db, startsCopy, lines[..|lines| - 1]);
      var (data, next) := IsDataLine(db, startsCopy, lines[|lines| - 1], inside);
      (if data then count + 1 else count, next)
  }

  lemma TallyMore(db: DbType, startsCopy: string -> bool, lines: seq<string>, line: string)
    ensures var (count, inside) := Tally(db, startsCopy, lines);
            var (data, next) := IsDataLine(db, startsCopy, line, inside);
            Tally(db, startsCopy, lines + [line]) == (if data then count + 1 else count, next)
  {
    assert (lines + [line])[..|lines|] == lines;
  }

  // ---------- rounds of reading ----------

  /** How many reads one round takes: up to the end of the file or, for PostgreSQL, the end of the data. */
  function Taken(db: DbType, prefix: string, feed: seq<Read>): (n: nat)
    ensures n <= |feed| && (feed != [] ==> n > 0)
    decreases |feed|
  {
    if feed == [] then 0
    else if feed[0].Eof? || (db == Postgres && StartsWithEnd(prefix + feed[0].text)) then 1
    else 1 + Taken(db, "", feed[1..])
  }

  /** The line a round leaves behind: the last full line, or the raw text it met the end of the file with. */
  function LineLeft(db: DbType, prefix: string, feed: seq<Read>): string
    decreases |feed|
  {
    if feed == [] then ""
    else if feed[0].Eof? then feed[0].text
    else if db == Postgres && StartsWithEnd(prefix + feed[0].text) then prefix + feed[0].text
    else LineLeft(db, "", feed[1..])
  }

  /** The reader's variables. */
  datatype Tallied = Tallied(prefix: string, count: nat, inside: bool)

  function Take(db: DbType, startsCopy: string -> bool, before: Tallied, r: Read): Tallied {
    match r
    case Eof(text) => before.(prefix := before.prefix + text)
    case Line(text) =>
      var (data, next) := IsDataLine(db, startsCopy, before.prefix + text, before.inside);
      Tallied("", if data then before.count + 1 else before.count, next)
  }

  function TakeAll(db: DbType, startsCopy: string -> bool, feed: seq<Read>): Tallied {
    if feed == [] then Tallied("", 0, false)
    else Take(db, startsCopy, TakeAll(db, startsCopy, feed[..|feed| - 1]), feed[|feed| - 1])
  }

  lemma TakeOneMore(db: DbType, startsCopy: string -> bool, feed: seq<Read>, r: Read)
    ensures TakeAll(db, startsCopy, feed + [r]) == Take(db, startsCopy, TakeAll(db, startsCopy, feed), r)
  {
    assert (feed + [r])[..|feed|] == feed;
  }

  /** However the text was cut into reads, the count is that of its lines. */
  lemma {:induction false} CountIsOfContent(db: DbType, startsCopy: string -> bool, feed: seq<Read>)
    requires forall r <- feed :: WellFormed(r)
    ensures var all, (lines, rest) := TakeAll(db, startsCopy, feed), Split(Content(feed));
            all.prefix == rest && (all.count, all.inside) == Tally(db, startsCopy, lines)
  {
    if feed != [] {
      var most, last := feed[..|feed| - 1], feed[|feed| - 1];
      assert feed == most + [last];
      CountIsOfContent(db, startsCopy, most);
      OneMoreRead(most, last);
      TallyMore(db, startsCopy, Split(Content(most)).0, Split(Content(most)).1 + last.text);
    }
  }

  /** The unfinished line after some reads. */
  function PrefixAfter(feed: seq<Read>): string {
    if feed == [] then ""
    else match feed[|feed| - 1]
      case Line(_) => ""
      case Eof(text) => PrefixAfter(feed[..|feed| - 1]) + text
  }

  lemma {:induction false} PrefixIsTaken(db: DbType, startsCopy: string -> bool, feed: seq<Read>)
    ensures TakeAll(db, startsCopy, feed).prefix == PrefixAfter(feed)
  {
    if feed != [] {
      PrefixIsTaken(db, startsCopy, feed[..|feed| - 1]);
    }
  }

  /** Where a round that starts after i reads ends. */
  function RoundEnd(db: DbType, feed: seq<Read>, i: nat): (j: nat)
    requires i <= |feed|
    ensures i <= j <= |feed| && (i < |feed| ==> i < j)
  {
    i + Taken(db, PrefixAfter(feed[..i]), feed[i..])
  }

  function LineAfter(db: DbType, feed: seq<Read>, i: nat): string
    requires i <= |feed|
  {
    LineLeft(db, PrefixAfter(feed[..i]), feed[i..])
  }

  /** How many reads a PostgreSQL run takes: rounds until one leaves the end of the data, and one round more. */
  function PgStop(feed: seq<Read>, i: nat): (j: nat)
    requires i <= |feed|
    ensures j <= |feed|
    decreases |feed| - i
  {
    if i == |feed| then i
    else
      var next := RoundEnd(Postgres, feed, i);
      if StartsWithEnd(LineAfter(Postgres, feed, i)) then RoundEnd(Postgres, feed, next) else PgStop(feed, next)
  }

  /** How many reads `rounds` rounds take. */
  function RoundsStop(db: DbType, feed: seq<Read>, i: nat, rounds: nat): (j: nat)
    requires i <= |feed|
    ensures i <= j <= |feed|
    decreases rounds
  {
    if rounds == 0 then i else RoundsStop(db, feed, RoundEnd(db, feed, i), rounds - 1)
  }

  class RowCounter {
    const db: DbType
    const startsCopy: string -> bool
    /** What the reader will still return, and what it has returned. */
    var pending: seq<Read>
    ghost var seen: seq<Read>
    var prefix: string
    var line: string
    var countLiveRows: nat
    var insideCopyStmt: bool

    ghost predicate Valid()
      reads this
    {
      Tallied(prefix, countLiveRows, insideCopyStmt) == TakeAll(db, startsCopy, seen)
    }

    constructor (db: DbType, startsCopy: string -> bool, feed: seq<Read>)
      ensures Valid() && pending == feed && seen == [] && line == ""
      ensures this.db == db && this.startsCopy == startsCopy
    {
      this.db, this.startsCopy := db, startsCopy;
      pending, seen, prefix, line, countLiveRows, insideCopyStmt := feed, [], "", "", 0, false;
    }

    /** One read; the round is over at the end of the file or of the data. */
    method ReadOne() returns (over: bool)
      requires Valid() && pending != []
      modifies this
      ensures Valid() && seen == old(seen) + [old(pending)[0]] && pending == old(pending)[1..]
      ensures old(pending)[0].Eof? ==> over && line == old(pending)[0].text
      ensures old(pending)[0].Line? ==>
                && prefix == "" && line == old(prefix) + old(pending)[0].text
                && (over <==> db == Postgres && StartsWithEnd(line))
    {
      var read := pending[0];
      TakeOneMore(db, startsCopy, seen, read);
      assert "" + read.text == read.text;
      seen := seen + [read];
      pending := pending[1..];
      line := read.text;
      if read.Line? {
        if prefix != "" {
          line := prefix + line;
          prefix := "";
        }
      } else {
        prefix := prefix + line;
        return true;
      }
      var (data, inside) := IsDataLine(db, startsCopy, line, insideCopyStmt);
      insideCopyStmt := inside;
      if data {
        countLiveRows := countLiveRows + 1;
      }
      over := db == Postgres && StartsWithEnd(line);
    }

    /** One round of reads. */
    method ReadLines()
      requires Valid()
      modifies this
      ensures Valid()
      ensures var n := Taken(db, old(prefix), old(pending));
              seen == old(seen) + old(pending)[..n] && pending == old(pending)[n..]
      ensures line == LineLeft(db, old(prefix), old(pending))
    {
      ghost var start, before, from, taken := pending, seen, prefix, 0;
      assert start[0..] == start;
      var over := false;
      while !over
        invariant Valid()
        invariant Moved(before, start, taken, seen, pending)
        invariant !over ==> AtRound(db, from, start, taken, prefix)
        invariant over ==> taken == Taken(db, from, start) && line == LineLeft(db, from, start)
        decreases |start| - taken, !over
      {
        if pending == [] {
          line := "";
          over := true;
        } else {
          MovedOn(before, start, taken, seen, pending);
          RoundStep(db, from, start, taken, prefix);
          taken := taken + 1;
          over := ReadOne();
        }
      }
    }

    /**
     Counts the rows of a table. PostgreSQL: until a round leaves the end of the data, or nothing more
     is ever delivered. Others: until the file is seen renamed, after `renamedAfter` rounds. Then one round more.
     */
    method CountRows(renamedAfter: nat)
      requires Valid() && seen == [] && line == ""
      modifies this
      ensures Valid()
      ensures var feed := old(pending);
              var stop := if db == Postgres then PgStop(feed, 0) else RoundsStop(db, feed, 0, renamedAfter + 1);
              seen == feed[..stop] && countLiveRows == TakeAll(db, startsCopy, feed[..stop]).count
    {
      ghost var feed := pending;
      assert feed[..0] == [] && feed[0..] == feed;
      var rounds := 0;
      while !EndOfFile(rounds, renamedAfter) && !(db == Postgres && pending == [])
        invariant Valid() && |seen| <= |feed| && seen == feed[..|seen|] && pending == feed[|seen|..]
        invariant rounds <= renamedAfter || db == Postgres
        invariant db == Postgres ==>
                    PgStop(feed, 0) == if StartsWithEnd(line) then RoundEnd(db, feed, |seen|) else PgStop(feed, |seen|)
        invariant db != Postgres ==>
                    RoundsStop(db, feed, 0, renamedAfter + 1) == RoundsStop(db, feed, |seen|, renamedAfter + 1 - rounds)
        decreases if db == Postgres then |pending| else renamedAfter - rounds
      {
        OneRound(feed);
        rounds := rounds + 1;
      }
      OneRound(feed);
    }

    predicate EndOfFile(rounds: nat, renamedAfter: nat)
      reads this
    {
      if db == Postgres then StartsWithEnd(line) else rounds >= renamedAfter
    }

    /** A round, in terms of the whole feed. */
    method OneRound(ghost feed: seq<Read>)
      requires Valid() && |seen| <= |feed| && seen == feed[..|seen|] && pending == feed[|seen|..]
      modifies this
      ensures Valid() && |seen| == RoundEnd(db, feed, old(|seen|)) && seen == feed[..|seen|] &&
            pending == feed[|seen|..]
      ensures line == LineAfter(db, feed, old(|seen|))
    {
      PrefixIsTaken(db, startsCopy, seen);
      ghost var i := |seen|;
      ReadLines();
      assert feed[..i] + feed[i..][..|seen| - i] == feed[..|seen|];
      assert feed[i..][|seen| - i..] == feed[|seen|..];
    }
  }

  /** The first `taken` of the reads to come have been made. */
  predicate Moved(before: seq<Read>, start: seq<Read>, taken: nat, seen: seq<Read>, pending: seq<Read>) {
    taken <= |start| && seen == before + start[..taken] && pending == start[taken..]
  }

  lemma MovedOn(before: seq<Read>, start: seq<Read>, taken: nat, seen: seq<Read>, pending: seq<Read>)
    requires Moved(before, start, taken, seen, pending) && pending != []
    ensures pending[0] == start[taken] && Moved(before, start, taken + 1, seen + [pending[0]], pending[1..])
  {
    assert before + start[..taken + 1] == before + start[..taken] + [start[taken]];
  }

  /** A round under way: what is left of it, from what is left of the feed. */
  predicate AtRound(db: DbType, from: string, start: seq<Read>, taken: nat, prefix: string)
    requires taken <= |start|
  {
    && Taken(db, from, start) == taken + Taken(db, prefix, start[taken..])
    && LineLeft(db, from, start) == LineLeft(db, prefix, start[taken..])
  }

  lemma RoundStep(db: DbType, from: string, start: seq<Read>, taken: nat, prefix: string)
    requires taken < |start| && AtRound(db, from, start, taken, prefix)
    ensures var r := start[taken];
            if r.Eof? then Taken(db, from, start) == taken + 1 && LineLeft(db, from, start) == r.text
            else if db == Postgres && StartsWithEnd(prefix + r.text) then
              Taken(db, from, start) == taken + 1 && LineLeft(db, from, start) == prefix + r.text
            else AtRound(db, from, start, taken + 1, "")
  {
    assert start[taken..][1..] == start[taken + 1..];
  }

  lemma OneMoreRead(seen: seq<Read>, r: Read)
    requires WellFormed(r)
    ensures var (lines, rest) := Split(Content(seen));
            Split(Content(seen + [r])) ==
              match r
              case Line(text) => (lines + [rest + text], "")
              case Eof(text) => (lines, rest + text)
  {
    assert (seen + [r])[..|seen|] == seen;
    match r
    case Line(text) => SplitLine(Content(seen), text);
    case Eof(text) => SplitMore(Content(seen), text);
  }

  // ---------- Oracle and MySQL: every chunking is counted alike ----------

  function Ends(feed: seq<Read>): nat {
    if feed == [] then 0 else (if feed[0].Eof? then 1 else 0) + Ends(feed[1..])
  }

  /** A round takes everything up to the next end of the file. */
  lemma {:induction false} TakenToEof(db: DbType, prefix: string, feed: seq<Read>)
    requires db != Postgres
    ensures var n := Taken(db, prefix, feed);
            if Ends(feed) == 0 then n == |feed| else 0 < n && feed[n - 1].Eof? && Ends(feed[n..]) == Ends(feed) - 1
    decreases |feed|
  {
    if feed != [] && feed[0].Line? {
      TakenToEof(db, "", feed[1..]);
      var n := Taken(db, "", feed[1..]);
      assert feed[1..][n..] == feed[1 + n..];
    }
  }

  lemma {:induction false} EndsSnoc(feed: seq<Read>, r: Read)
    ensures Ends(feed + [r]) == Ends(feed) + if r.Eof? then 1 else 0
  {
    if feed != [] {
      assert (feed + [r])[1..] == feed[1..] + [r];
      EndsSnoc(feed[1..], r);
    }
  }

  /** The run takes all there is if and only if its rounds outnumber the ends of file met before the last read. */
  lemma {:induction false} AllReadIff(db: DbType, feed: seq<Read>, i: nat, rounds: nat)
    requires db != Postgres && i < |feed|
    ensures RoundsStop(db, feed, i, rounds) == |feed| <==> Ends(feed[i..|feed| - 1]) < rounds
    decreases rounds
  {
    if rounds > 0 {
      var next := RoundEnd(db, feed, i);
      RoundEndsAtEof(db, feed, i);
      if next < |feed| {
        AllReadIff(db, feed, next, rounds - 1);
      } else {
        NoRoundsLeft(db, feed, rounds - 1);
      }
    }
  }

  lemma RoundEndsAtEof(db: DbType, feed: seq<Read>, i: nat)
    requires db != Postgres && i < |feed|
    ensures var next, most := RoundEnd(db, feed, i), |feed| - 1;
            if next == |feed| then Ends(feed[i..most]) == 0
            else Ends(feed[i..most]) == 1 + Ends(feed[next..most])
  {
    var next, most := RoundEnd(db, feed, i), |feed| - 1;
    TakenToEof(db, PrefixAfter(feed[..i]), feed[i..]);
    EndsBeforeLast(feed, i);
    assert feed[i..][next - i..] == feed[next..];
    if next < |feed| {
      EndsBeforeLast(feed, next);
    }
  }

  lemma EndsBeforeLast(feed: seq<Read>, i: nat)
    requires i < |feed|
    ensures Ends(feed[i..]) == Ends(feed[i..|feed| - 1]) + if feed[|feed| - 1].Eof? then 1 else 0
  {
    assert feed[i..] == feed[i..|feed| - 1] + [feed[|feed| - 1]];
    EndsSnoc(feed[i..|feed| - 1], feed[|feed| - 1]);
  }

  lemma {:induction false} NoRoundsLeft(db: DbType, feed: seq<Read>, rounds: nat)
    ensures RoundsStop(db, feed, |feed|, rounds) == |feed|
  {
    if rounds > 0 {
      NoRoundsLeft(db, feed, rounds - 1);
    }
  }

  /** Once all is read, the rows counted are the data lines of the file, however it was cut into reads. */
  lemma CountIgnoresChunks(db: DbType, startsCopy: string -> bool, feed: seq<Read>, renamedAfter: nat, text: string)
    requires db != Postgres && (forall r <- feed :: WellFormed(r)) && Content(feed) == text
    requires feed == [] || Ends(feed[..|feed| - 1]) <= renamedAfter
    ensures TakeAll(db, startsCopy, feed[..RoundsStop(db, feed, 0, renamedAfter + 1)]).count
            == Tally(db, startsCopy, Split(text).0).0
  {
    if feed == [] {
      NoRoundsLeft(db, feed, renamedAfter + 1);
    } else {
      assert feed[0..|feed| - 1] == feed[..|feed| - 1];
      AllReadIff(db, feed, 0, renamedAfter + 1);
    }
    assert feed[..|feed|] == feed;
    CountIsOfContent(db, startsCopy, feed);
  }

  // ---------- PostgreSQL: exactly which files ----------

  function Join(lines: seq<string>): string {
    if lines == [] then "" else Join(lines[..|lines| - 1]) + lines[|lines| - 1]
  }

  predicate IsLine(line: string) { WellFormed(Line(line)) }

  predicate IsTailLine(line: string) { line == END_OF_COPY + "\n" || line == "\n" }

  /** The end-of-data line and the blank lines the dump leaves after it. */
  function Tail(blanks: nat): (tail: seq<string>)
    ensures tail != [] && tail[0] == END_OF_COPY + "\n" && forall line <- tail :: IsTailLine(line)
  {
    [END_OF_COPY + "\n"] + seq(blanks, _ => "\n")
  }

  predicate IsRow(line: string) { IsLine(line) && !StartsWithEnd(line) }

  predicate MarkerAt(line: string, p: nat) { p + 2 <= |line| && line[p..p + 2] == END_OF_COPY }

  /** The end marker occurs in the line, but not at its start. */
  ghost predicate InnerMarker(line: string) { exists p: nat :: 0 < p && MarkerAt(line, p) }

  ghost predicate Delivers(feed: seq<Read>, text: string) {
    (forall r <- feed :: WellFormed(r)) && Content(feed) == text
  }

  function PgCount(startsCopy: string -> bool, feed: seq<Read>): nat {
    TakeAll(Postgres, startsCopy, feed[..PgStop(feed, 0)]).count
  }

  lemma {:induction false} SplitJoin(lines: seq<string>)
    requires forall line <- lines :: IsLine(line)
    ensures Split(Join(lines)) == (lines, "")
  {
    if lines != [] {
      var most, last := lines[..|lines| - 1], lines[|lines| - 1];
      assert last in lines && lines == most + [last];
      SplitJoin(most);
      SplitOneMore(most, last);
    }
  }

  lemma SplitOneMore(lines: seq<string>, last: string)
    requires Split(Join(lines)) == (lines, "") && IsLine(last)
    ensures Split(Join(lines) + last) == (lines + [last], "")
  {
    SplitLine(Join(lines), last);
    assert "" + last == last;
  }

  lemma {:induction false} SplitParts(s: string)
    ensures s == Join(Split(s).0) + Split(s).1 && '\n' !in Split(s).1
  {
    if s != "" {
      var most, last := s[..|s| - 1], s[|s| - 1];
      SplitParts(most);
      var (lines, rest) := Split(most);
      JoinOne(lines, rest + "\n");
      Associates(Join(lines), rest, [last]);
      assert s == most + [last];
    }
  }

  lemma JoinOne(lines: seq<string>, line: string)
    ensures Join(lines + [line]) == Join(lines) + line
  {
    assert (lines + [line])[..|lines|] == lines;
  }

  /** The lines of a prefix are the first lines of the text. */
  lemma {:induction false} SplitPrefix(c: string, text: string)
    requires c <= text
    ensures Split(c).0 <= Split(text).0
    decreases |text|
  {
    if c == text {
    } else {
      SplitPrefix(c, text[..|text| - 1]);
    }
  }

  lemma {:induction false} JoinAppend(a: seq<string>, b: seq<string>)
    ensures Join(a + b) == Join(a) + Join(b)
  {
    if b == [] {
      assert a + b == a;
    } else {
      assert (a + b)[..|a + b| - 1] == a + b[..|b| - 1];
      JoinAppend(a, b[..|b| - 1]);
    }
  }

  /** An unfinished text, the part that comes next, and the line they lie in. */
  lemma NextPartIsInRow(rows: seq<string>, c: string, r: Read)
    requires (forall row <- rows :: IsLine(row)) && WellFormed(r)
    requires c + r.text <= Join(rows) && |c| < |Join(rows)|
    ensures |Split(c).0| < |rows| && Split(c).1 + r.text <= rows[|Split(c).0|]
  {
    assert c == (c + r.text)[..|c|];
    PartOfRows(rows, c);
    SplitParts(c);
    assert rows[|Split(c).0|] in rows;
    var m := |Split(c).0|;
    JoinSplitsAt(rows, m);
    CutInRow(Join(rows[..m]), Split(c).1, r, rows[m], Join(rows[m + 1..]), Join(rows));
  }

  lemma {:induction false} JoinSplitsAt(rows: seq<string>, m: nat)
    requires m < |rows|
    ensures Join(rows) == Join(rows[..m]) + (rows[m] + Join(rows[m + 1..]))
    decreases |rows|
  {
    var most, last := rows[..|rows| - 1], rows[|rows| - 1];
    if m == |rows| - 1 {
      assert rows[m + 1..] == [] && rows[m] + "" == rows[m];
    } else {
      JoinSplitsAt(most, m);
      var after := rows[m + 1..];
      assert most[..m] == rows[..m] && most[m + 1..] == after[..|after| - 1];
      Associates(Join(rows[..m]), rows[m] + Join(most[m + 1..]), last);
      Associates(rows[m], Join(most[m + 1..]), last);
    }
  }

  lemma PartOfRows(rows: seq<string>, c: string)
    requires (forall row <- rows :: IsLine(row)) && c <= Join(rows) && |c| < |Join(rows)|
    ensures |Split(c).0| < |rows| && c == Join(rows[..|Split(c).0|]) + Split(c).1
  {
    SplitPrefix(c, Join(rows));
    SplitJoin(rows);
    SplitParts(c);
    assert rows[..|rows|] == rows;
    assert Split(c).0 == rows[..|Split(c).0|];
  }

  lemma JoinAround(a: seq<string>, row: string, b: seq<string>)
    ensures Join(a + ([row] + b)) == Join(a) + (row + Join(b))
  {
    JoinAppend(a, [row] + b);
    JoinAppend([row], b);
    assert Join([row]) == Join([]) + row == row by {
      assert [row][..0] == [];
    }
  }

  /** Nothing without a newline reaches past the end of a line. */
  lemma CutInRow(head: string, p: string, r: Read, row: string, after: string, whole: string)
    requires whole == head + (row + after) && (head + p) + r.text <= whole
    requires '\n' !in p && WellFormed(r) && IsLine(row)
    ensures p + r.text <= row
  {
    var part := p + r.text;
    assert (head + p) + r.text == head + part;
    assert part <= row + after by {
      assert (row + after)[..|part|] == whole[|head|..][..|part|];
      assert part == (head + part)[|head|..];
    }
    NewlineOnlyAtEnd(p, r.text);
    assert (row + after)[|row| - 1] == '\n';
    assert forall i :: 0 <= i < |part| ==> part[i] == (row + after)[i];
  }

  lemma NewlineOnlyAtEnd(p: string, t: string)
    requires '\n' !in p && (t == "" || '\n' !in t[..|t| - 1])
    ensures forall i :: 0 <= i < |p + t| - 1 ==> (p + t)[i] != '\n'
  {
    forall i | 0 <= i < |p + t| - 1
      ensures (p + t)[i] != '\n'
    {
      if i >= |p| {
        assert (p + t)[i] == t[..|t| - 1][i - |p|];
      }
    }
  }

  /** Where a round that leaves the end of the data ends: the line, or the raw text, it was left with. */
  lemma LineEndsPrefix(feed: seq<Read>, n: nat)
    requires n < |feed| && feed[n].Line?
    ensures PrefixAfter(feed[..n + 1]) == ""
  {
  }

  lemma {:induction false} RoundLeaves(feed: seq<Read>, i: nat, from: string, taken: nat, prefix: string)
    requires i + taken <= |feed| && from == PrefixAfter(feed[..i])
    requires AtRound(Postgres, from, feed[i..], taken, prefix) && prefix == PrefixAfter(feed[..i + taken])
    requires StartsWithEnd(LineAfter(Postgres, feed, i))
    ensures var j := RoundEnd(Postgres, feed, i);
            && i + taken < j
            && LineAfter(Postgres, feed, i)
               == if feed[j - 1].Eof? then feed[j - 1].text else PrefixAfter(feed[..j - 1]) + feed[j - 1].text
    decreases |feed| - taken
  {
    if i + taken < |feed| {
      RoundStep(Postgres, from, feed[i..], taken, prefix);
      var r := feed[i..][taken];
      if r.Line? && !StartsWithEnd(prefix + r.text) {
        LineEndsPrefix(feed, i + taken);
        RoundLeaves(feed, i, from, taken + 1, "");
      }
    }
  }

  lemma {:induction false} ContentPrefix(feed: seq<Read>, i: nat)
    requires i <= |feed|
    ensures Content(feed[..i]) <= Content(feed)
    decreases |feed|
  {
    if i == |feed| {
      assert feed[..i] == feed;
    } else {
      assert feed[..|feed| - 1][..i] == feed[..i];
      ContentPrefix(feed[..|feed| - 1], i);
    }
  }

  lemma OneMoreContent(feed: seq<Read>, n: nat)
    requires n < |feed|
    ensures Content(feed[..n + 1]) == Content(feed[..n]) + feed[n].text
  {
    assert feed[..n + 1][..n] == feed[..n];
  }

  /** A round that leaves the end of the data: its last read, and the text before it. */
  lemma LastReadOf(feed: seq<Read>, i: nat, text: string) returns (c: string, r: Read)
    requires Delivers(feed, text) && i <= |feed| && StartsWithEnd(LineAfter(Postgres, feed, i))
    ensures c + r.text == Content(feed[..RoundEnd(Postgres, feed, i)]) && c + r.text <= text && WellFormed(r)
    ensures StartsWithEnd(if r.Eof? then r.text else Split(c).1 + r.text)
  {
    var from := PrefixAfter(feed[..i]);
    assert feed[i..][0..] == feed[i..];
    RoundLeaves(feed, i, from, 0, from);
    var j := RoundEnd(Postgres, feed, i);
    r, c := feed[j - 1], Content(feed[..j - 1]);
    PrefixOfText(feed[..j - 1]);
    OneMoreContent(feed, j - 1);
    ContentPrefix(feed, j);
  }

  lemma PrefixOfText(feed: seq<Read>)
    requires forall r <- feed :: WellFormed(r)
    ensures PrefixAfter(feed) == Split(Content(feed)).1
  {
    CountIsOfContent(Postgres, _ => false, feed);
    PrefixIsTaken(Postgres, _ => false, feed);
  }

  /** Without inner markers, a round that leaves the end of the data has read every row. */
  lemma MarkerMeansRowsRead(rows: seq<string>, feed: seq<Read>, i: nat, text: string)
    requires Delivers(feed, text) && Join(rows) <= text && i <= |feed|
    requires forall row <- rows :: IsRow(row) && !InnerMarker(row)
    requires StartsWithEnd(LineAfter(Postgres, feed, i))
    ensures |Content(feed[..RoundEnd(Postgres, feed, i)])| >= |Join(rows)|
  {
    var c, r := LastReadOf(feed, i, text);
    MarkerIsBeyondRows(rows, c, r, text);
  }

  lemma MarkerIsBeyondRows(rows: seq<string>, c: string, r: Read, text: string)
    requires Join(rows) <= text && c + r.text <= text && WellFormed(r)
    requires forall row <- rows :: IsRow(row) && !InnerMarker(row)
    requires StartsWithEnd(if r.Eof? then r.text else Split(c).1 + r.text)
    ensures |c + r.text| >= |Join(rows)|
  {
    if |c + r.text| < |Join(rows)| {
      assert c + r.text == text[..|c + r.text|] == Join(rows)[..|c + r.text|];
      NextPartIsInRow(rows, c, r);
      assert rows[|Split(c).0|] in rows;
      MarkerInPart(Split(c).1, r, rows[|Split(c).0|]);
    }
  }

  lemma MarkerInPart(p: string, r: Read, row: string)
    requires p + r.text <= row && StartsWithEnd(if r.Eof? then r.text else p + r.text)
    ensures StartsWithEnd(row) || InnerMarker(row)
  {
    if r.Eof? {
      assert row[|p|..|p| + 2] == (p + r.text)[|p|..|p| + 2] == r.text[..2];
      assert MarkerAt(row, |p|);
    }
  }

  /** A run takes at least as many reads as hold all the rows, when no row has an inner marker. */
  lemma {:induction false} AllRowsRead(rows: seq<string>, feed: seq<Read>, i: nat, text: string)
    requires Delivers(feed, text) && Join(rows) <= text && i <= |feed|
    requires forall row <- rows :: IsRow(row) && !InnerMarker(row)
    ensures |Content(feed[..PgStop(feed, i)])| >= |Join(rows)|
    decreases |feed| - i
  {
    if i == |feed| {
      assert feed[..i] == feed;
    } else {
      var next := RoundEnd(Postgres, feed, i);
      if StartsWithEnd(LineAfter(Postgres, feed, i)) {
        MarkerMeansRowsRead(rows, feed, i, text);
        var stop := RoundEnd(Postgres, feed, next);
        assert feed[..stop][..next] == feed[..next];
        ContentPrefix(feed[..stop], next);
      } else {
        AllRowsRead(rows, feed, next, text);
      }
    }
  }

  /** The end-of-data line and blank lines add nothing. */
  lemma {:induction false} TailAddsNothing(startsCopy: string -> bool, rows: seq<string>, tail: seq<string>)
    requires forall line <- tail :: IsTailLine(line)
    ensures Tally(Postgres, startsCopy, rows + tail).0 == Tally(Postgres, startsCopy, rows).0
  {
    if tail == [] {
      assert rows + tail == rows;
    } else {
      var most := tail[..|tail| - 1];
      assert rows + tail == (rows + most) + [tail[|tail| - 1]];
      assert tail == most + [tail[|tail| - 1]] && IsTailLine(tail[|tail| - 1]);
      TailAddsNothing(startsCopy, rows, most);
      TallyMore(Postgres, startsCopy, rows + most, tail[|tail| - 1]);
    }
  }

  /** The text of a data file. */
  function FileText(rows: seq<string>, blanks: nat): string { Join(rows + Tail(blanks)) }

  lemma TailLinesAreLines(tail: seq<string>)
    requires forall line <- tail :: IsTailLine(line)
    ensures forall line <- tail :: IsLine(line)
  {
  }

  lemma CountedRight(startsCopy: string -> bool, rows: seq<string>, blanks: nat, feed: seq<Read>)
    requires forall row <- rows :: IsRow(row) && !InnerMarker(row)
    requires Delivers(feed, FileText(rows, blanks))
    ensures PgCount(startsCopy, feed) == Tally(Postgres, startsCopy, rows).0
  {
    var stop := PgStop(feed, 0);
    var c := Content(feed[..stop]);
    JoinAppend(rows, Tail(blanks));
    AllRowsRead(rows, feed, 0, FileText(rows, blanks));
    ContentPrefix(feed, stop);
    assert forall r <- feed[..stop] :: WellFormed(r);
    CountIsOfContent(Postgres, startsCopy, feed[..stop]);
    TailLinesAreLines(Tail(blanks));
    LinesRead(rows, Tail(blanks), c);
    TailAddsNothing(startsCopy, rows, Split(c).0[|rows|..]);
  }

  lemma LinesRead(rows: seq<string>, tail: seq<string>, c: string)
    requires forall row <- rows :: IsLine(row)
    requires forall line <- tail :: IsLine(line) && IsTailLine(line)
    requires c <= Join(rows + tail) && |c| >= |Join(rows)|
    ensures var lines := Split(c).0;
            && |lines| >= |rows| && lines == rows + lines[|rows|..]
            && forall line <- lines[|rows|..] :: IsTailLine(line)
  {
    JoinAppend(rows, tail);
    assert Join(rows) <= c by {
      assert Join(rows) == Join(rows + tail)[..|Join(rows)|] == c[..|Join(rows)|];
    }
    SplitPrefix(Join(rows), c);
    SplitJoin(rows);
    SplitPrefix(c, Join(rows + tail));
    SplitJoin(rows + tail);
    PartOfTail(rows, tail, Split(c).0);
  }

  lemma PartOfTail(rows: seq<string>, tail: seq<string>, lines: seq<string>)
    requires rows <= lines <= rows + tail && forall line <- tail :: IsTailLine(line)
    ensures lines == rows + lines[|rows|..] && forall line <- lines[|rows|..] :: IsTailLine(line)
  {
    assert lines[|rows|..] == tail[..|lines| - |rows|];
  }

  // ---------- a delivery that loses rows ----------

  function AsReads(lines: seq<string>): (r: seq<Read>)
    ensures |r| == |lines| && forall i :: 0 <= i < |r| ==> r[i] == Line(lines[i])
  {
    seq(|lines|, i requires 0 <= i < |lines| => Line(lines[i]))
  }

  lemma {:induction false} ContentOfLines(lines: seq<string>)
    ensures Content(AsReads(lines)) == Join(lines)
  {
    if lines != [] {
      assert AsReads(lines)[..|lines| - 1] == AsReads(lines[..|lines| - 1]);
      ContentOfLines(lines[..|lines| - 1]);
    }
  }

  lemma {:induction false} ContentAppend(a: seq<Read>, b: seq<Read>)
    ensures Content(a + b) == Content(a) + Content(b)
  {
    if b == [] {
      assert a + b == a;
    } else {
      assert (a + b)[..|a + b| - 1] == a + b[..|b| - 1];
      ContentAppend(a, b[..|b| - 1]);
    }
  }

  /** The reads that catch a row twice in the middle, the second time just before its inner marker. */
  function Unlucky(before: seq<string>, a: string, b: string, after: seq<string>): seq<Read> {
    Caught(AsReads(before), a, b) + ([Line("\n")] + AsReads(after))
  }

  function Caught(before: seq<Read>, a: string, b: string): seq<Read> {
    before + [Eof(a)] + [Eof(b)] + [Eof("")]
  }

  lemma {:induction false} RoundThroughLines(lines: seq<string>, a: string, more: seq<Read>)
    requires forall line <- lines :: !StartsWithEnd(line)
    ensures Taken(Postgres, "", AsReads(lines) + [Eof(a)] + more) == |lines| + 1
    ensures LineLeft(Postgres, "", AsReads(lines) + [Eof(a)] + more) == a
  {
    var feed := AsReads(lines) + [Eof(a)] + more;
    if lines != [] {
      assert feed[1..] == AsReads(lines[1..]) + [Eof(a)] + more;
      assert "" + lines[0] == lines[0] && lines[0] in lines;
      RoundThroughLines(lines[1..], a, more);
    }
  }

  lemma UnluckyStops(before: seq<string>, a: string, b: string, after: seq<string>)
    requires (forall line <- before :: !StartsWithEnd(line)) && !StartsWithEnd(a) && StartsWithEnd(b)
    ensures PgStop(Unlucky(before, a, b, after), 0) == |before| + 3
  {
    var feed := Unlucky(before, a, b, after);
    var more := [Eof(b), Eof(""), Line("\n")] + AsReads(after);
    assert feed == AsReads(before) + [Eof(a)] + more;
    RoundThroughLines(before, a, more);
    var n := |before|;
    assert feed[..0] == [] && feed[0..] == feed;
    assert RoundEnd(Postgres, feed, 0) == n + 1 && LineAfter(Postgres, feed, 0) == a;
    assert feed[n + 1..][0] == Eof(b) && feed[n + 2..][0] == Eof("");
    assert RoundEnd(Postgres, feed, n + 1) == n + 2 && LineAfter(Postgres, feed, n + 1) == b;
    assert RoundEnd(Postgres, feed, n + 2) == n + 3;
  }

  lemma UnluckyDelivers(before: seq<string>, a: string, b: string, after: seq<string>)
    requires (forall line <- before + after :: IsLine(line)) && IsLine(a + b + "\n") && '\n' !in a + b
    ensures Delivers(Unlucky(before, a, b, after), Join(before + ([a + b + "\n"] + after)))
  {
    var middle := [Eof(a), Eof(b), Eof(""), Line("\n")];
    var feed := Unlucky(before, a, b, after);
    assert feed == AsReads(before) + middle + AsReads(after);
    ContentAppend(AsReads(before) + middle, AsReads(after));
    ContentAppend(AsReads(before), middle);
    ContentOfLines(before);
    ContentOfLines(after);
    ContentOfMiddle(a, b);
    JoinAround(before, a + b + "\n", after);
    Associates(Join(before), a + b + "\n", Join(after));
    UnluckyIsWellFormed(before, a, b, after);
  }

  lemma UnluckyIsWellFormed(before: seq<string>, a: string, b: string, after: seq<string>)
    requires (forall line <- before + after :: IsLine(line)) && '\n' !in a + b
    ensures forall i :: 0 <= i < |Unlucky(before, a, b, after)| ==> WellFormed(Unlucky(before, a, b, after)[i])
  {
    var feed := Unlucky(before, a, b, after);
    assert '\n' !in a && '\n' !in b by {
      assert forall k :: 0 <= k < |a| ==> a[k] == (a + b)[k];
      assert forall k :: 0 <= k < |b| ==> b[k] == (a + b)[|a| + k];
    }
    forall i | 0 <= i < |feed|
      ensures WellFormed(feed[i])
    {
      if i < |before| {
        assert before[i] in before + after;
      } else if i >= |before| + 4 {
        assert after[i - |before| - 4] in before + after;
      }
    }
  }

  lemma ContentOfMiddle(a: string, b: string)
    ensures Content([Eof(a), Eof(b), Eof(""), Line("\n")]) == a + b + "\n"
  {
    var one: seq<Read>, two: seq<Read>, three: seq<Read>, four: seq<Read> := [Eof(a)], [Eof(b)], [Eof("")],
          [Line("\n")];
    assert [Eof(a), Eof(b), Eof(""), Line("\n")] == one + two + three + four;
    ContentAppend(one + two + three, four);
    ContentAppend(one + two, three);
    ContentAppend(one, two);
    ContentOne(Eof(a));
    ContentOne(Eof(b));
    ContentOne(Eof(""));
    ContentOne(Line("\n"));
    assert (a + b) + "" == a + b;
  }

  lemma ContentOne(r: Read)
    ensures Content([r]) == r.text
  {
    assert [r][..0] == [] && "" + r.text == r.text;
  }

  // ---------- the condition ----------

  lemma {:induction false} TallyGrows(startsCopy: string -> bool, rows: seq<string>, m: nat)
    requires m <= |rows|
    ensures Tally(Postgres, startsCopy, rows[..m]).0 <= Tally(Postgres, startsCopy, rows).0
    decreases |rows|
  {
    if m == |rows| {
      assert rows[..m] == rows;
    } else {
      assert rows[..|rows| - 1][..m] == rows[..m];
      TallyGrows(startsCopy, rows[..|rows| - 1], m);
    }
  }

  lemma UnluckyMisses(startsCopy: string -> bool, before: seq<string>, a: string, b: string, after: seq<string>)
    requires forall line <- before :: IsRow(line)
    requires forall line <- after :: IsLine(line)
    requires IsLine(a + b + "\n") && '\n' !in a + b && !StartsWithEnd(a) && StartsWithEnd(b)
    ensures Delivers(Unlucky(before, a, b, after), Join(before + ([a + b + "\n"] + after)))
    ensures PgCount(startsCopy, Unlucky(before, a, b, after)) == Tally(Postgres, startsCopy, before).0
  {
    UnluckyDelivers(before, a, b, after);
    UnluckyStops(before, a, b, after);
    UnluckyCount(startsCopy, before, a, b, after);
  }

  lemma MissedRow(startsCopy: string -> bool, rows: seq<string>, blanks: nat, m: nat, p: nat) returns (feed: seq<Read>)
    requires (forall row <- rows :: IsRow(row)) && m < |rows| && 0 < p && MarkerAt(rows[m], p)
    ensures Delivers(feed, FileText(rows, blanks))
    ensures PgCount(startsCopy, feed) < Tally(Postgres, startsCopy, rows).0
  {
    var row := rows[m];
    assert row in rows;
    CutBeforeMarker(row, p);
    var before, a, b, after := rows[..m], row[..p], row[p..|row| - 1], rows[m + 1..] + Tail(blanks);
    AroundRow(rows, m, Tail(blanks));
    UnluckyMisses(startsCopy, before, a, b, after);
    feed := Unlucky(before, a, b, after);
    RowIsCounted(startsCopy, rows, m);
  }

  lemma AroundRow(rows: seq<string>, m: nat, tail: seq<string>)
    requires m < |rows| && (forall row <- rows :: IsRow(row)) && forall line <- tail :: IsTailLine(line)
    ensures rows[..m] + ([rows[m]] + (rows[m + 1..] + tail)) == rows + tail
    ensures forall line <- rows[..m] :: IsRow(line)
    ensures forall line <- rows[m + 1..] + tail :: IsLine(line)
  {
    TailLinesAreLines(tail);
    assert forall line <- rows[..m] :: line in rows;
    assert forall line <- rows[m + 1..] + tail :: line in rows || line in tail;
  }

  lemma RowIsCounted(startsCopy: string -> bool, rows: seq<string>, m: nat)
    requires m < |rows| && IsRow(rows[m]) && rows[m] != "\n"
    ensures Tally(Postgres, startsCopy, rows[..m]).0 < Tally(Postgres, startsCopy, rows).0
  {
    assert rows[..m + 1] == rows[..m] + [rows[m]];
    TallyMore(Postgres, startsCopy, rows[..m], rows[m]);
    TallyGrows(startsCopy, rows, m + 1);
  }

  lemma CutBeforeMarker(row: string, p: nat)
    requires IsRow(row) && 0 < p && MarkerAt(row, p)
    ensures p + 2 < |row|
    ensures var a, b := row[..p], row[p..|row| - 1];
            && row == a + b + "\n" && '\n' !in a + b
            && !StartsWithEnd(a) && StartsWithEnd(b)
  {
    assert row[p + 1] == '.' && row[|row| - 1] == '\n';
    var a, b := row[..p], row[p..|row| - 1];
    assert a + b == row[..|row| - 1];
    assert row == row[..|row| - 1] + "\n";
    assert b[..2] == row[p..p + 2];
    assert a <= row;
  }

  lemma UnluckyCount(startsCopy: string -> bool, before: seq<string>, a: string, b: string, after: seq<string>)
    requires forall line <- before :: IsLine(line)
    ensures TakeAll(Postgres, startsCopy, Unlucky(before, a, b, after)[..|before| + 3]).count
            == Tally(Postgres, startsCopy, before).0
  {
    var lines := AsReads(before);
    Front(Caught(lines, a, b), [Line("\n")] + AsReads(after));
    TakeEof(startsCopy, lines + [Eof(a)] + [Eof(b)], "");
    TakeEof(startsCopy, lines + [Eof(a)], b);
    TakeEof(startsCopy, lines, a);
    LinesCount(startsCopy, before);
  }

  lemma TakeEof(startsCopy: string -> bool, feed: seq<Read>, text: string)
    ensures TakeAll(Postgres, startsCopy, feed + [Eof(text)]).count == TakeAll(Postgres, startsCopy, feed).count
  {
    TakeOneMore(Postgres, startsCopy, feed, Eof(text));
  }

  lemma LinesCount(startsCopy: string -> bool, lines: seq<string>)
    requires forall line <- lines :: IsLine(line)
    ensures TakeAll(Postgres, startsCopy, AsReads(lines)).count == Tally(Postgres, startsCopy, lines).0
  {
    var feed := AsReads(lines);
    forall i | 0 <= i < |feed|
      ensures WellFormed(feed[i])
    {
      assert lines[i] in lines && IsLine(lines[i]);
    }
    CountIsOfContent(Postgres, startsCopy, feed);
    ContentOfLines(lines);
    SplitJoin(lines);
  }

  /**
   The count is that of the data lines of the file, however it is delivered, if and only if no row
   has the end marker inside it. (An escaped backslash before a full stop puts one there.)
   */
  lemma DeliveryIsIrrelevantIffNoInnerMarker(startsCopy: string -> bool, rows: seq<string>, blanks: nat)
    requires forall row <- rows :: IsRow(row)
    ensures (forall feed :: Delivers(feed, FileText(rows, blanks)) ==>
               PgCount(startsCopy, feed) == Tally(Postgres, startsCopy, rows).0)
            <==> forall row <- rows :: !InnerMarker(row)
  {
    if row :| row in rows && InnerMarker(row) {
      var m :| 0 <= m < |rows| && rows[m] == row;
      var p: nat :| 0 < p && MarkerAt(row, p);
      var feed := MissedRow(startsCopy, rows, blanks, m, p);
    } else {
      forall feed | Delivers(feed, FileText(rows, blanks))
        ensures PgCount(startsCopy, feed) == Tally(Postgres, startsCopy, rows).0
      {
        CountedRight(startsCopy, rows, blanks, feed);
      }
    }
  }

  lemma RowIsDataIff(startsCopy: string -> bool, row: string)
    requires IsRow(row)
    ensures IsDataLine(Postgres, startsCopy, row, false).0 <==> row != "\n"
  {
    assert END_OF_COPY <= END_OF_COPY + "\n";
  }

  lemma {:induction false} NeverInside(startsCopy: string -> bool, rows: seq<string>)
    ensures !Tally(Postgres, startsCopy, rows).1
  {
    if rows != [] {
      NeverInside(startsCopy, rows[..|rows| - 1]);
    }
  }

  /** The count of a list of rows is right unless one of them is blank. */
  lemma {:induction false} BlankRowsAreDropped(startsCopy: string -> bool, rows: seq<string>)
    requires forall row <- rows :: IsRow(row)
    ensures Tally(Postgres, startsCopy, rows).0 <= |rows|
    ensures Tally(Postgres, startsCopy, rows).0 == |rows| <==> "\n" !in rows
  {
    if rows != [] {
      var most, last := rows[..|rows| - 1], rows[|rows| - 1];
      assert rows == most + [last];
      assert forall row :: row in rows <==> row in most || row == last;
      RowIsDataIff(startsCopy, last);
      NeverInside(startsCopy, most);
      BlankRowsAreDropped(startsCopy, most);
      TallyMore(Postgres, startsCopy, most, last);
    }
  }

  /** A file that is read whole, line by line. */
  lemma WholeDelivery(lines: seq<string>)
    requires forall line <- lines :: IsLine(line)
    ensures Delivers(AsReads(lines), Join(lines))
  {
    ContentOfLines(lines);
    forall i | 0 <= i < |AsReads(lines)|
      ensures WellFormed(AsReads(lines)[i])
    {
      assert IsLine(lines[i]);
    }
  }

  /**
   Each row of a PostgreSQL data file is counted, once, in every possible delivery if and only if no row
   has the end marker inside it and no row is blank. (An escaped backslash before a full stop puts a
   marker inside a row; a table of one text column writes an empty string as a blank row.)
   */
  lemma CountedRightIff(startsCopy: string -> bool, rows: seq<string>, blanks: nat)
    requires forall row <- rows :: IsRow(row)
    ensures (forall feed :: Delivers(feed, FileText(rows, blanks)) ==> PgCount(startsCopy, feed) == |rows|)
            <==> "\n" !in rows && forall row <- rows :: !InnerMarker(row)
  {
    BlankRowsAreDropped(startsCopy, rows);
    DeliveryIsIrrelevantIffNoInnerMarker(startsCopy, rows, blanks);
    TailLinesAreLines(Tail(blanks));
    WholeDelivery(rows + Tail(blanks));
    assert Delivers(AsReads(rows + Tail(blanks)), FileText(rows, blanks));
    if row :| row in rows && InnerMarker(row) {
      var m :| 0 <= m < |rows| && rows[m] == row;
      var p: nat :| 0 < p && MarkerAt(row, p);
      var feed := MissedRow(startsCopy, rows, blanks, m, p);
    }
  }

  /** The smallest file that is never counted right: one blank row. */
  lemma BlankRowIsNeverCounted(startsCopy: string -> bool, blanks: nat, feed: seq<Read>)
    requires Delivers(feed, FileText(["\n"], blanks))
    ensures IsRow("\n") && PgCount(startsCopy, feed) == 0
  {
    CountedRight(startsCopy, ["\n"], blanks, feed);
    TallyMore(Postgres, startsCopy, [], "\n");
    assert [] + ["\n"] == ["\n"];
  }

  // ---------- Oracle and MySQL: exactly which files ----------

  /** Some lines that are ignored, and a COPY statement: its header, its rows and its end. */
  datatype Copy = Copy(before: seq<string>, header: string, rows: seq<string>)

  function WithCopy(lines: seq<string>, c: Copy): seq<string> {
    (((lines + c.before) + [c.header]) + c.rows) + [END_OF_COPY + "\n"]
  }

  function AllLines(copies: seq<Copy>): seq<string> {
    if copies == [] then [] else WithCopy(AllLines(copies[..|copies| - 1]), copies[|copies| - 1])
  }

  function AllRows(copies: seq<Copy>): nat {
    if copies == [] then 0 else AllRows(copies[..|copies| - 1]) + |copies[|copies| - 1].rows|
  }

  predicate Ignored(startsCopy: string -> bool, line: string) { IsLine(line) && !startsCopy(line) }

  predicate CopyOk(startsCopy: string -> bool, c: Copy) {
    && (forall line <- c.before :: Ignored(startsCopy, line))
    && IsLine(c.header) && startsCopy(c.header)
    && forall row <- c.rows :: IsLine(row) && row != END_OF_COPY + "\n"
  }

  function NonBlank(rows: seq<string>): nat {
    if rows == [] then 0 else NonBlank(rows[..|rows| - 1]) + if rows[|rows| - 1] == "\n" then 0 else 1
  }

  function AllNonBlank(copies: seq<Copy>): nat {
    if copies == [] then 0 else AllNonBlank(copies[..|copies| - 1]) + NonBlank(copies[|copies| - 1].rows)
  }

  lemma {:induction false} NonBlankIff(rows: seq<string>)
    ensures NonBlank(rows) <= |rows| && (NonBlank(rows) == |rows| <==> "\n" !in rows)
  {
    if rows != [] {
      NonBlankIff(rows[..|rows| - 1]);
      assert rows == rows[..|rows| - 1] + [rows[|rows| - 1]];
    }
  }

  lemma {:induction false} AllNonBlankIff(copies: seq<Copy>)
    ensures AllNonBlank(copies) <= AllRows(copies)
    ensures AllNonBlank(copies) == AllRows(copies) <==> forall i :: 0 <= i < |copies| ==> "\n" !in copies[i].rows
  {
    if copies != [] {
      var most, last := copies[..|copies| - 1], copies[|copies| - 1];
      AllNonBlankIff(most);
      NonBlankIff(last.rows);
      assert forall i :: 0 <= i < |most| ==> most[i] == copies[i];
    }
  }

  lemma {:induction false} IgnoredLines(db: DbType, startsCopy: string -> bool, lines: seq<string>, more: seq<string>)
    requires db != Postgres && (forall line <- more :: Ignored(startsCopy, line)) && !Tally(db, startsCopy, lines).1
    ensures Tally(db, startsCopy, lines + more) == Tally(db, startsCopy, lines)
  {
    if more == [] {
      assert lines + more == lines;
    } else {
      var most, last := more[..|more| - 1], more[|more| - 1];
      assert more == most + [last] && Ignored(startsCopy, last);
      IgnoredLines(db, startsCopy, lines, most);
      assert lines + more == (lines + most) + [last];
      TallyMore(db, startsCopy, lines + most, last);
    }
  }

  lemma CopiedRow(db: DbType, startsCopy: string -> bool, row: string)
    requires db != Postgres && IsLine(row) && row != END_OF_COPY + "\n"
    ensures IsDataLine(db, startsCopy, row, true) == (row != "\n", true)
  {
  }

  lemma {:induction false} CopiedRows(db: DbType, startsCopy: string -> bool, lines: seq<string>, rows: seq<string>)
    requires db != Postgres && Tally(db, startsCopy, lines).1
    requires forall row <- rows :: IsLine(row) && row != END_OF_COPY + "\n"
    ensures Tally(db, startsCopy, lines + rows) == (Tally(db, startsCopy, lines).0 + NonBlank(rows), true)
  {
    if rows == [] {
      assert lines + rows == lines;
    } else {
      var most, last := rows[..|rows| - 1], rows[|rows| - 1];
      assert rows == most + [last];
      CopiedRow(db, startsCopy, last);
      CopiedRows(db, startsCopy, lines, most);
      assert lines + rows == (lines + most) + [last];
      TallyMore(db, startsCopy, lines + most, last);
    }
  }

  lemma HeaderAndEnd(db: DbType, startsCopy: string -> bool, header: string)
    requires db != Postgres && startsCopy(header)
    ensures IsDataLine(db, startsCopy, header, false) == (false, true)
    ensures IsDataLine(db, startsCopy, END_OF_COPY + "\n", true) == (false, false)
  {
  }

  lemma OneCopy(db: DbType, startsCopy: string -> bool, lines: seq<string>, c: Copy)
    requires db != Postgres && CopyOk(startsCopy, c) && !Tally(db, startsCopy, lines).1
    ensures Tally(db, startsCopy, WithCopy(lines, c)) == (Tally(db, startsCopy, lines).0 + NonBlank(c.rows), false)
  {
    HeaderAndEnd(db, startsCopy, c.header);
    IgnoredLines(db, startsCopy, lines, c.before);
    TallyMore(db, startsCopy, lines + c.before, c.header);
    CopiedRows(db, startsCopy, (lines + c.before) + [c.header], c.rows);
    TallyMore(db, startsCopy, ((lines + c.before) + [c.header]) + c.rows, END_OF_COPY + "\n");
  }

  lemma LastCopy(copies: seq<Copy>)
    requires copies != []
    ensures var most, last := copies[..|copies| - 1], copies[|copies| - 1];
            && AllLines(copies) == WithCopy(AllLines(most), last)
            && AllNonBlank(copies) == AllNonBlank(most) + NonBlank(last.rows)
  {
  }

  lemma TallyOfEqual(db: DbType, startsCopy: string -> bool, a: seq<string>, b: seq<string>, n: nat)
    requires a == b && Tally(db, startsCopy, a) == (n, false)
    ensures Tally(db, startsCopy, b) == (n, false)
  {
  }

  lemma {:induction false} CopiesTally(db: DbType, startsCopy: string -> bool, copies: seq<Copy>)
    requires db != Postgres && forall i :: 0 <= i < |copies| ==> CopyOk(startsCopy, copies[i])
    ensures Tally(db, startsCopy, AllLines(copies)) == (AllNonBlank(copies), false)
  {
    if copies != [] {
      var most, last := copies[..|copies| - 1], copies[|copies| - 1];
      assert forall i :: 0 <= i < |most| ==> most[i] == copies[i];
      CopiesTally(db, startsCopy, most);
      OneCopy(db, startsCopy, AllLines(most), last);
      LastCopy(copies);
      TallyOfEqual(db, startsCopy, WithCopy(AllLines(most), last), AllLines(copies), AllNonBlank(copies));
    }
  }

  lemma {:induction false} AllLinesAreLines(startsCopy: string -> bool, copies: seq<Copy>)
    requires forall i :: 0 <= i < |copies| ==> CopyOk(startsCopy, copies[i])
    ensures forall line <- AllLines(copies) :: IsLine(line)
  {
    if copies != [] {
      var most, last := copies[..|copies| - 1], copies[|copies| - 1];
      assert forall i :: 0 <= i < |most| ==> most[i] == copies[i];
      AllLinesAreLines(startsCopy, most);
      assert forall line <- WithCopy(AllLines(most), last) ::
          || line in AllLines(most) || line in last.before
          || line == last.header || line in last.rows || line == END_OF_COPY + "\n";
    }
  }

  /** The rows counted when the file is seen renamed after some rounds. */
  function OtherCount(db: DbType, startsCopy: string -> bool, feed: seq<Read>, renamedAfter: nat): nat {
    TakeAll(db, startsCopy, feed[..RoundsStop(db, feed, 0, renamedAfter + 1)]).count
  }

  /** All of the file is delivered before the last round ends. */
  ghost predicate DeliversInTime(feed: seq<Read>, renamedAfter: nat, text: string) {
    Delivers(feed, text) && (feed == [] || Ends(feed[..|feed| - 1]) <= renamedAfter)
  }

  lemma OneDelivery(db: DbType, startsCopy: string -> bool, copies: seq<Copy>, after: seq<string>,
                    feed: seq<Read>, renamedAfter: nat)
    requires db != Postgres && forall i :: 0 <= i < |copies| ==> CopyOk(startsCopy, copies[i])
    requires forall line <- after :: Ignored(startsCopy, line)
    requires DeliversInTime(feed, renamedAfter, Join(AllLines(copies) + after))
    ensures OtherCount(db, startsCopy, feed, renamedAfter) == AllNonBlank(copies)
  {
    var lines := AllLines(copies) + after;
    CopiesTally(db, startsCopy, copies);
    IgnoredLines(db, startsCopy, AllLines(copies), after);
    AllLinesAreLines(startsCopy, copies);
    SplitJoin(lines);
    CountIgnoresChunks(db, startsCopy, feed, renamedAfter, Join(lines));
  }

  /**
   Each row of the COPY statements of an Oracle or MySQL data file is counted, once, however it is
   delivered, if and only if no row is blank.
   */
  lemma CopiedRightIff(db: DbType, startsCopy: string -> bool, copies: seq<Copy>, after: seq<string>)
    requires db != Postgres && forall i :: 0 <= i < |copies| ==> CopyOk(startsCopy, copies[i])
    requires forall line <- after :: Ignored(startsCopy, line)
    ensures (forall feed, renamedAfter: nat :: DeliversInTime(feed, renamedAfter, Join(AllLines(copies) + after)) ==>
               OtherCount(db, startsCopy, feed, renamedAfter) == AllRows(copies))
            <==> forall i :: 0 <= i < |copies| ==> "\n" !in copies[i].rows
  {
    var lines := AllLines(copies) + after;
    AllLinesAreLines(startsCopy, copies);
    AllNonBlankIff(copies);
    forall feed, renamedAfter: nat | DeliversInTime(feed, renamedAfter, Join(lines))
      ensures OtherCount(db, startsCopy, feed, renamedAfter) == AllNonBlank(copies)
    {
      OneDelivery(db, startsCopy, copies, after, feed, renamedAfter);
    }
    WholeDelivery(lines);
    NoEnds(AsReads(lines));
    assert DeliversInTime(AsReads(lines), 0, Join(lines));
  }

  lemma {:induction false} NoEnds(feed: seq<Read>)
    requires forall i :: 0 <= i < |feed| ==> feed[i].Line?
    ensures feed == [] || Ends(feed[..|feed| - 1]) == 0
    decreases |feed|
  {
    if |feed| > 1 {
      assert feed[1..][..|feed| - 2] == feed[..|feed| - 1][1..];
      NoEnds(feed[1..]);
    }
  }

  /** The smallest such file: one COPY statement with one blank row. */
  lemma BlankRowIsNeverCopied(db: DbType, startsCopy: string -> bool, header: string, feed: seq<Read>,
                              renamedAfter: nat)
    requires db != Postgres && IsLine(header) && startsCopy(header)
    requires DeliversInTime(feed, renamedAfter, Join([header, "\n", END_OF_COPY + "\n"]))
    ensures CopyOk(startsCopy, Copy([], header, ["\n"])) && OtherCount(db, startsCopy, feed, renamedAfter) == 0
  {
    var c := Copy([], header, ["\n"]);
    var lines := [header, "\n", END_OF_COPY + "\n"];
    assert WithCopy([], c) == lines;
    OneCopy(db, startsCopy, [], c);
    SplitJoin(lines);
    CountIgnoresChunks(db, startsCopy, feed, renamedAfter, Join(lines));
  }
}
