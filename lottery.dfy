/** The scraper of the 4x20 draw archive (lottery_parser.py): reading the
    draw number out of its cell, picking the balls out of their cell,
    which table rows yield a draw, and inserting a draw only when its
    number is not in the table yet. The browser gives the rows as lists of
    cell texts; the database is a map from draw number to draw. */
module LotteryParser {
  import opened Common

  // ---------------------------------------------------------------------
  // parse_draw_number
  // ---------------------------------------------------------------------

  /** re.sub(r'\D', '', s): the digits of s, in order. */
  function KeepDigits(s: string): (r: string)
    ensures AllDigits(r) && |r| <= |s|
  {
    if s == [] then [] else (if IsDigit(s[0]) then [s[0]] else []) + KeepDigits(s[1..])
  }

  /** The draw number in a cell: its digits read as a decimal number, or 0
      when there are none. The number is 0 exactly when every digit in the
      cell is '0' (this includes a cell with no digits at all). */
  function ParseDrawNumber(drawStr: string): (n: nat)
    ensures n == 0 <==> DigitsAllZero(drawStr)
  {
    var cleanDraw := KeepDigits(drawStr);
    KeepDigitsZeros(drawStr);
    DigitsValueZero(cleanDraw);
    if cleanDraw == [] then 0 else DigitsValue(cleanDraw)
  }

  lemma {:induction false} KeepDigitsAppend(a: string, b: string)
    ensures KeepDigits(a + b) == KeepDigits(a) + KeepDigits(b)
    decreases |a|
  {
    if a != [] {
      assert (a + b)[1..] == a[1..] + b;
      KeepDigitsAppend(a[1..], b);
    } else {
      assert a + b == b;
    }
  }

  lemma {:induction false} KeepDigitsOfDigits(s: string)
    requires AllDigits(s)
    ensures KeepDigits(s) == s
    decreases |s|
  {
    if s != [] {
      KeepDigitsOfDigits(s[1..]);
    }
  }

  /** Anything that is not a digit may be put anywhere into the cell without
      changing the number read from it. */
  lemma NonDigitInsertion(a: string, c: char, b: string)
    requires !IsDigit(c)
    ensures ParseDrawNumber(a + [c] + b) == ParseDrawNumber(a + b)
  {
    KeepDigitsAppend(a + [c], b);
    KeepDigitsAppend(a, [c]);
    KeepDigitsAppend(a, b);
    assert KeepDigits([c]) == [] + KeepDigits([]);
    assert KeepDigits(a + [c]) == KeepDigits(a);
  }

  /** Reading a number written in decimal gives it back, and so does reading
      it with any non-digit text before it, such as a "№" sign. */
  lemma ParseShow(prefix: string, n: nat)
    requires forall i :: 0 <= i < |prefix| ==> !IsDigit(prefix[i])
    ensures ParseDrawNumber(prefix + NatToString(n)) == n
  {
    NoDigits(prefix);
    KeepDigitsAppend(prefix, NatToString(n));
    KeepDigitsOfDigits(NatToString(n));
    assert KeepDigits(prefix + NatToString(n)) == NatToString(n);
    ReadShow(n);
  }

  lemma {:induction false} NoDigits(s: string)
    requires forall i :: 0 <= i < |s| ==> !IsDigit(s[i])
    ensures KeepDigits(s) == []
    decreases |s|
  {
    if s != [] {
      NoDigits(s[1..]);
    }
  }

  predicate Zeros(s: string) {
    forall i :: 0 <= i < |s| ==> s[i] == '0'
  }

  /** Every digit of s is '0'. */
  predicate DigitsAllZero(s: string) {
    forall i :: 0 <= i < |s| && IsDigit(s[i]) ==> s[i] == '0'
  }

  lemma ZerosAppend(a: string, b: string)
    ensures Zeros(a + b) <==> Zeros(a) && Zeros(b)
  {
    assert forall i :: 0 <= i < |a| ==> a[i] == (a + b)[i];
    assert forall i :: 0 <= i < |b| ==> b[i] == (a + b)[|a| + i];
  }

  lemma DigitsAllZeroCons(s: string)
    requires s != []
    ensures DigitsAllZero(s) <==> (IsDigit(s[0]) ==> s[0] == '0') && DigitsAllZero(s[1..])
  {
    assert forall i :: 0 < i < |s| ==> s[i] == s[1..][i - 1];
  }

  lemma {:induction false} KeepDigitsZeros(s: string)
    ensures Zeros(KeepDigits(s)) <==> DigitsAllZero(s)
    decreases |s|
  {
    if s != [] {
      KeepDigitsZeros(s[1..]);
      ZerosAppend(if IsDigit(s[0]) then [s[0]] else [], KeepDigits(s[1..]));
      DigitsAllZeroCons(s);
    }
  }

  // ---------------------------------------------------------------------
  // The ball cell: cells[2].text.split('\n') and str.isdigit
  // ---------------------------------------------------------------------

  /** s.split('\n'): the pieces between line breaks, empty ones included. */
  function SplitLines(s: string): (r: seq<string>)
    ensures |r| >= 1
    ensures forall p :: p in r ==> '\n' !in p
    decreases |s|
  {
    if s == [] then [[]]
    else
      var rest := SplitLines(s[1..]);
      if s[0] == '\n' then [[]] + rest else [[s[0]] + rest[0]] + rest[1..]
  }

  /** '\n'.join(ts). */
  function JoinLines(ts: seq<string>): string
    requires |ts| >= 1
  {
    if |ts| == 1 then ts[0] else ts[0] + "\n" + JoinLines(ts[1..])
  }

  /** Joining the pieces back with line breaks gives the text again. */
  lemma {:induction false} JoinSplit(s: string)
    ensures JoinLines(SplitLines(s)) == s
    decreases |s|
  {
    if s != [] {
      var rest := SplitLines(s[1..]);
      JoinSplit(s[1..]);
      if s[0] == '\n' {
        assert JoinLines([[]] + rest) == [] + "\n" + JoinLines(rest);
      } else {
        var r := [[s[0]] + rest[0]] + rest[1..];
        if |rest| == 1 {
          assert JoinLines(r) == [s[0]] + rest[0];
        } else {
          assert r[1..] == rest[1..];
          assert JoinLines(r) == [s[0]] + rest[0] + "\n" + JoinLines(rest[1..]);
          assert JoinLines(rest) == rest[0] + "\n" + JoinLines(rest[1..]);
        }
      }
    }
  }

  lemma {:induction false} SplitLinesNoBreak(t: string, u: string)
    requires '\n' !in t
    ensures SplitLines(t + "\n" + u) == [t] + SplitLines(u)
    ensures SplitLines(t) == [t]
    decreases |t|
  {
    if t == [] {
      assert t + "\n" + u == "\n" + u;
      assert ("\n" + u)[1..] == u;
    } else {
      SplitLinesNoBreak(t[1..], u);
      assert (t + "\n" + u)[1..] == t[1..] + "\n" + u;
      assert [t[0]] + t[1..] == t;
    }
  }

  /** Splitting pieces that hold no line break, once joined, gives them back. */
  lemma {:induction false} SplitJoin(ts: seq<string>)
    requires |ts| >= 1 && forall t :: t in ts ==> '\n' !in t
    ensures SplitLines(JoinLines(ts)) == ts
    decreases |ts|
  {
    if |ts| == 1 {
      SplitLinesNoBreak(ts[0], "");
    } else {
      SplitJoin(ts[1..]);
      SplitLinesNoBreak(ts[0], JoinLines(ts[1..]));
    }
  }

  /** str.isdigit(): not empty, and digits only. */
  predicate IsDigitToken(t: string) {
    t != [] && AllDigits(t)
  }

  /** The digit tokens, in page order. */
  function DigitTokens(ts: seq<string>): (r: seq<string>)
    ensures |r| <= |ts|
    ensures forall i :: 0 <= i < |r| ==> IsDigitToken(r[i])
  {
    if ts == [] then [] else (if IsDigitToken(ts[0]) then [ts[0]] else []) + DigitTokens(ts[1..])
  }

  lemma {:induction false} DigitTokensOfTokens(ts: seq<string>)
    requires forall t :: t in ts ==> IsDigitToken(t)
    ensures DigitTokens(ts) == ts
    decreases |ts|
  {
    if ts != [] {
      DigitTokensOfTokens(ts[1..]);
    }
  }

  /** Filtering distributes over concatenation, so the kept tokens stay in
      page order. */
  lemma {:induction false} DigitTokensAppend(a: seq<string>, b: seq<string>)
    ensures DigitTokens(a + b) == DigitTokens(a) + DigitTokens(b)
    decreases |a|
  {
    if a != [] {
      assert (a + b)[1..] == a[1..] + b;
      DigitTokensAppend(a[1..], b);
    } else {
      assert a + b == b;
    }
  }

  /** Every digit token is kept: token i of the lines, when it is a digit
      token, is the kept token whose position is the number of digit
      tokens before it. */
  lemma DigitTokensKeepsEvery(ts: seq<string>, i: nat)
    requires i < |ts| && IsDigitToken(ts[i])
    ensures var j := |DigitTokens(ts[..i])|;
      j < |DigitTokens(ts)| && DigitTokens(ts)[j] == ts[i]
  {
    assert ts == ts[..i] + ([ts[i]] + ts[i + 1..]);
    DigitTokensAppend(ts[..i], [ts[i]] + ts[i + 1..]);
    assert ([ts[i]] + ts[i + 1..])[1..] == ts[i + 1..];
  }

  /** Lines that are not digit tokens, such as empty lines, are dropped. */
  lemma {:induction false} DigitTokensDropsOthers(ts: seq<string>)
    requires forall t :: t in ts ==> !IsDigitToken(t)
    ensures DigitTokens(ts) == []
    decreases |ts|
  {
    if ts != [] {
      DigitTokensDropsOthers(ts[1..]);
    }
  }

  /** The digit tokens of the ball cell of a row. */
  function BallTokens(cells: seq<string>): seq<string>
    requires |cells| >= 3
  {
    DigitTokens(SplitLines(cells[2]))
  }

  /** A row the loop turns into a draw record: at least four cells and at
      least eight digit tokens in the third. */
  predicate Candidate(cells: seq<string>) {
    |cells| >= 4 && |BallTokens(cells)| >= 8
  }

  /** The record of a candidate row: the number read from the second cell,
      the time parse_datetime reads from the first, and the first eight
      digit tokens of the third as balls 1 to 8. */
  function BuildDraw(cells: seq<string>, parseDate: string -> int): (d: Draw)
    requires Candidate(cells)
    ensures |d.balls| == 8
    ensures forall k :: 0 <= k < 8 ==> d.balls[k] == DigitsValue(BallTokens(cells)[k])
  {
    var numbers := BallTokens(cells);
    Draw(ParseDrawNumber(cells[1]), parseDate(cells[0]),
         seq(8, k requires 0 <= k < 8 => DigitsValue(numbers[k])))
  }

  /** For a ball cell made of any lines with at least eight digit tokens
      among them, the row is a candidate, its number is read from the
      second cell, its time from the first, and its ball tokens are the
      digit tokens of the lines, in page order. */
  lemma BallsFromLines(date: string, draw: string, lines: seq<string>, more: seq<string>,
                       parseDate: string -> int)
    requires |lines| >= 1 && (forall l :: l in lines ==> '\n' !in l) && |DigitTokens(lines)| >= 8
    requires |more| >= 1
    ensures var cells := [date, draw, JoinLines(lines)] + more;
      && Candidate(cells)
      && BallTokens(cells) == DigitTokens(lines)
      && BuildDraw(cells, parseDate).number == ParseDrawNumber(draw)
      && BuildDraw(cells, parseDate).time == parseDate(date)
  {
    SplitJoin(lines);
  }

  /** Lines that are not numbers before the balls, and any lines after the
      eighth ball (more numbers included), do not change the balls: they
      are the first eight numbers, in order. */
  lemma BallsSkipNoise(date: string, draw: string, noise: seq<string>, tokens: seq<string>, rest: seq<string>,
                       more: seq<string>, parseDate: string -> int)
    requires forall t :: t in noise ==> !IsDigitToken(t) && '\n' !in t
    requires |tokens| >= 8 && forall i :: 0 <= i < |tokens| ==> IsDigitToken(tokens[i])
    requires forall t :: t in rest ==> '\n' !in t
    requires |more| >= 1
    ensures var cells := [date, draw, JoinLines(noise + tokens + rest)] + more;
      && Candidate(cells)
      && (forall k :: 0 <= k < 8 ==> BallTokens(cells)[k] == tokens[k])
      && (forall k :: 0 <= k < 8 ==> BuildDraw(cells, parseDate).balls[k] == DigitsValue(tokens[k]))
  {
    var lines := noise + tokens + rest;
    assert forall t :: t in tokens ==> IsDigitToken(t);
    DigitTokensDropsOthers(noise);
    DigitTokensOfTokens(tokens);
    DigitTokensAppend(noise, tokens);
    DigitTokensAppend(noise + tokens, rest);
    var kept := DigitTokens(noise + tokens);
    assert kept == [] + tokens == tokens;
    assert DigitTokens(lines) == kept + DigitTokens(rest);
    assert forall t :: t in tokens ==> '\n' !in t by {
      forall t | t in tokens
        ensures '\n' !in t
      {
        assert AllDigits(t);
      }
    }
    assert forall t :: t in lines ==> '\n' !in t;
    BallsFromLines(date, draw, lines, more, parseDate);
    var cells := [date, draw, JoinLines(lines)] + more;
    var balls := BallTokens(cells);
    assert balls == tokens + DigitTokens(rest);
    assert forall k :: 0 <= k < 8 ==> balls[k] == tokens[k];
  }

  /** A ball cell with eight numbers, one per line, gives those eight balls
      in order. */
  lemma BallsRoundTrip(date: string, draw: string, balls: seq<nat>, more: seq<string>, parseDate: string -> int)
    requires |balls| == 8
    ensures var cells := [date, draw, JoinLines(seq(8, k requires 0 <= k < 8 => NatToString(balls[k])))] + more;
      |more| >= 1 ==> Candidate(cells) && BuildDraw(cells, parseDate).balls == balls
  {
    var ts := seq(8, k requires 0 <= k < 8 => NatToString(balls[k]));
    assert forall t :: t in ts ==> IsDigitToken(t);
    assert forall t :: t in ts ==> '\n' !in t by {
      forall t | t in ts
        ensures '\n' !in t
      {
        assert AllDigits(t);
      }
    }
    SplitJoin(ts);
    DigitTokensOfTokens(ts);
    forall k | 0 <= k < 8
      ensures DigitsValue(ts[k]) == balls[k]
    {
      ReadShow(balls[k]);
    }
  }

  // ---------------------------------------------------------------------
  // draw_exists and add_draw_to_db
  // ---------------------------------------------------------------------

  /** What goes wrong with the database on one call of add_draw_to_db: the
      lookup in draw_exists cannot connect or raises, the connection for the
      insert cannot be made, or the insert raises and is rolled back. */
  datatype DbFault = NoFault | LookupFails | ConnectFails | InsertFails

  /** The lottery_4x20 table, keyed by its unique draw number. */
  class DrawTable {
    var draws: map<int, Draw>

    constructor (initial: map<int, Draw>)
      ensures draws == initial
    {
      draws := initial;
    }

    /** draw_exists: a failed lookup answers "exists", so that nothing is
        inserted without a check. */
    method DrawExists(drawNumber: int, lookupFails: bool) returns (found: bool)
      ensures found <==> lookupFails || drawNumber in draws
    {
      if lookupFails {
        return true;
      }
      found := drawNumber in draws;
    }

    /** add_draw_to_db: inserts the draw when its number is absent and the
        database works; otherwise leaves the table as it was. */
    method AddDraw(drawData: Draw, fault: DbFault) returns (added: bool)
      modifies this
      ensures added <==> fault == NoFault && drawData.number !in old(draws)
      ensures draws == if added then old(draws)[drawData.number := drawData] else old(draws)
    {
      var present := DrawExists(drawData.number, fault == LookupFails);
      if present {
        return false;
      }
      if fault == ConnectFails || fault == InsertFails {
        return false;
      }
      draws := draws[drawData.number := drawData];
      added := true;
    }
  }

  // ---------------------------------------------------------------------
  // The row loop of parser
  // ---------------------------------------------------------------------

  /** The table and the two counters. */
  datatype Tally = Tally(draws: map<int, Draw>, added: nat, skipped: nat)

  /** One pass of the loop over row `cells`, with the database behaving as
      `fault` says. */
  function StepRow(t: Tally, cells: seq<string>, parseDate: string -> int, fault: DbFault): Tally {
    if !Candidate(cells) then t
    else
      var d := BuildDraw(cells, parseDate);
      if d.number == 0 then t.(skipped := t.skipped + 1)
      else if fault == NoFault && d.number !in t.draws then Tally(t.draws[d.number := d], t.added + 1, t.skipped)
      else t.(skipped := t.skipped + 1)
  }

  /** One row changes nothing unless it passes the cell and token filters;
      a row that does moves exactly one counter by one. A row whose number
      reads as 0 is skipped; any other row is added exactly when the
      database works and the number is absent, and then the table gains
      exactly its record. Draws already stored are kept, and draw number 0
      is never inserted. */
  lemma StepRowEffect(t: Tally, cells: seq<string>, parseDate: string -> int, fault: DbFault)
    ensures var r := StepRow(t, cells, parseDate, fault);
      && (!Candidate(cells) ==> r == t)
      && (Candidate(cells) ==> (r.added == t.added + 1 && r.skipped == t.skipped)
                               || (r.added == t.added && r.skipped == t.skipped + 1))
      && (Candidate(cells) && ParseDrawNumber(cells[1]) == 0 ==> r == t.(skipped := t.skipped + 1))
      && (Candidate(cells) && ParseDrawNumber(cells[1]) != 0 ==>
            (r.added == t.added + 1 <==> fault == NoFault && ParseDrawNumber(cells[1]) !in t.draws))
      && (r.added == t.added + 1 ==>
            Candidate(cells) && r.draws == t.draws[ParseDrawNumber(cells[1]) := BuildDraw(cells, parseDate)])
      && (r.added == t.added ==> r.draws == t.draws)
      && r.added + r.skipped == t.added + t.skipped + (if Candidate(cells) then 1 else 0)
      && (forall k :: k in t.draws ==> k in r.draws && r.draws[k] == t.draws[k])
      && |r.draws| == |t.draws| + r.added - t.added
      && (0 !in t.draws ==> 0 !in r.draws)
  {
  }

  /** The loop over rows 2 .. n - 1, from the tally `t0`; row i meets the
      database fault `faults(i)`. */
  function Ingest(t0: Tally, rows: seq<seq<string>>, parseDate: string -> int, faults: nat -> DbFault, n: nat): Tally
    requires n <= |rows|
  {
    if n <= 2 then t0 else StepRow(Ingest(t0, rows, parseDate, faults, n - 1), rows[n - 1], parseDate, faults(n - 1))
  }

  /** The number of candidate rows among rows 2 .. n - 1. */
  function CandidateCount(rows: seq<seq<string>>, n: nat): nat
    requires n <= |rows|
  {
    if n <= 2 then 0 else CandidateCount(rows, n - 1) + (if Candidate(rows[n - 1]) then 1 else 0)
  }

  /** parser, without the browser: nothing happens when the database is not
      reachable; otherwise each row from the third on is processed, and the
      counters say how many draws were added and how many candidate rows
      were skipped. */
  method Parser(table: DrawTable, rows: seq<seq<string>>, parseDate: string -> int, faults: nat -> DbFault,
                reachable: bool) returns (addedCount: nat, skippedCount: nat)
    modifies table
    ensures !reachable ==> addedCount == 0 && skippedCount == 0 && table.draws == old(table.draws)
    ensures reachable ==>
      var t := Ingest(Tally(old(table.draws), 0, 0), rows, parseDate, faults, |rows|);
      table.draws == t.draws && addedCount == t.added && skippedCount == t.skipped
  {
    addedCount, skippedCount := 0, 0;
    if !reachable {
      return;
    }
    ghost var t0 := Tally(table.draws, 0, 0);
    if |rows| <= 2 {
      return;
    }
    var i := 2;
    while i < |rows|
      invariant 2 <= i <= |rows|
      invariant Ingest(t0, rows, parseDate, faults, i) == Tally(table.draws, addedCount, skippedCount)
    {
      addedCount, skippedCount := ProcessRow(table, rows[i], parseDate, faults(i), addedCount, skippedCount);
      i := i + 1;
    }
  }

  /** One pass of the loop body: a row that passes the cell and token
      filters moves exactly one counter, and only an added draw changes the
      table. */
  method ProcessRow(table: DrawTable, cells: seq<string>, parseDate: string -> int, fault: DbFault,
                    addedCount: nat, skippedCount: nat) returns (added': nat, skipped': nat)
    modifies table
    ensures Tally(table.draws, added', skipped') ==
      StepRow(Tally(old(table.draws), addedCount, skippedCount), cells, parseDate, fault)
  {
    added', skipped' := addedCount, skippedCount;
    if |cells| >= 4 {
      var numbers := DigitTokens(SplitLines(cells[2]));
      if |numbers| >= 8 {
        var drawData := BuildDraw(cells, parseDate);
        if drawData.number == 0 {
          skipped' := skipped' + 1;
        } else {
          var added := table.AddDraw(drawData, fault);
          if added {
            added' := added' + 1;
          } else {
            skipped' := skipped' + 1;
          }
        }
      }
    }
  }

  /** Every candidate row moves exactly one counter and no other row moves
      either. */
  lemma {:induction false} CountsAddUp(t0: Tally, rows: seq<seq<string>>, parseDate: string -> int,
                                       faults: nat -> DbFault, n: nat)
    requires n <= |rows|
    ensures var t := Ingest(t0, rows, parseDate, faults, n);
      t.added + t.skipped == t0.added + t0.skipped + CandidateCount(rows, n)
  {
    if n > 2 {
      CountsAddUp(t0, rows, parseDate, faults, n - 1);
    }
  }

  /** Draws already in the table stay as they are; the table grows by one
      entry per added draw; no draw numbered 0 is ever inserted. */
  lemma {:induction false} OnlyInserts(t0: Tally, rows: seq<seq<string>>, parseDate: string -> int,
                                       faults: nat -> DbFault, n: nat)
    requires n <= |rows|
    ensures var t := Ingest(t0, rows, parseDate, faults, n);
      && (forall k :: k in t0.draws ==> k in t.draws && t.draws[k] == t0.draws[k])
      && |t.draws| == |t0.draws| + t.added - t0.added
      && (0 !in t0.draws ==> 0 !in t.draws)
  {
    if n > 2 {
      OnlyInserts(t0, rows, parseDate, faults, n - 1);
    }
  }

  /** Every draw the loop adds comes from a candidate row, under the number
      read from that row and with its first eight ball tokens. */
  lemma {:induction false} AddedDrawsComeFromRows(t0: Tally, rows: seq<seq<string>>, parseDate: string -> int,
                                                  faults: nat -> DbFault, n: nat, k: int)
    requires n <= |rows|
    requires k in Ingest(t0, rows, parseDate, faults, n).draws && k !in t0.draws
    ensures exists i :: (2 <= i < n && Candidate(rows[i])
      && Ingest(t0, rows, parseDate, faults, n).draws[k] == BuildDraw(rows[i], parseDate)
      && BuildDraw(rows[i], parseDate).number == k)
  {
    var prev := Ingest(t0, rows, parseDate, faults, n - 1);
    if k in prev.draws {
      AddedDrawsComeFromRows(t0, rows, parseDate, faults, n - 1, k);
      OnlyInserts(prev, rows, parseDate, faults, n);
      var i :| 2 <= i < n - 1 && Candidate(rows[i]) && prev.draws[k] == BuildDraw(rows[i], parseDate)
        && BuildDraw(rows[i], parseDate).number == k;
      assert Ingest(t0, rows, parseDate, faults, n).draws[k] == prev.draws[k];
    } else {
      assert Candidate(rows[n - 1]);
    }
  }

  /** The first two rows of the page (the table's headings) never matter. */
  lemma {:induction false} HeaderRowsIgnored(t0: Tally, rows: seq<seq<string>>, rows': seq<seq<string>>,
                                             parseDate: string -> int, faults: nat -> DbFault, n: nat)
    requires n <= |rows| == |rows'| && forall i :: 2 <= i < |rows| ==> rows[i] == rows'[i]
    ensures Ingest(t0, rows, parseDate, faults, n) == Ingest(t0, rows', parseDate, faults, n)
  {
    if n > 2 {
      HeaderRowsIgnored(t0, rows, rows', parseDate, faults, n - 1);
    }
  }
}
