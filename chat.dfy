/** Rendering query results as chat text, cutting long text into messages and
    labelling the messages (data_sender_bot.py, class BotDataSender). */
module Chat {
  import opened Common

  /** The default limit of split_long_message. */
  const MaxMessageLength: nat := 4000
  /** Values whose text is longer than this are cut to this length. */
  const MaxValueLength: nat := 50
  const NoData: string := "Нет данных для отображения"

  // ---------------------------------------------------------------------
  // Text primitives: Python's str.isspace, str.lstrip and str.rfind
  // ---------------------------------------------------------------------

  /** The characters Python's str.isspace accepts. */
  predicate IsSpace(c: char) {
    var n := c as int;
    (9 <= n <= 13) || (28 <= n <= 32) || n == 0x85 || n == 0xA0 || n == 0x1680
    || (0x2000 <= n <= 0x200A) || n == 0x2028 || n == 0x2029 || n == 0x202F
    || n == 0x205F || n == 0x3000
  }

  predicate AllSpace(s: string) {
    forall i :: 0 <= i < |s| ==> IsSpace(s[i])
  }

  /** str.lstrip(): drops the leading whitespace and keeps the rest. */
  function LStrip(s: string): (r: string)
    ensures |r| <= |s| && r == s[|s| - |r|..]
    ensures AllSpace(s[..|s| - |r|])
    ensures r != [] ==> !IsSpace(r[0])
    decreases |s|
  {
    if s != [] && IsSpace(s[0]) then LStrip(s[1..]) else s
  }

  ghost predicate Occurs(s: string, pat: string, i: int) {
    0 <= i && i + |pat| <= |s| && s[i..i + |pat|] == pat
  }

  /** `i` is the last start of `pat` that lies wholly within s[..end]. */
  ghost predicate LastOccurrence(s: string, pat: string, end: nat, i: int) {
    && 0 <= i && i + |pat| <= end && Occurs(s, pat, i)
    && forall j :: i < j && j + |pat| <= end ==> !Occurs(s, pat, j)
  }

  ghost predicate NoOccurrence(s: string, pat: string, end: nat) {
    forall j :: 0 <= j && j + |pat| <= end ==> !Occurs(s, pat, j)
  }

  /** s.rfind(pat, 0, end): the last start of `pat` within s[..end], or -1. */
  function RFind(s: string, pat: string, end: nat): (r: int)
    requires end <= |s|
    ensures r == -1 || LastOccurrence(s, pat, end, r)
    ensures r == -1 <==> NoOccurrence(s, pat, end)
    decreases end
  {
    if end < |pat| then -1
    else if s[end - |pat|..end] == pat then end - |pat|
    else RFind(s, pat, end - 1)
  }

  // ---------------------------------------------------------------------
  // split_long_message
  // ---------------------------------------------------------------------

  /** Where a text longer than the limit is cut: at the last blank line
      within the limit, else at the last line break within it, else at the
      limit itself. */
  function CutPoint(text: string, maxLength: nat): (k: nat)
    requires 1 <= maxLength < |text|
    ensures k <= maxLength
    ensures !NoOccurrence(text, "\n\n", maxLength) ==> LastOccurrence(text, "\n\n", maxLength, k)
    ensures NoOccurrence(text, "\n\n", maxLength) && !NoOccurrence(text, "\n", maxLength) ==>
      LastOccurrence(text, "\n", maxLength, k)
    ensures NoOccurrence(text, "\n\n", maxLength) && NoOccurrence(text, "\n", maxLength) ==> k == maxLength
  {
    var pair := RFind(text, "\n\n", maxLength);
    var pos := if pair == -1 then RFind(text, "\n", maxLength) else pair;
    if pos == -1 then maxLength else pos
  }

  /** Each cut removes at least one character: a cut at 0 is at a line break,
      which lstrip removes. */
  lemma CutShrinks(text: string, maxLength: nat)
    requires 1 <= maxLength < |text|
    ensures |LStrip(text[CutPoint(text, maxLength)..])| < |text|
  {
    var k := CutPoint(text, maxLength);
    if k == 0 {
      if NoOccurrence(text, "\n\n", maxLength) {
        assert Occurs(text, "\n", 0);
        assert text[0..1][0] == text[0];
      } else {
        assert Occurs(text, "\n\n", 0);
        assert text[0..2][0] == text[0];
      }
    }
  }

  /** One pass of the loop on a text longer than the limit: the part sent,
      the whitespace lstrip drops after it, and the text left. */
  datatype Step = Step(part: string, gap: string, rest: string)

  function Cut(text: string, maxLength: nat): (c: Step)
    requires 1 <= maxLength < |text|
    ensures c.part == text[..CutPoint(text, maxLength)]
    ensures c.rest == LStrip(text[CutPoint(text, maxLength)..])
    ensures c.part + c.gap + c.rest == text
    ensures AllSpace(c.gap) && |c.rest| < |text|
  {
    var k := CutPoint(text, maxLength);
    var tail := text[k..];
    var rest := LStrip(tail);
    CutShrinks(text, maxLength);
    SplitAt(tail, |tail| - |rest|);
    SplitAt(text, k);
    Associative(text[..k], tail[..|tail| - |rest|], rest);
    Step(text[..k], tail[..|tail| - |rest|], rest)
  }

  lemma SplitAt(s: string, k: nat)
    requires k <= |s|
    ensures s[..k] + s[k..] == s
  {
  }

  lemma Associative(a: string, b: string, c: string)
    ensures a + b + c == a + (b + c)
  {
  }

  /** The parts the `while text` loop produces. */
  function Chunks(text: string, maxLength: nat): seq<string>
    requires maxLength >= 1
    decreases |text|
  {
    if text == [] then []
    else if |text| <= maxLength then [text]
    else [Cut(text, maxLength).part] + Chunks(Cut(text, maxLength).rest, maxLength)
  }

  /** The whitespace each cut drops: the blank line or line break at the cut
      and the indentation that follows, one entry per part. */
  function Dropped(text: string, maxLength: nat): seq<string>
    requires maxLength >= 1
    decreases |text|
  {
    if text == [] then []
    else if |text| <= maxLength then [""]
    else [Cut(text, maxLength).gap] + Dropped(Cut(text, maxLength).rest, maxLength)
  }

  /** split_long_message as a function of its inputs. */
  function Split(text: string, maxLength: nat): seq<string>
    requires maxLength >= 1
  {
    if |text| <= maxLength then [text] else Chunks(text, maxLength)
  }

  function SplitGaps(text: string, maxLength: nat): seq<string>
    requires maxLength >= 1
  {
    if |text| <= maxLength then [""] else Dropped(text, maxLength)
  }

  /** part0 + gap0 + part1 + gap1 + ... */
  function Glue(parts: seq<string>, gaps: seq<string>): string
    requires |parts| == |gaps|
  {
    if parts == [] then [] else parts[0] + gaps[0] + Glue(parts[1..], gaps[1..])
  }

  lemma {:induction false} ChunksBounded(text: string, maxLength: nat)
    requires maxLength >= 1
    ensures forall p :: p in Chunks(text, maxLength) ==> |p| <= maxLength
    decreases |text|
  {
    if |text| > maxLength {
      ChunksBounded(Cut(text, maxLength).rest, maxLength);
    }
  }

  lemma {:induction false} ChunksReassemble(text: string, maxLength: nat)
    requires maxLength >= 1
    ensures |Dropped(text, maxLength)| == |Chunks(text, maxLength)|
    ensures forall g :: g in Dropped(text, maxLength) ==> AllSpace(g)
    ensures Glue(Chunks(text, maxLength), Dropped(text, maxLength)) == text
    decreases |text|
  {
    if text == [] {
    } else if |text| <= maxLength {
      assert Glue([text], [""]) == text + "" + Glue([], []);
    } else {
      var c := Cut(text, maxLength);
      ChunksReassemble(c.rest, maxLength);
      var parts := Chunks(text, maxLength);
      var gaps := Dropped(text, maxLength);
      assert parts[0] == c.part && parts[1..] == Chunks(c.rest, maxLength);
      assert gaps[0] == c.gap && gaps[1..] == Dropped(c.rest, maxLength);
      Associative(c.part, c.gap, c.rest);
    }
  }

  /** What split_long_message promises: a text within the limit comes back
      as the only part; otherwise the text is cut into at least one part,
      every part is within the limit, and the parts with the dropped
      whitespace between and after them spell out the original text. */
  lemma SplitProperties(text: string, maxLength: nat)
    requires maxLength >= 1
    ensures |text| <= maxLength ==> Split(text, maxLength) == [text]
    ensures |Split(text, maxLength)| >= 1
    ensures forall p :: p in Split(text, maxLength) ==> |p| <= maxLength
    ensures |SplitGaps(text, maxLength)| == |Split(text, maxLength)|
    ensures forall g :: g in SplitGaps(text, maxLength) ==> AllSpace(g)
    ensures Glue(Split(text, maxLength), SplitGaps(text, maxLength)) == text
  {
    if |text| <= maxLength {
      assert Glue([text], [""]) == text + "" + Glue([], []);
    } else {
      ChunksBounded(text, maxLength);
      ChunksReassemble(text, maxLength);
    }
  }

  /** split_long_message: the loop, proved against Split. The choice of the
      cut (lines 102-106) is CutPoint. */
  method SplitLongMessage(text: string, maxLength: nat) returns (parts: seq<string>)
    requires maxLength >= 1
    ensures parts == Split(text, maxLength)
    ensures |text| <= maxLength ==> parts == [text]
    ensures forall p :: p in parts ==> |p| <= maxLength
  {
    if |text| <= maxLength {
      SplitProperties(text, maxLength);
      return [text];
    }
    parts := [];
    var rest := text;
    while rest != []
      invariant parts + Chunks(rest, maxLength) == Chunks(text, maxLength)
      decreases |rest|
    {
      if |rest| <= maxLength {
        parts := parts + [rest];
        break;
      }
      var splitPos := CutPoint(rest, maxLength);
      ChunksStep(rest, maxLength);
      SeqAssociative(parts, [rest[..splitPos]], Chunks(LStrip(rest[splitPos..]), maxLength));
      parts := parts + [rest[..splitPos]];
      rest := LStrip(rest[splitPos..]);
    }
    SplitProperties(text, maxLength);
  }

  /** One pass of the loop on a text over the limit: the part up to the cut,
      then the parts of what lstrip leaves. */
  lemma ChunksStep(rest: string, maxLength: nat)
    requires 1 <= maxLength < |rest|
    ensures var k := CutPoint(rest, maxLength);
      Chunks(rest, maxLength) == [rest[..k]] + Chunks(LStrip(rest[k..]), maxLength)
  {
    var c := Cut(rest, maxLength);
  }

  lemma SeqAssociative(a: seq<string>, b: seq<string>, c: seq<string>)
    ensures a + b + c == a + (b + c)
  {
  }

  // ---------------------------------------------------------------------
  // The part labels of send_to_telegram
  // ---------------------------------------------------------------------

  /** The prefix of part i (from 0) of n. */
  function Label(i: nat, n: nat): (r: string)
    ensures exists a, b :: && AllDigits(a) && AllDigits(b)
                           && DigitsValue(a) == i + 1 && DigitsValue(b) == n
                           && r == "Часть " + (a + "/" + b) + "\n\n"
  {
    ReadShow(i + 1);
    ReadShow(n);
    "Часть " + (NatToString(i + 1) + "/" + NatToString(n)) + "\n\n"
  }

  /** The text posted for part i: labelled when there is more than one part. */
  function Outgoing(parts: seq<string>, i: nat): (r: string)
    requires i < |parts|
    ensures |parts[i]| <= |r| && r[|r| - |parts[i]|..] == parts[i]
    ensures |r| == |parts[i]| <==> |parts| == 1
  {
    if |parts| > 1 then Label(i, |parts|) + parts[i] else parts[i]
  }

  /** The first of posts 0 .. n - 1 that raises (a negative status), or n
      when none does. */
  function RaiseAt(status: nat -> int, n: nat): (k: nat)
    ensures k <= n
    ensures forall i :: 0 <= i < k ==> status(i) >= 0
    ensures k < n ==> status(k) < 0
  {
    if n == 0 then 0
    else
      var k := RaiseAt(status, n - 1);
      if k < n - 1 then k else if status(n - 1) < 0 then n - 1 else n
  }

  /** Once a post has raised, later posts do not move the first raise. */
  lemma {:induction false} RaiseStops(status: nat -> int, i: nat, n: nat)
    requires i < n && RaiseAt(status, i) == i && status(i) < 0
    ensures RaiseAt(status, n) == i
    decreases n
  {
    if n > i + 1 {
      RaiseStops(status, i, n - 1);
    }
  }

  /** The number of posts made: up to and including the first that raises. */
  function Posted(status: nat -> int, n: nat): nat {
    var k := RaiseAt(status, n);
    if k < n then k + 1 else n
  }

  /** send_to_telegram: the message is split with the default limit, each
      part is prefixed with its label when there is more than one, and the
      send succeeds when every post is answered with status 200. The HTTP
      post is the parameter `status`: the status code of post i, negative
      when the request raises, which ends the loop and the call with False.
      `sent` lists the texts posted. */
  method SendToTelegram(message: string, status: nat -> int) returns (sent: seq<string>, success: bool)
    ensures var parts := Split(message, MaxMessageLength);
      && |sent| == Posted(status, |parts|)
      && (forall i :: 0 <= i < |sent| ==> sent[i] == Outgoing(parts, i))
      && (success <==> forall i :: 0 <= i < |parts| ==> status(i) == 200)
  {
    var messageParts := SplitLongMessage(message, MaxMessageLength);
    sent, success := SendParts(messageParts, status);
  }

  /** The texts of the first k posts. */
  function Posts(parts: seq<string>, k: nat): (r: seq<string>)
    requires k <= |parts|
    ensures |r| == k && forall i :: 0 <= i < k ==> r[i] == Outgoing(parts, i)
  {
    seq(k, i requires 0 <= i < k => Outgoing(parts, i))
  }

  lemma PostsStep(parts: seq<string>, k: nat)
    requires k < |parts|
    ensures Posts(parts, k + 1) == Posts(parts, k) + [Outgoing(parts, k)]
  {
  }

  /** The sending loop of send_to_telegram over the parts already cut. */
  method SendParts(messageParts: seq<string>, status: nat -> int) returns (sent: seq<string>, success: bool)
    ensures |sent| == Posted(status, |messageParts|)
    ensures forall i :: 0 <= i < |sent| ==> sent[i] == Outgoing(messageParts, i)
    ensures success <==> forall i :: 0 <= i < |messageParts| ==> status(i) == 200
  {
    success := true;
    sent := [];
    var i := 0;
    while i < |messageParts|
      invariant 0 <= i <= |messageParts|
      invariant forall j :: 0 <= j < i ==> status(j) >= 0
      invariant sent == Posts(messageParts, i)
      invariant success <==> forall j :: 0 <= j < i ==> status(j) == 200
    {
      var part := messageParts[i];
      if |messageParts| > 1 {
        part := Label(i, |messageParts|) + part;
      }
      assert part == Outgoing(messageParts, i);
      PostsStep(messageParts, i);
      sent := sent + [part];
      var code := status(i);
      if code < 0 {
        NoRaiseBefore(status, i);
        RaiseStops(status, i, |messageParts|);
        return sent, false;
      }
      if code != 200 {
        success := false;
      }
      i := i + 1;
    }
    NoRaiseBefore(status, i);
  }

  lemma {:induction false} NoRaiseBefore(status: nat -> int, n: nat)
    requires forall j :: 0 <= j < n ==> status(j) >= 0
    ensures RaiseAt(status, n) == n
  {
    if n > 0 {
      NoRaiseBefore(status, n - 1);
    }
  }

  /** A message that fits in one part is posted as it is, without a label. */
  lemma ShortMessageUnlabelled(message: string, status: nat -> int)
    requires |message| <= MaxMessageLength
    ensures Posted(status, |Split(message, MaxMessageLength)|) == 1
    ensures Outgoing(Split(message, MaxMessageLength), 0) == message
  {
    SplitProperties(message, MaxMessageLength);
  }

  /** Two digit strings joined by a slash give both back: a digit is never
      a slash, so the slash is at the same place in both. */
  lemma SlashSplit(a: string, b: string, a': string, b': string)
    requires AllDigits(a) && AllDigits(a')
    requires a + "/" + b == a' + "/" + b'
    ensures a == a' && b == b'
  {
    var m := a + "/" + b;
    assert m[|a|] == '/' && m[|a'|] == '/';
    assert forall k :: 0 <= k < |a'| ==> m[k] == a'[k];
    assert forall k :: 0 <= k < |a| ==> m[k] == a[k];
    assert |a| == |a'|;
    assert a == m[..|a|] && a' == m[..|a'|];
    assert b == m[|a| + 1..] && b' == m[|a'| + 1..];
  }

  /** Different labels for different parts: the label gives back both the
      part number and the count. */
  lemma LabelInjective(i: nat, n: nat, i': nat, n': nat)
    requires Label(i, n) == Label(i', n')
    ensures i == i' && n == n'
  {
    var pre, post := "Часть ", "\n\n";
    var l := Label(i, n);
    var a, b :| && AllDigits(a) && AllDigits(b) && DigitsValue(a) == i + 1 && DigitsValue(b) == n
                && l == pre + (a + "/" + b) + post;
    var a', b' :| && AllDigits(a') && AllDigits(b') && DigitsValue(a') == i' + 1 && DigitsValue(b') == n'
                  && l == pre + (a' + "/" + b') + post;
    var m, m' := a + "/" + b, a' + "/" + b';
    assert |m| == |l| - |pre| - |post| == |m'|;
    assert m == l[|pre|..|pre| + |m|];
    assert m' == l[|pre|..|pre| + |m'|];
    SlashSplit(a, b, a', b');
  }


  // ---------------------------------------------------------------------
  // format_data_for_telegram
  // ---------------------------------------------------------------------

  /** One column of a result row: its name, the text `str()` gives for its
      value, and whether the value is truthy. */
  datatype Field = Field(key: string, shown: string, truthy: bool)
  type Record = seq<Field>

  /** A truthy value whose text exceeds 50 characters is shown as its first
      47 characters and "...". */
  function ShownValue(f: Field): (v: string)
    ensures f.truthy ==> |v| <= MaxValueLength
    ensures |f.shown| <= MaxValueLength || !f.truthy ==> v == f.shown
    ensures v != f.shown ==> |v| == MaxValueLength && v[..47] == f.shown[..47] && v[47..] == "..."
  {
    if f.truthy && |f.shown| > MaxValueLength then f.shown[..47] + "..." else f.shown
  }

  function FieldLine(f: Field): string {
    "   • " + f.key + ": " + ShownValue(f) + "\n"
  }

  /** The strings of `ss`, one after the other. */
  function Concat(ss: seq<string>): string {
    if ss == [] then [] else Concat(ss[..|ss| - 1]) + ss[|ss| - 1]
  }

  lemma {:induction false} ConcatAppend(a: seq<string>, b: seq<string>)
    ensures Concat(a + b) == Concat(a) + Concat(b)
    decreases |b|
  {
    if b == [] {
      assert a + b == a;
    } else {
      var b0 := b[..|b| - 1];
      ConcatAppend(a, b0);
      assert (a + b)[..|a + b| - 1] == a + b0;
      Associative(Concat(a), Concat(b0), b[|b| - 1]);
    }
  }

  function FieldLines(fs: Record): string {
    Concat(seq(|fs|, i requires 0 <= i < |fs| => FieldLine(fs[i])))
  }

  function RecordHeading(n: nat): string {
    "Запись #" + NatToString(n) + ":\n"
  }

  /** Record number n, its field lines and an empty line. */
  function RecordBlock(n: nat, r: Record): string {
    RecordHeading(n) + FieldLines(r) + "\n"
  }

  /** The blocks of `rs`, numbered from `first`. */
  function Blocks(rs: seq<Record>, first: nat): (bs: seq<string>)
    ensures |bs| == |rs| && forall i :: 0 <= i < |rs| ==> bs[i] == RecordBlock(first + i, rs[i])
  {
    seq(|rs|, i requires 0 <= i < |rs| => RecordBlock(first + i, rs[i]))
  }

  function Header(total: nat, exportedAt: string): string {
    "Найдено записей: " + NatToString(total) + "\n" + "Время выгрузки: " + exportedAt + "\n\n"
  }

  function Footer(total: nat, maxRecords: nat): (s: string)
    ensures s != [] <==> total > maxRecords
    ensures total > maxRecords ==>
      exists a :: AllDigits(a) && DigitsValue(a) == total - maxRecords && s == "... и еще " + a + " записей\n"
  {
    if total > maxRecords then
      var k := total - maxRecords;
      ReadShow(k);
      "... и еще " + NatToString(k) + " записей\n"
    else []
  }

  function Min(a: nat, b: nat): nat {
    if a < b then a else b
  }

  /** format_data_for_telegram as a function of the data, the record limit
      and the export time stamp. */
  function Formatted(data: seq<Record>, maxRecords: nat, exportedAt: string): string {
    if data == [] then NoData
    else Header(|data|, exportedAt) + Concat(Blocks(data[..Min(maxRecords, |data|)], 1)) + Footer(|data|, maxRecords)
  }

  /** Record i of the shown ones is rendered as block number i + 1, between
      the blocks before it and the blocks after it. */
  lemma RecordNumbering(rs: seq<Record>, i: nat)
    requires i < |rs|
    ensures Concat(Blocks(rs, 1)) ==
      Concat(Blocks(rs[..i], 1)) + RecordBlock(i + 1, rs[i]) + Concat(Blocks(rs[i + 1..], i + 2))
  {
    var bs := Blocks(rs, 1);
    assert bs == Blocks(rs[..i], 1) + [RecordBlock(i + 1, rs[i])] + Blocks(rs[i + 1..], i + 2);
    ConcatAppend(Blocks(rs[..i], 1) + [RecordBlock(i + 1, rs[i])], Blocks(rs[i + 1..], i + 2));
    ConcatAppend(Blocks(rs[..i], 1), [RecordBlock(i + 1, rs[i])]);
    assert Concat([RecordBlock(i + 1, rs[i])]) == Concat([]) + RecordBlock(i + 1, rs[i]);
  }

  /** Only the first `maxRecords` records and the total count reach the text. */
  lemma OnlyShownRecordsMatter(d1: seq<Record>, d2: seq<Record>, maxRecords: nat, exportedAt: string)
    requires |d1| == |d2| && d1[..Min(maxRecords, |d1|)] == d2[..Min(maxRecords, |d2|)]
    ensures Formatted(d1, maxRecords, exportedAt) == Formatted(d2, maxRecords, exportedAt)
  {
  }

  /** format_data_for_telegram: the nested loops, proved against Formatted. */
  method FormatDataForTelegram(data: seq<Record>, maxRecords: nat, exportedAt: string) returns (text: string)
    ensures text == Formatted(data, maxRecords, exportedAt)
    ensures data == [] <==> text == NoData
  {
    if data == [] {
      return NoData;
    }
    var displayData := data[..Min(maxRecords, |data|)];
    text := Header(|data|, exportedAt);
    var i := 0;
    while i < |displayData|
      invariant 0 <= i <= |displayData|
      invariant text == Header(|data|, exportedAt) + Concat(Blocks(displayData[..i], 1))
    {
      ghost var before := text;
      text := AppendRecord(text, i + 1, displayData[i]);
      BlocksStep(displayData, i);
      Associative(Header(|data|, exportedAt), Concat(Blocks(displayData[..i], 1)), RecordBlock(i + 1, displayData[i]));
      i := i + 1;
    }
    assert displayData[..i] == displayData;
    text := text + Footer(|data|, maxRecords);
    assert |Header(|data|, exportedAt)| > |NoData|;
  }

  lemma BlocksStep(rs: seq<Record>, i: nat)
    requires i < |rs|
    ensures Concat(Blocks(rs[..i + 1], 1)) == Concat(Blocks(rs[..i], 1)) + RecordBlock(i + 1, rs[i])
  {
    assert Blocks(rs[..i + 1], 1) == Blocks(rs[..i], 1) + [RecordBlock(i + 1, rs[i])];
    ConcatAppend(Blocks(rs[..i], 1), [RecordBlock(i + 1, rs[i])]);
    assert Concat([RecordBlock(i + 1, rs[i])]) == Concat([]) + RecordBlock(i + 1, rs[i]);
  }

  /** The body of the record loop: the heading of record n, then one line
      per field, then an empty line. */
  method AppendRecord(text: string, n: nat, record: Record) returns (t: string)
    ensures t == text + RecordBlock(n, record)
  {
    t := text + RecordHeading(n);
    ghost var head := t;
    var j := 0;
    while j < |record|
      invariant 0 <= j <= |record|
      invariant t == head + FieldLines(record[..j])
    {
      FieldLinesStep(record, j);
      Associative(head, FieldLines(record[..j]), FieldLine(record[j]));
      t := t + FieldLine(record[j]);
      j := j + 1;
    }
    assert record[..j] == record;
    t := t + "\n";
    Associative(text, RecordHeading(n), FieldLines(record));
    Associative(text, RecordHeading(n) + FieldLines(record), "\n");
  }

  lemma FieldLinesStep(fs: Record, j: nat)
    requires j < |fs|
    ensures FieldLines(fs[..j + 1]) == FieldLines(fs[..j]) + FieldLine(fs[j])
  {
    var lines := seq(j, k requires 0 <= k < j => FieldLine(fs[k]));
    assert seq(j + 1, k requires 0 <= k < j + 1 => FieldLine(fs[..j + 1][k])) == lines + [FieldLine(fs[j])];
    assert seq(j, k requires 0 <= k < j => FieldLine(fs[..j][k])) == lines;
    ConcatAppend(lines, [FieldLine(fs[j])]);
    assert Concat([FieldLine(fs[j])]) == Concat([]) + FieldLine(fs[j]);
  }
}
