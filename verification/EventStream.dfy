/**
 * Server-sent events, as the reader frames them: lines from a scanner fed in arbitrary reads,
 * and payloads from lines. Lines end at LF, CR or CRLF (section 9.2.5 of the WHATWG HTML
 * standard).
 */
module EventStream {
  import opened Text

  newtype byte = x: int | 0 <= x < 256

  const LF: byte := 10
  const CR: byte := 13

  type Bytes = seq<byte>

  // --- lines of a whole text -----------------------------------------------------------------

  /** Where the first line ends, or the length of the text. */
  function LineEnd(s: Bytes, from: nat := 0): (i: nat)
    requires from <= |s|
    ensures from <= i <= |s|
    ensures forall j :: from <= j < i ==> s[j] != LF && s[j] != CR
    ensures i < |s| ==> s[i] == LF || s[i] == CR
    decreases |s| - from
  {
    if from == |s| || s[from] == LF || s[from] == CR then from else LineEnd(s, from + 1)
  }

  /** What follows the line's terminator; CR and LF together are one. */
  function AfterLine(s: Bytes): (rest: Bytes)
    requires LineEnd(s) < |s|
    ensures |rest| < |s|
  {
    var i := LineEnd(s);
    if s[i] == CR && i + 1 < |s| && s[i + 1] == LF then s[i + 2..] else s[i + 1..]
  }

  /** The lines of a text, the last one with or without its terminator. */
  function LinesOf(s: Bytes): (lines: seq<Bytes>)
    ensures lines == [] <==> s == []
    decreases |s|
  {
    if s == [] then []
    else if LineEnd(s) == |s| then [s]
    else [s[..LineEnd(s)]] + LinesOf(AfterLine(s))
  }

  // --- the split function and its scanner ---------------------------------------------------------

  /** What one call of the split function answers, and whether an LF is to be skipped next. */
  datatype Cut = Cut(advance: nat, token: Option<Bytes>, skipLF: bool)

  function Split(skipLF: bool, data: Bytes, atEOF: bool): (c: Cut)
    ensures c.advance <= |data| && (c.token.Some? ==> c.advance > 0)
  {
    if skipLF && data != [] && data[0] == LF then Cut(1, None, false)
    else
      var skip := skipLF && data == [];
      var i := LineEnd(data);
      if i < |data| then
        if data[i] == LF then Cut(i + 1, Some(data[..i]), skip)
        else if i + 1 < |data| && data[i + 1] == LF then Cut(i + 2, Some(data[..i]), skip)
        else Cut(i + 1, Some(data[..i]), skip || i + 1 == |data|)
      else if atEOF && data != [] then Cut(|data|, Some(data), skip)
      else Cut(0, None, skip)
  }

  /** The scanner between two reads: the bytes it holds, and the split function's flag. */
  datatype Scanner = Scanner(lines: seq<Bytes>, skipLF: bool, held: Bytes)

  /**
   * The scanner asks for tokens until it is given none. It then keeps what was not consumed and
   * reads more; at the end of the input it keeps nothing and stops.
   */
  function Drain(skipLF: bool, held: Bytes, atEOF: bool): (s: Scanner)
    ensures s.skipLF ==> s.held == []
    decreases |held|
  {
    var c := Split(skipLF, held, atEOF);
    if c.token.None? then Scanner([], c.skipLF, held[c.advance..])
    else
      var more := Drain(c.skipLF, held[c.advance..], atEOF);
      more.(lines := [c.token.value] + more.lines)
  }

  /** The scanner after reads that did not end the input. */
  function Feed(chunks: seq<Bytes>): (s: Scanner)
    ensures s.skipLF ==> s.held == []
  {
    if chunks == [] then Scanner([], false, [])
    else
      var before := Feed(chunks[..|chunks| - 1]);
      var after := Drain(before.skipLF, before.held + chunks[|chunks| - 1], false);
      after.(lines := before.lines + after.lines)
  }

  /** All the lines, when the end of the input is reported on its own. */
  function Scan(chunks: seq<Bytes>): seq<Bytes> {
    var s := Feed(chunks);
    s.lines + Drain(s.skipLF, s.held, true).lines
  }

  /** All the lines, when the end of the input is reported with the last bytes, as a reader may. */
  function ScanWithEnd(chunks: seq<Bytes>, last: Bytes): seq<Bytes> {
    var s := Feed(chunks);
    s.lines + Drain(s.skipLF, s.held + last, true).lines
  }

  function Concat(chunks: seq<Bytes>): Bytes {
    if chunks == [] then [] else Concat(chunks[..|chunks| - 1]) + chunks[|chunks| - 1]
  }

  // --- framing does not depend on the reads --------------------------------------------------------

  /** What is still to be read as lines, past an LF that belongs to the CR before it. */
  function Rest(skipLF: bool, s: Bytes): Bytes {
    if skipLF && s != [] && s[0] == LF then s[1..] else s
  }

  lemma LineEndIs(s: Bytes, i: nat)
    requires i <= |s| && forall j :: 0 <= j < i ==> s[j] != LF && s[j] != CR
    requires i < |s| ==> s[i] == LF || s[i] == CR
    ensures LineEnd(s) == i
  {
  }

  lemma FirstLine(s: Bytes)
    ensures LineEnd(s) < |s| ==> LinesOf(s) == [s[..LineEnd(s)]] + LinesOf(AfterLine(s))
  {
    hide LineEnd, AfterLine;
  }

  /** One token taken from what is held is one line of all there will be. */
  lemma SplitOn(skipLF: bool, held: Bytes, more: Bytes)
    requires Split(skipLF, held, false).token.Some?
    ensures var c := Split(skipLF, held, false);
            LinesOf(Rest(skipLF, held + more))
            == [c.token.value] + LinesOf(Rest(c.skipLF, held[c.advance..] + more))
  {
    hide LinesOf;
    var s, i := held + more, LineEnd(held);
    LineEndIs(s, i);
    hide LineEnd;
    FirstLine(s);
    assert s[..i] == held[..i];
    var c := Split(skipLF, held, false);
    assert s[c.advance..] == held[c.advance..] + more;
    assert Rest(skipLF, s) == s;
    assert AfterLine(s) == Rest(c.skipLF, held[c.advance..] + more);
  }

  /** When no token can be taken, only an LF to be skipped goes. */
  lemma WaitOn(skipLF: bool, held: Bytes, more: Bytes)
    ensures Split(skipLF, held, false).token.None? ==>
              var c := Split(skipLF, held, false);
              Rest(skipLF, held + more) == Rest(c.skipLF, held[c.advance..] + more)
  {
    var c := Split(skipLF, held, false);
    var s := held + more;
    assert held != [] ==> s[0] == held[0];
    assert s[c.advance..] == held[c.advance..] + more;
  }

  lemma TakesOne(skipLF: bool, held: Bytes, atEOF: bool)
    ensures var c := Split(skipLF, held, atEOF);
            Drain(skipLF, held, atEOF) ==
            if c.token.None? then Scanner([], c.skipLF, held[c.advance..])
            else var more := Drain(c.skipLF, held[c.advance..], atEOF); more.(lines := [c.token.value] + more.lines)
  {
  }

  lemma {:induction false} DrainOn(skipLF: bool, held: Bytes, more: Bytes)
    ensures var d := Drain(skipLF, held, false);
            LinesOf(Rest(skipLF, held + more)) == d.lines + LinesOf(Rest(d.skipLF, d.held + more))
    decreases |held|
  {
    hide LinesOf, Rest, Split, Drain;
    var c := Split(skipLF, held, false);
    TakesOne(skipLF, held, false);
    if c.token.Some? {
      SplitOn(skipLF, held, more);
      DrainOn(c.skipLF, held[c.advance..], more);
    } else {
      WaitOn(skipLF, held, more);
    }
  }

  /** Lines already given, and the lines of what is left, are the lines of the whole. */
  lemma {:induction false} FeedOn(chunks: seq<Bytes>, more: Bytes)
    ensures var s := Feed(chunks);
            LinesOf(Concat(chunks) + more) == s.lines + LinesOf(Rest(s.skipLF, s.held + more))
  {
    hide Drain, LinesOf, Rest;
    if chunks != [] {
      var n := |chunks| - 1;
      var before, chunk := Feed(chunks[..n]), chunks[n];
      FeedOn(chunks[..n], chunk + more);
      DrainOn(before.skipLF, before.held + chunk, more);
      assert before.held + (chunk + more) == (before.held + chunk) + more;
      assert Concat(chunks[..n]) + (chunk + more) == Concat(chunks) + more;
    } else {
      NothingFed(more);
    }
  }

  lemma NothingFed(more: Bytes)
    ensures LinesOf(Concat([]) + more) == [] + LinesOf(Rest(false, [] + more))
  {
    assert Concat([]) + more == more == [] + more;
  }

  /** At the end of the input everything held is lines, unless an LF is still to be skipped. */
  lemma {:induction false} DrainToEnd(skipLF: bool, held: Bytes)
    ensures Drain(skipLF, held, true).lines ==
            if skipLF && held != [] && held[0] == LF then [] else LinesOf(held)
    decreases |held|
  {
    var c := Split(skipLF, held, true);
    if c.token.Some? {
      DrainToEnd(c.skipLF, held[c.advance..]);
      var i := LineEnd(held);
      if i == |held| {
        assert held[..i] == held && held[c.advance..] == [];
      } else {
        assert AfterLine(held) == held[c.advance..];
      }
    }
  }

  /** However the input was cut into reads, its lines are the lines of the whole. */
  lemma ReadsDoNotMatter(chunks: seq<Bytes>)
    ensures Scan(chunks) == LinesOf(Concat(chunks))
  {
    var s := Feed(chunks);
    FeedOn(chunks, []);
    assert Concat(chunks) + [] == Concat(chunks) && s.held + [] == s.held;
    DrainToEnd(s.skipLF, s.held);
  }

  /** The split function has given a line that ended in CR, at the end of all that was held. */
  predicate AwaitsLF(chunks: seq<Bytes>) {
    Feed(chunks).skipLF
  }

  /**
   * A reader that reports the end of the input together with the last bytes gets the same lines
   * exactly when those bytes are not an LF completing the CR before them with more behind it:
   * skipping the LF gives the scanner no token, and at the end of the input it then stops.
   */
  lemma EndWithLastRead(chunks: seq<Bytes>, last: Bytes)
    ensures ScanWithEnd(chunks, last) == LinesOf(Concat(chunks) + last)
            <==> !(AwaitsLF(chunks) && |last| > 1 && last[0] == LF)
  {
    var s := Feed(chunks);
    FeedOn(chunks, last);
    DrainToEnd(s.skipLF, s.held + last);
    var rest := LinesOf(Rest(s.skipLF, s.held + last));
    if s.skipLF {
      assert s.held + last == last;
      if last != [] && last[0] == LF {
        assert |s.lines + rest| == |s.lines| + |rest|;
      }
    }
  }

  /** The smallest input that loses a line: a CR, then an LF and a letter with the end of the input. */
  lemma ALineIsLost()
    ensures ScanWithEnd([[CR]], [LF, 97]) == [[]]
    ensures LinesOf([CR] + [LF, 97]) == [[], [97]]
  {
    var data: Bytes := [CR];
    LineEndIs(data, 0);
    assert [[CR]][..0] == [] && [] + data == data;
    assert Split(false, data, false) == Cut(1, Some([]), true);
    assert Drain(false, data, false) == Scanner([[]], true, []);
    assert Feed([[CR]]) == Scanner([[]], true, []);
    assert [] + [LF, 97] == [LF, 97];
    var whole: Bytes := [CR, LF, 97];
    LineEndIs(whole, 0);
    assert AfterLine(whole) == [97];
    LineEndIs([97], 1);
    assert [CR] + [LF, 97] == whole;
  }

  // --- payloads ----------------------------------------------------------------------------------

  const MAX_EVENT := 1048576

  const DATA: Bytes := [100, 97, 116, 97]
  const BOM: Bytes := [239, 187, 191]
  const COLON: byte := 58
  const SPACE: byte := 32

  /** The value a line adds to its event's data; comments and other fields add none. */
  function ValueOf(line: Bytes): Option<Bytes> {
    if line != [] && line[0] == COLON then None
    else if DATA + [COLON] <= line then
      var value := line[|DATA| + 1..];
      Some(if value != [] && value[0] == SPACE then value[1..] else value)
    else if line == DATA then Some([])
    else None
  }

  function DataOf(block: seq<Bytes>): Bytes {
    if block == [] then []
    else
      var before := DataOf(block[..|block| - 1]);
      match ValueOf(block[|block| - 1])
      case None => before
      case Some(value) => before + value + [LF]
  }

  predicate IsSpaceByte(b: byte) {
    9 <= b <= 13 || b == SPACE
  }

  function TrimBytesLeft(s: Bytes): Bytes {
    if s != [] && IsSpaceByte(s[0]) then TrimBytesLeft(s[1..]) else s
  }

  function TrimBytesRight(s: Bytes): Bytes {
    if s != [] && IsSpaceByte(s[|s| - 1]) then TrimBytesRight(s[..|s| - 1]) else s
  }

  /** What the event made of a block delivers, if anything. */
  function PayloadOf(data: Bytes): seq<Bytes> {
    if data == [] then []
    else
      var payload := TrimBytesRight(TrimBytesLeft(data[..|data| - 1]));
      if payload == [] then [] else [payload]
  }

  function FirstBlank(lines: seq<Bytes>): (n: nat)
    ensures n <= |lines|
    ensures forall k :: 0 <= k < n ==> lines[k] != []
    ensures n < |lines| ==> lines[n] == []
  {
    if lines == [] || lines[0] == [] then 0 else 1 + FirstBlank(lines[1..])
  }

  /** Events are runs of lines ended by a blank one; the last needs none. */
  function Runs(lines: seq<Bytes>): seq<seq<Bytes>>
    decreases |lines|
  {
    if lines == [] then []
    else
      var n := FirstBlank(lines);
      [lines[..n]] + if n < |lines| then Runs(lines[n + 1..]) else []
  }

  /** A line that fills the scanner's buffer, which is given up before anything is made of it. */
  predicate Overlong(line: Bytes) {
    |line| >= MAX_EVENT
  }

  /** The mark is cut from the first line once that has been scanned. */
  function WithoutBom(lines: seq<Bytes>): seq<Bytes> {
    if lines != [] && BOM <= lines[0] && !Overlong(lines[0]) then lines[0 := lines[0][|BOM|..]] else lines
  }

  /** An event with more data, or a longer line, than the server reads. */
  predicate TooLarge(run: seq<Bytes>) {
    |DataOf(run)| > MAX_EVENT || exists k :: 0 <= k < |run| && Overlong(run[k])
  }

  /** An event at whose payload the stream asks to end. */
  predicate Ends(run: seq<Bytes>, done: Bytes -> bool) {
    var payload := PayloadOf(DataOf(run));
    payload != [] && done(payload[0])
  }

  /** None of the first `m` events stops the reading. */
  predicate Reaches(runs: seq<seq<Bytes>>, done: Bytes -> bool, m: nat) {
    m <= |runs| && forall j :: 0 <= j < m ==> !TooLarge(runs[j]) && !Ends(runs[j], done)
  }

  /** The first event that stops the reading, one way or the other, or their number. */
  function FirstStop(runs: seq<seq<Bytes>>, done: Bytes -> bool): (m: nat)
    ensures m <= |runs| && Reaches(runs, done, m) && (m < |runs| ==> TooLarge(runs[m]) || Ends(runs[m], done))
  {
    hide TooLarge, Ends;
    if runs == [] || TooLarge(runs[0]) || Ends(runs[0], done) then 0 else 1 + FirstStop(runs[1..], done)
  }

  function PayloadsOf(runs: seq<seq<Bytes>>): seq<Bytes> {
    if runs == [] then [] else PayloadsOf(runs[..|runs| - 1]) + PayloadOf(DataOf(runs[|runs| - 1]))
  }

  /** The payloads delivered, and whether an event was too large to go on. */
  function Delivery(runs: seq<seq<Bytes>>, done: Bytes -> bool): (seq<Bytes>, bool) {
    var m := FirstStop(runs, done);
    if m == |runs| then (PayloadsOf(runs), false)
    else if TooLarge(runs[m]) then (PayloadsOf(runs[..m]), true)
    else (PayloadsOf(runs[..m + 1]), false)
  }

  /**
   * Reading fails exactly when some event is too large and none before it asked to end; what was
   * delivered by then are the payloads of the events before it.
   */
  lemma FailsAtTheFirstTooLarge(runs: seq<seq<Bytes>>, done: Bytes -> bool)
    ensures Delivery(runs, done).1 <==> exists m :: 0 <= m < |runs| && Reaches(runs, done, m) && TooLarge(runs[m])
    ensures forall m :: 0 <= m < |runs| && Reaches(runs, done, m) && TooLarge(runs[m]) ==>
              Delivery(runs, done).0 == PayloadsOf(runs[..m])
  {
    hide TooLarge, Ends, PayloadsOf, Reaches;
    var first := FirstStop(runs, done);
    forall m | 0 <= m < |runs| && Reaches(runs, done, m) && TooLarge(runs[m]) ensures first == m {
      FirstStopIs(runs, done, m);
    }
  }

  lemma FirstStopIs(runs: seq<seq<Bytes>>, done: Bytes -> bool, m: nat)
    ensures Reaches(runs, done, m) && (m < |runs| ==> TooLarge(runs[m]) || Ends(runs[m], done)) ==>
              FirstStop(runs, done) == m
  {
    hide TooLarge, Ends;
  }

  // --- what is written is what is delivered ---------------------------------------------------------

  /** A line of an event: a value with or without the optional space, none at all, a comment, another field. */
  datatype Field =
    | Value(text: Bytes, spaced: bool)
    | NoValue
    | Comment(text: Bytes)
    | Other(line: Bytes)

  function Spell(f: Field): Bytes {
    match f
    case Value(text, spaced) => DATA + [COLON] + (if spaced then [SPACE] else []) + text
    case NoValue => DATA
    case Comment(text) => [COLON] + text
    case Other(line) => line
  }

  predicate OneLine(line: Bytes) {
    CR !in line && LF !in line
  }

  predicate IsField(f: Field) {
    OneLine(Spell(f)) && !Overlong(Spell(f)) &&
    match f
    case Value(text, spaced) => spaced || text == [] || text[0] != SPACE
    case Other(line) => line != [] && line[0] != COLON && !(DATA + [COLON] <= line) && line != DATA
    case _ => true
  }

  function Lines(fields: seq<Field>): (lines: seq<Bytes>)
    ensures |lines| == |fields| && forall k :: 0 <= k < |fields| ==> lines[k] == Spell(fields[k])
  {
    seq(|fields|, k requires 0 <= k < |fields| => Spell(fields[k]))
  }

  function ValuesOf(fields: seq<Field>): seq<Bytes> {
    if fields == [] then []
    else
      ValuesOf(fields[..|fields| - 1]) +
      match fields[|fields| - 1]
      case Value(text, _) => [text]
      case NoValue => [[]]
      case _ => []
  }

  /** The values of an event, one below the other. */
  function JoinLines(values: seq<Bytes>): Bytes {
    if values == [] then []
    else if |values| == 1 then values[0]
    else JoinLines(values[..|values| - 1]) + [LF] + values[|values| - 1]
  }

  /** What an event says, when there is no white space at its ends and it fits. */
  predicate IsEvent(fields: seq<Field>) {
    var said := JoinLines(ValuesOf(fields));
    (forall k :: 0 <= k < |fields| ==> IsField(fields[k])) && |said| < MAX_EVENT &&
    (said != [] ==> !IsSpaceByte(said[0]) && !IsSpaceByte(said[|said| - 1]))
  }

  function Said(fields: seq<Field>): seq<Bytes> {
    var said := JoinLines(ValuesOf(fields));
    if said == [] then [] else [said]
  }

  /** What all of them say, up to the first that asks to end. */
  function AllSaid(events: seq<seq<Field>>, done: Bytes -> bool): seq<Bytes> {
    if events == [] then []
    else
      var said := Said(events[0]);
      if said != [] && done(said[0]) then said else said + AllSaid(events[1..], done)
  }

  lemma SpelledIsRead(f: Field)
    requires IsField(f)
    ensures ValueOf(Spell(f)) ==
            match f
            case Value(text, _) => Some(text)
            case NoValue => Some([])
            case _ => None
    ensures Spell(f) != []
  {
    match f
    case Value(text, spaced) =>
      var value := (if spaced then [SPACE] else []) + text;
      assert Spell(f) == (DATA + [COLON]) + value;
      assert Spell(f)[0] == DATA[0] && Spell(f)[|DATA| + 1..] == value;
      assert spaced ==> value[1..] == text;
    case _ =>
  }

  lemma {:induction false} DataIsRead(fields: seq<Field>)
    requires forall k :: 0 <= k < |fields| ==> IsField(fields[k])
    ensures DataOf(Lines(fields)) ==
            if ValuesOf(fields) == [] then [] else JoinLines(ValuesOf(fields)) + [LF]
  {
    hide ValueOf, Spell, IsField;
    if fields != [] {
      var n := |fields| - 1;
      var front, last := fields[..n], fields[n];
      DataIsRead(front);
      SpelledIsRead(last);
      assert Lines(fields)[..n] == Lines(front);
      var values, all := ValuesOf(front), ValuesOf(fields);
      assert all != values ==> all[..|values|] == values;
    }
  }

  lemma EventIsRead(fields: seq<Field>)
    requires IsEvent(fields)
    ensures PayloadOf(DataOf(Lines(fields))) == Said(fields) && !TooLarge(Lines(fields))
  {
    hide ValueOf, Spell, ValuesOf, JoinLines, DataOf;
    DataIsRead(fields);
    var said := JoinLines(ValuesOf(fields));
    if ValuesOf(fields) != [] { assert (said + [LF])[..|said|] == said; }
    NoValues();
    assert said != [] ==> TrimBytesLeft(said) == said && TrimBytesRight(said) == said;
  }

  lemma NoValues()
    ensures JoinLines([]) == []
  {
  }

  /** Spaces, tabs, line breaks and form feeds around a payload are no part of it. */
  lemma WhiteSpaceGoes(a: Bytes, core: Bytes, b: Bytes)
    requires forall k :: 0 <= k < |a| ==> 9 <= a[k] <= 13 || a[k] == 32
    requires forall k :: 0 <= k < |b| ==> 9 <= b[k] <= 13 || b[k] == 32
    requires core != [] && var x, y := core[0], core[|core| - 1];
             !(9 <= x <= 13 || x == 32 || 9 <= y <= 13 || y == 32)
    ensures PayloadOf(a + core + b + [LF]) == [core]
  {
    assert (a + core + b + [LF])[..|a + core + b|] == a + core + b;
    LeftGoes(a, core + b);
    assert a + core + b == a + (core + b);
    RightGoes(core, b);
  }

  lemma {:induction false} LeftGoes(a: Bytes, rest: Bytes)
    requires (forall k :: 0 <= k < |a| ==> IsSpaceByte(a[k])) && rest != [] && !IsSpaceByte(rest[0])
    ensures TrimBytesLeft(a + rest) == rest
  {
    if a == [] {
      assert a + rest == rest;
    } else {
      assert (a + rest)[1..] == a[1..] + rest;
      LeftGoes(a[1..], rest);
    }
  }

  lemma {:induction false} RightGoes(rest: Bytes, b: Bytes)
    requires (forall k :: 0 <= k < |b| ==> IsSpaceByte(b[k])) && rest != [] && !IsSpaceByte(rest[|rest| - 1])
    ensures TrimBytesRight(rest + b) == rest
  {
    if b == [] {
      assert rest + b == rest;
    } else {
      assert (rest + b)[..|rest + b| - 1] == rest + b[..|b| - 1];
      RightGoes(rest, b[..|b| - 1]);
    }
  }

  /** Any of the three ways to end a line. */
  datatype End = Lf | CrLf | Cr

  function Ended(line: Bytes, end: End): Bytes {
    line + match end case Lf => [LF] case CrLf => [CR, LF] case Cr => [CR]
  }

  function TextOf(lines: seq<Bytes>, ends: seq<End>): Bytes
    requires |ends| == |lines|
  {
    if lines == [] then [] else Ended(lines[0], ends[0]) + TextOf(lines[1..], ends[1..])
  }

  /** No line holds an end of line, and no CR is followed by the LF of an empty line. */
  predicate AreLines(lines: seq<Bytes>, ends: seq<End>) {
    |ends| == |lines| && (forall k :: 0 <= k < |lines| ==> OneLine(lines[k])) &&
    forall k :: 0 < k < |lines| && lines[k] == [] && ends[k].Lf? ==> !ends[k - 1].Cr?
  }

  /** Lines written with any ends are read back as they were. */
  lemma {:induction false} LinesAreRead(lines: seq<Bytes>, ends: seq<End>)
    requires AreLines(lines, ends)
    ensures LinesOf(TextOf(lines, ends)) == lines
  {
    if lines != [] {
      var text, rest := TextOf(lines, ends), TextOf(lines[1..], ends[1..]);
      assert forall k :: 0 <= k < |lines[1..]| ==> lines[1..][k] == lines[k + 1] && ends[1..][k] == ends[k + 1];
      LinesAreRead(lines[1..], ends[1..]);
      assert text == Ended(lines[0], ends[0]) + rest;
      FirstLineIsRead(lines[0], ends[0], rest) by {
        if rest != [] && ends[0].Cr? {
          assert rest[0] == Ended(lines[1], ends[1])[0];
          assert lines[1] != [] ==> rest[0] == lines[1][0];
        }
      }
    }
  }

  lemma FirstLineIsRead(line: Bytes, end: End, rest: Bytes)
    requires OneLine(line) && (end.Cr? && rest != [] ==> rest[0] != LF)
    ensures LinesOf(Ended(line, end) + rest) == [line] + LinesOf(rest)
  {
    var s := Ended(line, end) + rest;
    LineEndIs(s, |line|);
    hide LineEnd;
    assert s[..|line|] == line;
    FirstLine(s);
    assert AfterLine(s) == rest;
  }

  /** Events as lines, each ended by a blank one. */
  function StreamLines(events: seq<seq<Field>>): seq<Bytes> {
    if events == [] then [] else Lines(events[0]) + [[]] + StreamLines(events[1..])
  }

  function EventLines(events: seq<seq<Field>>): seq<seq<Bytes>> {
    if events == [] then [] else [Lines(events[0])] + EventLines(events[1..])
  }

  lemma {:induction false} RunsAreEvents(events: seq<seq<Field>>)
    requires forall k :: 0 <= k < |events| ==> IsEvent(events[k])
    ensures Runs(StreamLines(events)) == EventLines(events)
  {
    hide Spell, IsField, JoinLines, ValuesOf;
    if events != [] {
      var first, rest := Lines(events[0]), StreamLines(events[1..]);
      var lines := first + [[]] + rest;
      assert forall k :: 0 <= k < |events[1..]| ==> events[1..][k] == events[k + 1];
      RunsAreEvents(events[1..]);
      NoneIsBlank(events[0]);
      FirstBlankIs(lines, |first|);
      assert lines[..|first|] == first && lines[|first| + 1..] == rest;
    }
  }

  lemma NoneIsBlank(fields: seq<Field>)
    requires IsEvent(fields)
    ensures forall k :: 0 <= k < |fields| ==> Lines(fields)[k] != []
  {
    hide Spell, ValuesOf, JoinLines;
    forall k | 0 <= k < |fields| ensures Lines(fields)[k] != [] { SpelledIsRead(fields[k]); }
  }

  lemma {:induction false} PayloadsJoin(run: seq<Bytes>, runs: seq<seq<Bytes>>)
    ensures PayloadsOf([run] + runs) == PayloadOf(DataOf(run)) + PayloadsOf(runs)
  {
    hide DataOf, PayloadOf;
    var all := [run] + runs;
    if runs == [] {
      assert all == [run] && all[..0] == [];
    } else {
      assert all[..|all| - 1] == [run] + runs[..|runs| - 1];
      PayloadsJoin(run, runs[..|runs| - 1]);
    }
  }

  lemma DeliversTheFirst(run: seq<Bytes>, runs: seq<seq<Bytes>>, done: Bytes -> bool)
    requires !TooLarge(run)
    ensures var own, later := PayloadOf(DataOf(run)), Delivery(runs, done);
            Delivery([run] + runs, done) == if Ends(run, done) then (own, false) else (own + later.0, later.1)
  {
    hide TooLarge, Ends, DataOf, PayloadOf, PayloadsOf;
    var all, own, m := [run] + runs, PayloadOf(DataOf(run)), FirstStop(runs, done);
    assert all[0] == run && all[1..] == runs && forall k :: 0 <= k < |runs| ==> all[k + 1] == runs[k];
    PayloadsJoin(run, []);
    PayloadsJoin(run, runs[..m]);
    PayloadsJoin(run, runs);
    if m < |runs| { PayloadsJoin(run, runs[..m + 1]); }
    NoPayloads();
    assert own + [] == own && all[..1] == [run] + [] && all[..m + 1] == [run] + runs[..m];
    assert m < |runs| ==> all[..m + 2] == [run] + runs[..m + 1];
    assert FirstStop(all, done) == if Ends(run, done) then 0 else m + 1;
  }

  lemma NoPayloads()
    ensures PayloadsOf([]) == []
  {
  }

  lemma {:induction false} EventsAreDelivered(events: seq<seq<Field>>, done: Bytes -> bool)
    requires forall k :: 0 <= k < |events| ==> IsEvent(events[k])
    ensures Delivery(EventLines(events), done) == (AllSaid(events, done), false)
  {
    hide IsEvent, TooLarge, DataOf, PayloadOf, Lines, Said;
    if events != [] {
      assert forall k :: 0 <= k < |events[1..]| ==> events[1..][k] == events[k + 1];
      EventsAreDelivered(events[1..], done);
      EventIsRead(events[0]);
      DeliversTheFirst(Lines(events[0]), EventLines(events[1..]), done);
    }
  }

  function Marked(lines: seq<Bytes>, mark: bool): seq<Bytes> {
    if mark && lines != [] then lines[0 := BOM + lines[0]] else lines
  }

  /** Events, the ends of their lines, and whether a byte order mark is put in front. */
  predicate IsStream(events: seq<seq<Field>>, ends: seq<End>, mark: bool) {
    var lines := StreamLines(events);
    (forall k :: 0 <= k < |events| ==> IsEvent(events[k])) && AreLines(Marked(lines, mark), ends) &&
    (lines != [] ==> if mark then !Overlong(BOM + lines[0]) else !(BOM <= lines[0]))
  }

  function Spelled(events: seq<seq<Field>>, ends: seq<End>, mark: bool): Bytes
    requires IsStream(events, ends, mark)
  {
    TextOf(Marked(StreamLines(events), mark), ends)
  }

  /** Whatever is written as events is delivered, as it was written. */
  lemma WrittenIsDelivered(events: seq<seq<Field>>, ends: seq<End>, mark: bool, done: Bytes -> bool)
    requires IsStream(events, ends, mark)
    ensures Delivery(Runs(WithoutBom(LinesOf(Spelled(events, ends, mark)))), done) == (AllSaid(events, done), false)
  {
    hide AreLines, Runs, Delivery, LinesOf, TextOf, IsEvent;
    var lines := StreamLines(events);
    LinesAreRead(Marked(lines, mark), ends);
    assert WithoutBom(Marked(lines, mark)) == lines;
    RunsAreEvents(events);
    EventsAreDelivered(events, done);
  }

  /** `data:`, a space, the payload and two line feeds, over and over. */
  function Plain(payloads: seq<Bytes>): Bytes {
    if payloads == [] then [] else DATA + [COLON, SPACE] + payloads[0] + [LF, LF] + Plain(payloads[1..])
  }

  function OneValueEach(payloads: seq<Bytes>): (events: seq<seq<Field>>)
    ensures |events| == |payloads| && forall k :: 0 <= k < |payloads| ==> events[k] == [Value(payloads[k], true)]
  {
    seq(|payloads|, k requires 0 <= k < |payloads| => [Value(payloads[k], true)])
  }

  predicate IsPayload(p: Bytes) {
    p != [] && OneLine(p) && |p| + 6 < MAX_EVENT && !IsSpaceByte(p[0]) && !IsSpaceByte(p[|p| - 1])
  }

  /** The payloads up to the first that asks to end, and with it. */
  function UpTo(payloads: seq<Bytes>, done: Bytes -> bool): seq<Bytes> {
    if payloads == [] then []
    else if done(payloads[0]) then [payloads[0]]
    else [payloads[0]] + UpTo(payloads[1..], done)
  }

  function LineFeeds(n: nat): (ends: seq<End>)
    ensures |ends| == n && forall k :: 0 <= k < n ==> ends[k] == Lf
  {
    seq(n, _ => Lf)
  }

  lemma OneValueIsAnEvent(p: Bytes)
    requires IsPayload(p)
    ensures IsEvent([Value(p, true)]) && Said([Value(p, true)]) == [p]
    ensures Lines([Value(p, true)]) == [DATA + [COLON, SPACE] + p] && OneLine(DATA + [COLON, SPACE] + p)
  {
    var fields := [Value(p, true)];
    assert fields[..0] == [] && ValuesOf(fields) == [] + [p];
    assert Spell(fields[0]) == DATA + [COLON, SPACE] + p;
  }

  lemma {:induction false} PlainIsAStream(payloads: seq<Bytes>)
    requires forall k :: 0 <= k < |payloads| ==> IsPayload(payloads[k])
    ensures var lines := StreamLines(OneValueEach(payloads));
            AreLines(lines, LineFeeds(|lines|)) && TextOf(lines, LineFeeds(|lines|)) == Plain(payloads) &&
            (lines != [] ==> !(BOM <= lines[0]))
  {
    hide Lines, TextOf;
    if payloads == [] {
      NoText();
    } else {
      var p, rest, events := payloads[0], payloads[1..], OneValueEach(payloads);
      OneValueIsAnEvent(p);
      PlainIsAStream(rest);
      assert events[1..] == OneValueEach(rest);
      var line, later := DATA + [COLON, SPACE] + p, StreamLines(OneValueEach(rest));
      var lines := [line] + [[]] + later;
      assert StreamLines(events) == lines;
      TwoLines(line, later);
      assert line[0] == DATA[0];
    }
  }

  lemma NoText()
    ensures TextOf([], []) == [] && LineFeeds(0) == []
  {
  }

  lemma TwoLines(line: Bytes, later: seq<Bytes>)
    ensures var lines := [line] + [[]] + later;
            TextOf(lines, LineFeeds(|lines|)) == line + [LF, LF] + TextOf(later, LineFeeds(|later|))
  {
    var lines := [line] + [[]] + later;
    var ends := LineFeeds(|lines|);
    assert lines[1..] == [[]] + later && lines[1..][1..] == later;
    assert ends[1..][1..] == LineFeeds(|later|);
    hide LineFeeds;
    var text := TextOf(later, LineFeeds(|later|));
    assert Ended(line, Lf) + (Ended([], Lf) + text) == line + [LF, LF] + text;
  }

  lemma {:induction false} PlainIsSaid(payloads: seq<Bytes>, done: Bytes -> bool)
    requires forall k :: 0 <= k < |payloads| ==> IsPayload(payloads[k])
    ensures AllSaid(OneValueEach(payloads), done) == UpTo(payloads, done)
    ensures forall k :: 0 <= k < |payloads| ==> IsEvent(OneValueEach(payloads)[k])
  {
    hide IsEvent, Said;
    if payloads != [] {
      OneValueIsAnEvent(payloads[0]);
      PlainIsSaid(payloads[1..], done);
      assert OneValueEach(payloads)[1..] == OneValueEach(payloads[1..]);
      forall k | 0 <= k < |payloads| ensures IsEvent(OneValueEach(payloads)[k]) { OneValueIsAnEvent(payloads[k]); }
    }
  }

  /** Payloads written one to an event are delivered, each once and in order, up to the first that asks to end. */
  lemma PlainIsDelivered(payloads: seq<Bytes>, done: Bytes -> bool)
    requires forall k :: 0 <= k < |payloads| ==> IsPayload(payloads[k])
    ensures Delivery(Runs(WithoutBom(LinesOf(Plain(payloads)))), done) == (UpTo(payloads, done), false)
  {
    hide IsEvent, StreamLines, TextOf, AreLines, LineFeeds, Runs, Delivery, LinesOf, WithoutBom, AllSaid, UpTo,
         IsPayload;
    var events := OneValueEach(payloads);
    PlainIsSaid(payloads, done);
    PlainIsAStream(payloads);
    WrittenIsDelivered(events, LineFeeds(|StreamLines(events)|), false, done);
  }

  // --- the reader as it runs ------------------------------------------------------------------------

  /** The split function with the flag it captures. */
  class SplitFunc {
    var skipLF: bool

    constructor ()
      ensures !skipLF
    {
      skipLF := false;
    }

    method Call(data: Bytes, atEOF: bool) returns (advance: nat, token: Option<Bytes>)
      modifies this
      ensures Cut(advance, token, skipLF) == Split(old(skipLF), data, atEOF)
    {
      if skipLF && |data| > 0 {
        skipLF := false;
        if data[0] == LF {
          return 1, None;
        }
      }
      var i := 0;
      while i < |data|
        invariant 0 <= i <= |data| && LineEnd(data) == LineEnd(data, i)
        invariant skipLF == (old(skipLF) && data == [])
      {
        if data[i] == LF {
          return i + 1, Some(data[..i]);
        }
        if data[i] == CR {
          advance := i + 1;
          if advance < |data| && data[advance] == LF {
            advance := advance + 1;
          } else if advance == |data| {
            skipLF := true;
          }
          return advance, Some(data[..i]);
        }
        i := i + 1;
      }
      if atEOF && |data| > 0 {
        return |data|, Some(data);
      }
      return 0, None;
    }
  }

  /** bufio.Scanner's calling rule, over reads of any size. */
  method ScanLines(chunks: seq<Bytes>, last: Option<Bytes>) returns (lines: seq<Bytes>)
    ensures lines == match last case None => Scan(chunks) case Some(bytes) => ScanWithEnd(chunks, bytes)
  {
    var split := new SplitFunc();
    var held: Bytes := [];
    lines := [];
    for k := 0 to |chunks|
      invariant fresh(split) && Scanner(lines, split.skipLF, held) == Feed(chunks[..k])
    {
      assert chunks[..k + 1][..k] == chunks[..k];
      var more;
      more, held := Tokens(split, held + chunks[k], false);
      lines := lines + more;
    }
    assert chunks[..|chunks|] == chunks;
    var more;
    more, held := Tokens(split, held + match last case None => [] case Some(bytes) => bytes, true);
    assert last.None? ==> Feed(chunks).held + [] == Feed(chunks).held;
    lines := lines + more;
  }

  method Tokens(split: SplitFunc, data: Bytes, atEOF: bool) returns (lines: seq<Bytes>, held: Bytes)
    modifies split
    ensures Scanner(lines, split.skipLF, held) == Drain(old(split.skipLF), data, atEOF)
  {
    hide Drain, Split;
    lines, held := [], data;
    ghost var whole := Drain(split.skipLF, data, atEOF);
    assert [] + whole.lines == whole.lines;
    while true
      invariant whole == Drain(split.skipLF, held, atEOF).(lines := lines + Drain(split.skipLF, held, atEOF).lines)
      decreases |held|
    {
      DrainsOne(lines, split.skipLF, held, atEOF);
      var advance, token := split.Call(held, atEOF);
      held := held[advance..];
      if token.None? {
        return;
      }
      lines := lines + [token.value];
    }
  }

  lemma DrainsOne(lines: seq<Bytes>, skipLF: bool, held: Bytes, atEOF: bool)
    ensures var c, d := Split(skipLF, held, atEOF), Drain(skipLF, held, atEOF);
            d.(lines := lines + d.lines) ==
            if c.token.None? then Scanner(lines, c.skipLF, held[c.advance..])
            else
              var more := Drain(c.skipLF, held[c.advance..], atEOF);
              more.(lines := lines + [c.token.value] + more.lines)
  {
    hide Split;
    var c := Split(skipLF, held, atEOF);
    if c.token.None? {
      assert lines + [] == lines;
    } else {
      var more := Drain(c.skipLF, held[c.advance..], atEOF);
      assert lines + ([c.token.value] + more.lines) == lines + [c.token.value] + more.lines;
    }
  }

  /** The events before an open one, all delivered, and how the open one's lines go on. */
  ghost predicate Before(lines: seq<Bytes>, closed: seq<seq<Bytes>>, start: nat, done: Bytes -> bool) {
    start <= |lines| && Runs(lines) == closed + Runs(lines[start..]) && Reaches(closed, done, |closed|)
  }

  /** readEventStream; a line is scanned when its turn comes, and scanning an overlong one fails. */
  method ReadEvents(scanned: seq<Bytes>, done: Bytes -> bool) returns (payloads: seq<Bytes>, tooLarge: bool)
    ensures (payloads, tooLarge) == Delivery(Runs(WithoutBom(scanned)), done)
  {
    hide DataOf, ValueOf, Runs, PayloadOf, PayloadsOf, Delivery, Ends, TooLarge;
    ghost var lines := WithoutBom(scanned);
    var data: Bytes := [];
    ghost var start, closed: seq<seq<Bytes>> := 0, [];
    payloads := [];
    NoData(lines);
    for k := 0 to |scanned|
      invariant start <= k && forall i :: start <= i < k ==> lines[i] != []
      invariant data == DataOf(lines[start..k]) && !TooLarge(lines[start..k])
      invariant Before(lines, closed, start, done) && payloads == PayloadsOf(closed)
    {
      var line := scanned[k];
      LineAdds(lines, start, k);
      if Overlong(line) {
        OutgrowsIt(lines, closed, start, k + 1, done);
        return payloads, true;
      }
      if k == 0 && BOM <= line {
        line := line[|BOM|..];
      }
      assert line == lines[k];
      if line == [] {
        ghost var run := lines[start..k];
        var ended;
        RunEnds(lines, start, k);
        assert closed + ([run] + Runs(lines[k + 1..])) == (closed + [run]) + Runs(lines[k + 1..]);
        payloads, ended := Dispatch(data, payloads, closed, run, done);
        if ended {
          StopsAt(lines, closed, run, Runs(lines[k + 1..]), done);
          return payloads, false;
        }
        closed := closed + [run];
        data := [];
        start := k + 1;
        NoData(lines[start..]);
        assert lines[start..k + 1] == [];
        continue;
      }
      DataGrows(lines, start, k);
      var value := ValueOf(line);
      if value.Some? {
        if |data| + |value.value| + 1 > MAX_EVENT {
          OutgrowsIt(lines, closed, start, k + 1, done);
          return payloads, true;
        }
        data := data + value.value + [LF];
      }
    }
    assert lines[start..|scanned|] == lines[start..];
    LastRun(lines, start);
    var ended;
    payloads, ended := Dispatch(data, payloads, closed, lines[start..], done);
    NothingFollows(lines, closed, start, done);
    tooLarge := false;
  }

  /** The end of an event delivers it; the stream may ask to end there. */
  method Dispatch(data: Bytes, before: seq<Bytes>, ghost closed: seq<seq<Bytes>>, ghost run: seq<Bytes>,
                  done: Bytes -> bool)
    returns (payloads: seq<Bytes>, ended: bool)
    requires data == DataOf(run) && before == PayloadsOf(closed)
    ensures payloads == PayloadsOf(closed + [run]) && ended == Ends(run, done)
  {
    hide DataOf, PayloadOf;
    assert (closed + [run])[..|closed|] == closed;
    var payload := PayloadOf(data);
    payloads := before + payload;
    ended := payload != [] && done(payload[0]);
  }

  lemma NoData(lines: seq<Bytes>)
    ensures DataOf(lines[0..0]) == [] && DataOf([]) == [] && lines[0..] == lines
    ensures !TooLarge(lines[0..0]) && !TooLarge([])
    ensures PayloadsOf([]) == [] && [] + Runs(lines) == Runs(lines)
  {
    assert lines[0..0] == [];
  }

  lemma DataGrows(lines: seq<Bytes>, start: nat, k: nat)
    requires start <= k < |lines|
    ensures DataOf(lines[start..k + 1]) ==
            DataOf(lines[start..k]) +
            match ValueOf(lines[k]) case None => [] case Some(value) => value + [LF]
  {
    assert lines[start..k + 1][..k - start] == lines[start..k];
  }

  lemma LineAdds(lines: seq<Bytes>, start: nat, k: nat)
    requires start <= k < |lines| && !TooLarge(lines[start..k])
    ensures |DataOf(lines[start..k])| <= MAX_EVENT
    ensures TooLarge(lines[start..k + 1]) <==> |DataOf(lines[start..k + 1])| > MAX_EVENT || Overlong(lines[k])
  {
    var before, after := lines[start..k], lines[start..k + 1];
    hide DataOf, Overlong;
    assert after[k - start] == lines[k];
    assert forall i :: 0 <= i < |before| ==> after[i] == before[i];
  }

  /** Once too large, however long the event goes on. */
  lemma {:induction false} StaysTooLarge(lines: seq<Bytes>, start: nat, i: nat, j: nat)
    requires start <= i <= j <= |lines| && TooLarge(lines[start..i])
    ensures TooLarge(lines[start..j])
    decreases j - i
  {
    hide DataOf, ValueOf, Overlong;
    if i < j {
      DataGrows(lines, start, i);
      var before, after := lines[start..i], lines[start..i + 1];
      assert forall k :: 0 <= k < |before| ==> after[k] == before[k];
      StaysTooLarge(lines, start, i + 1, j);
    }
  }

  lemma FirstBlankIs(lines: seq<Bytes>, n: nat)
    requires n <= |lines| && (forall k :: 0 <= k < n ==> lines[k] != []) && (n < |lines| ==> lines[n] == [])
    ensures FirstBlank(lines) == n
  {
  }

  lemma RunEnds(lines: seq<Bytes>, start: nat, k: nat)
    requires start <= k < |lines| && lines[k] == [] && forall i :: start <= i < k ==> lines[i] != []
    ensures Runs(lines[start..]) == [lines[start..k]] + Runs(lines[k + 1..])
  {
    var rest := lines[start..];
    FirstBlankIs(rest, k - start);
    assert rest[..k - start] == lines[start..k] && rest[k - start + 1..] == lines[k + 1..];
  }

  lemma LastRun(lines: seq<Bytes>, start: nat)
    requires start <= |lines| && forall i :: start <= i < |lines| ==> lines[i] != []
    ensures Runs(lines[start..]) == if start == |lines| then [] else [lines[start..]]
  {
    var rest := lines[start..];
    FirstBlankIs(rest, |rest|);
    assert rest[..|rest|] == rest;
  }

  /** Reading stops well at an event that asks to end, the ones before it having been delivered. */
  lemma StopsAt(lines: seq<Bytes>, closed: seq<seq<Bytes>>, run: seq<Bytes>, more: seq<seq<Bytes>>, done: Bytes -> bool)
    requires Runs(lines) == (closed + [run]) + more && !TooLarge(run) && Ends(run, done)
    requires Reaches(closed, done, |closed|)
    ensures Delivery(Runs(lines), done) == (PayloadsOf(closed + [run]), false)
  {
    hide Runs, TooLarge, Ends, PayloadsOf;
    var runs := Runs(lines);
    assert runs[|closed|] == run && runs[..|closed| + 1] == closed + [run];
    FirstStopIs(runs, done, |closed|);
  }

  /** And badly at the first event that outgrows a limit, however long it goes on. */
  lemma OutgrowsIt(lines: seq<Bytes>, closed: seq<seq<Bytes>>, start: nat, k: nat, done: Bytes -> bool)
    requires Before(lines, closed, start, done) && start < k <= |lines|
    requires (forall i :: start <= i < k ==> lines[i] != []) && TooLarge(lines[start..k])
    ensures Delivery(Runs(lines), done) == (PayloadsOf(closed), true)
  {
    hide TooLarge, Ends, PayloadsOf;
    var rest := lines[start..];
    var n := FirstBlank(rest);
    assert n < |rest| ==> lines[start + n] == [];
    assert rest[..n] == lines[start..start + n];
    StaysTooLarge(lines, start, k, start + n);
    var runs := Runs(lines);
    assert Runs(rest)[0] == rest[..n] && runs[|closed|] == rest[..n] && runs[..|closed|] == closed;
    FirstStopIs(runs, done, |closed|);
  }

  /** At the end of the lines the open event is the last, whether or not it asks to end. */
  lemma NothingFollows(lines: seq<Bytes>, closed: seq<seq<Bytes>>, start: nat, done: Bytes -> bool)
    requires Before(lines, closed, start, done) && !TooLarge(lines[start..])
    requires Runs(lines[start..]) == if start == |lines| then [] else [lines[start..]]
    ensures Delivery(Runs(lines), done) == (PayloadsOf(closed + [lines[start..]]), false)
  {
    hide Runs, TooLarge, Ends;
    var runs, run := Runs(lines), lines[start..];
    if start == |lines| {
      assert runs == closed && (closed + [run])[..|closed|] == closed && DataOf(run) == [];
      assert PayloadsOf(closed) + [] == PayloadsOf(closed);
      FirstStopIs(runs, done, |closed|);
    } else {
      assert runs == closed + [run] && runs[..|runs|] == runs;
      FirstStopIs(runs, done, if Ends(run, done) then |closed| else |runs|);
    }
  }

  /** What is delivered, and whether reading fails, does not depend on how the bytes were cut into reads. */
  method DeliverEvents(chunks: seq<Bytes>, done: Bytes -> bool) returns (payloads: seq<Bytes>, tooLarge: bool)
    ensures (payloads, tooLarge) == Delivery(Runs(WithoutBom(LinesOf(Concat(chunks)))), done)
    ensures forall events, ends, mark ::
              IsStream(events, ends, mark) && Concat(chunks) == Spelled(events, ends, mark) ==>
              (payloads, tooLarge) == (AllSaid(events, done), false)
  {
    hide Runs, Delivery, LinesOf, WithoutBom, IsStream, Spelled, AllSaid;
    ReadsDoNotMatter(chunks);
    forall events, ends, mark | IsStream(events, ends, mark) && Concat(chunks) == Spelled(events, ends, mark)
      ensures Delivery(Runs(WithoutBom(LinesOf(Concat(chunks)))), done) == (AllSaid(events, done), false)
    {
      WrittenIsDelivered(events, ends, mark, done);
    }
    var lines := ScanLines(chunks, None);
    payloads, tooLarge := ReadEvents(lines, done);
  }
}
