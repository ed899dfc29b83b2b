/**
 The frame parser against the event stream format of the WHATWG HTML Living Standard
 (sections 9.2.5 and 9.2.6): where it departs, and exactly when it agrees.
 */
module SseStandard {
  import opened Wrappers
  import opened SseFrames

  // ---------- the standard ----------

  const BOM := '\U{FEFF}'

  predicate HasBom(text: string) {
    text != "" && text[0] == BOM
  }

  function StripBom(text: string): string {
    if HasBom(text) then text[1..] else text
  }

  /** CR LF, LF and CR each end a line; what follows the last of them is no line. */
  function StandardLines(begun: string, afterCr: bool, text: string): seq<string>
    decreases text
  {
    if text == "" then []
    else if text[0] == '\n' && afterCr then StandardLines(begun, false, text[1..])
    else if text[0] == '\n' || text[0] == '\r' then [begun] + StandardLines("", text[0] == '\r', text[1..])
    else StandardLines(begun + [text[0]], false, text[1..])
  }

  /** The value of a data field; a line without colon is a field name with an empty value. */
  function StandardData(line: string): Option<string> {
    if line == "data" then Some("") else DataField(line)
  }

  /** A blank line dispatches the pending data; what is pending at the end is dropped. */
  function StandardFrom(lines: seq<string>, pending: seq<string>): seq<string> {
    if lines == [] then []
    else if lines[0] == "" then Flush(pending) + StandardFrom(lines[1..], [])
    else
      var field := StandardData(lines[0]);
      StandardFrom(lines[1..], if field.Some? then pending + [field.value] else pending)
  }

  function StandardFrames(text: string): seq<string> {
    StandardFrom(StandardLines("", false, StripBom(text)), [])
  }

  // ---------- lines side by side ----------

  /** One line as the parser sees it, and the lines that the standard sees in its place. */
  datatype Row = Row(line: string, parts: seq<string>)

  function SplitCr(s: string): (parts: seq<string>)
    ensures parts != []
  {
    if s == "" then [""]
    else
      var before, c := SplitCr(s[..|s| - 1]), s[|s| - 1];
      if c == '\r' then before + [""] else Closed(before) + [Open(before) + [c]]
  }

  function Open(parts: seq<string>): string
    requires parts != []
  {
    parts[|parts| - 1]
  }

  function Closed(parts: seq<string>): seq<string>
    requires parts != []
  {
    parts[..|parts| - 1]
  }

  /** The rows of a text whose first line has the mark before it and began with the given characters. */
  function RowsFrom(mark: string, begun: string, text: string): seq<Row>
    decreases text
  {
    if text == "" then
      if mark + begun == "" then [] else [Row(mark + begun, Closed(SplitCr(begun)))]
    else if text[0] == '\n' then
      [Row(mark + StripCr(begun), SplitCr(StripCr(begun)))] + RowsFrom("", "", text[1..])
    else RowsFrom(mark, begun + [text[0]], text[1..])
  }

  function Rows(text: string): seq<Row> {
    RowsFrom(if HasBom(text) then [BOM] else "", "", StripBom(text))
  }

  function LinesOf(rows: seq<Row>): seq<string> {
    if rows == [] then [] else [rows[0].line] + LinesOf(rows[1..])
  }

  function PartsOf(rows: seq<Row>): seq<string> {
    if rows == [] then [] else rows[0].parts + PartsOf(rows[1..])
  }

  lemma {:induction false} RowsHaveLines(mark: string, begun: string, text: string)
    requires !EndsInCr(mark)
    ensures LinesOf(RowsFrom(mark, begun, text)) == LinesFrom(mark + begun, text)
    decreases text
  {
    if text == "" {
    } else if text[0] == '\n' {
      RowsHaveLines("", "", text[1..]);
      assert "" + "" == "";
      assert StripCr(mark + begun) == mark + StripCr(begun);
      var rows := RowsFrom(mark, begun, text);
      assert rows[1..] == RowsFrom("", "", text[1..]);
    } else {
      RowsHaveLines(mark, begun + [text[0]], text[1..]);
      assert mark + (begun + [text[0]]) == mark + begun + [text[0]];
    }
  }

  lemma SplitCrSnoc(s: string, c: char)
    ensures SplitCr(s + [c]) == if c == '\r' then SplitCr(s) + [""] else Closed(SplitCr(s)) + [Open(SplitCr(s)) + [c]]
  {
    assert (s + [c])[..|s|] == s;
  }

  /** What the standard makes of the rest of a text whose current line, CRs included, has begun like this. */
  function StandardRest(begun: string, text: string): seq<string> {
    Closed(SplitCr(begun)) + StandardLines(Open(SplitCr(begun)), EndsInCr(begun), text)
  }

  lemma RestAtLf(begun: string, text: string)
    requires text != "" && text[0] == '\n'
    ensures StandardRest(begun, text) == SplitCr(StripCr(begun)) + StandardLines("", false, text[1..])
  {
    var lines := StandardLines("", false, text[1..]);
    if EndsInCr(begun) {
      SplitCrSnoc(StripCr(begun), '\r');
      assert StripCr(begun) + ['\r'] == begun;
      assert Closed(SplitCr(begun)) == SplitCr(StripCr(begun));
    } else {
      assert Closed(SplitCr(begun)) + ([Open(SplitCr(begun))] + lines) == SplitCr(begun) + lines;
    }
  }

  lemma RestInLine(begun: string, text: string)
    requires text != "" && text[0] != '\n'
    ensures StandardRest(begun, text) == StandardRest(begun + [text[0]], text[1..])
  {
    SplitCrSnoc(begun, text[0]);
    var parts := SplitCr(begun);
    if text[0] == '\r' {
      var lines := StandardLines("", true, text[1..]);
      assert Closed(parts + [""]) == parts;
      assert Closed(parts) + ([Open(parts)] + lines) == parts + lines;
    } else {
      assert Closed(Closed(parts) + [Open(parts) + [text[0]]]) == Closed(parts);
    }
  }

  lemma {:induction false} RowsHaveParts(mark: string, begun: string, text: string)
    ensures PartsOf(RowsFrom(mark, begun, text)) == StandardRest(begun, text)
    decreases text
  {
    if text == "" {
      assert SplitCr("") == [""];
    } else if text[0] == '\n' {
      RestAtLf(begun, text);
      RowsHaveParts("", "", text[1..]);
      RestAtStart(text[1..]);
      var rows := RowsFrom(mark, begun, text);
      assert rows[1..] == RowsFrom("", "", text[1..]);
    } else {
      RestInLine(begun, text);
      RowsHaveParts(mark, begun + [text[0]], text[1..]);
    }
  }

  lemma RestAtStart(text: string)
    ensures StandardRest("", text) == StandardLines("", false, text)
  {
    assert SplitCr("") == [""];
    assert [] + StandardLines("", false, text) == StandardLines("", false, text);
  }

  lemma RowsOfText(text: string)
    ensures Frames(text) == FramesFrom(LinesOf(Rows(text)), [])
    ensures StandardFrames(text) == StandardFrom(PartsOf(Rows(text)), [])
  {
    var mark := if HasBom(text) then [BOM] else "";
    RowsHaveLines(mark, "", StripBom(text));
    RowsHaveParts(mark, "", StripBom(text));
    RestAtStart(StripBom(text));
    if HasBom(text) {
      assert LinesFrom("", text) == LinesFrom("" + [text[0]], text[1..]);
      assert "" + [BOM] == mark + "";
    } else {
      assert mark + "" == "";
    }
  }

  // ---------- what links the two sides of a row ----------

  predicate IsData(line: string) {
    DataField(line).Some?
  }

  /** Only the unterminated last line can be a data line that the standard does not see at all. */
  predicate Linked(row: Row, last: bool) {
    && (row.line == "" ==> row.parts == [""])
    && (IsData(row.line) && '\r' !in row.line ==> row.parts == [row.line] || (last && row.parts == []))
    && (forall i :: 0 <= i < |row.parts| ==> '\r' !in row.parts[i])
  }

  predicate AllLinked(rows: seq<Row>) {
    rows == [] || (Linked(rows[0], |rows| == 1) && AllLinked(rows[1..]))
  }

  lemma {:induction false} SplitCrParts(s: string)
    ensures forall i :: 0 <= i < |SplitCr(s)| ==> '\r' !in SplitCr(s)[i]
    ensures '\r' !in s ==> SplitCr(s) == [s]
  {
    if s != "" {
      SplitCrParts(s[..|s| - 1]);
      assert s[..|s| - 1] + [s[|s| - 1]] == s;
    }
  }

  predicate IsMark(mark: string) {
    mark == "" || mark == [BOM]
  }

  lemma RowIsLinked(mark: string, line: string)
    requires IsMark(mark)
    ensures Linked(Row(mark + line, SplitCr(line)), false)
    ensures mark + line != "" ==> Linked(Row(mark + line, Closed(SplitCr(line))), true)
  {
    SplitCrParts(line);
    if mark == "" {
      assert mark + line == line;
    } else {
      assert (mark + line)[0] == BOM;
    }
  }

  lemma {:induction false} RowsAreLinked(mark: string, begun: string, text: string)
    requires IsMark(mark)
    ensures AllLinked(RowsFrom(mark, begun, text))
    decreases text
  {
    if text == "" {
      RowIsLinked(mark, begun);
    } else if text[0] == '\n' {
      RowIsLinked(mark, StripCr(begun));
      RowsAreLinked("", "", text[1..]);
      var rows := RowsFrom(mark, begun, text);
      assert rows[1..] == RowsFrom("", "", text[1..]);
      assert Linked(rows[0], false) ==> Linked(rows[0], |rows| == 1);
    } else {
      RowsAreLinked(mark, begun + [text[0]], text[1..]);
    }
  }

  // ---------- the condition ----------

  /** The lines since the last blank one: no data, data, or data that the standard has dispatched already. */
  datatype Block = NoData | Pending | Dispatched

  function BlockAfter(b: Block, row: Row): Block {
    if row.line == "" then NoData
    else if IsData(row.line) then Pending
    else if b != NoData && "" in row.parts then Dispatched
    else b
  }

  function BlockAtEnd(rows: seq<Row>, b: Block): Block {
    if rows == [] then b else BlockAtEnd(rows[1..], BlockAfter(b, rows[0]))
  }

  /** A data line has no CR in it, and a line that the parser ignores hides no data field. */
  predicate RowAgrees(row: Row) {
    if IsData(row.line) then '\r' !in row.line
    else forall i :: 0 <= i < |row.parts| ==> StandardData(row.parts[i]).None?
  }

  predicate AllAgree(rows: seq<Row>) {
    rows == [] || (RowAgrees(rows[0]) && AllAgree(rows[1..]))
  }

  /** No two data lines of one frame have a blank line between them that only the standard sees. */
  predicate Unsplit(rows: seq<Row>, b: Block) {
    rows == [] || (!(b.Dispatched? && IsData(rows[0].line)) && Unsplit(rows[1..], BlockAfter(b, rows[0])))
  }

  predicate Faithful(text: string) {
    AllAgree(Rows(text)) && Unsplit(Rows(text), NoData)
  }

  // ---------- faithful texts ----------

  lemma {:induction false} IgnoredParts(parts: seq<string>, rest: seq<string>, pending: seq<string>)
    requires forall i :: 0 <= i < |parts| ==> StandardData(parts[i]).None?
    ensures StandardFrom(parts + rest, pending)
         == if "" in parts then Flush(pending) + StandardFrom(rest, []) else StandardFrom(rest, pending)
  {
    if parts == [] {
      assert parts + rest == rest;
    } else {
      assert (parts + rest)[1..] == parts[1..] + rest;
      if parts[0] == "" {
        IgnoredParts(parts[1..], rest, []);
        assert [] + StandardFrom(rest, []) == StandardFrom(rest, []);
      } else {
        IgnoredParts(parts[1..], rest, pending);
      }
    }
  }

  ghost predicate Matches(b: Block, pending: seq<string>) {
    pending != [] <==> b != NoData
  }

  /** What the standard makes of the parts when the block so far is as given. */
  function StandardAfter(b: Block, pending: seq<string>, parts: seq<string>): seq<string> {
    if b.Dispatched? then Flush(pending) + StandardFrom(parts, []) else StandardFrom(parts, pending)
  }

  lemma RowStep(row: Row, rest: seq<Row>, b: Block, pending: seq<string>)
    requires Linked(row, rest == []) && RowAgrees(row) && Matches(b, pending)
    requires !(b.Dispatched? && IsData(row.line)) && (IsData(row.line) ==> row.parts != [])
    ensures var rows := [row] + rest;
            var next := if IsData(row.line) then pending + [DataField(row.line).value]
                        else if row.line == "" then [] else pending;
            && Matches(BlockAfter(b, row), next)
            && FramesFrom(LinesOf(rows), pending)
               == (if row.line == "" then Flush(pending) else []) + FramesFrom(LinesOf(rest), next)
            && StandardAfter(b, pending, PartsOf(rows))
               == (if row.line == "" then Flush(pending) else [])
                + StandardAfter(BlockAfter(b, row), next, PartsOf(rest))
  {
    var rows := [row] + rest;
    assert rows[1..] == rest;
    assert LinesOf(rows)[1..] == LinesOf(rest);
    if IsData(row.line) {
      assert PartsOf(rows)[1..] == PartsOf(rest);
    } else {
      IgnoredParts(row.parts, PartsOf(rest), pending);
      IgnoredParts(row.parts, PartsOf(rest), []);
      assert "" in row.parts || "" !in row.parts;
    }
  }

  lemma {:induction false} FaithfulRows(rows: seq<Row>, b: Block, pending: seq<string>)
    requires AllLinked(rows) && AllAgree(rows) && Unsplit(rows, b) && Matches(b, pending)
    ensures BlockAtEnd(rows, b) != Pending ==>
              FramesFrom(LinesOf(rows), pending) == StandardAfter(b, pending, PartsOf(rows))
    ensures BlockAtEnd(rows, b) == Pending ==>
              |FramesFrom(LinesOf(rows), pending)| == |StandardAfter(b, pending, PartsOf(rows))| + 1
  {
    if rows == [] {
      assert Flush(pending) + [] == Flush(pending);
    } else {
      var row, rest := rows[0], rows[1..];
      assert rows == [row] + rest;
      if IsData(row.line) && row.parts == [] {
        UnterminatedData(row, rest, pending);
        assert BlockAtEnd(rest, BlockAfter(b, row)) == Pending;
      } else {
        var next := if IsData(row.line) then pending + [DataField(row.line).value]
                    else if row.line == "" then [] else pending;
        RowStep(row, rest, b, pending);
        FaithfulRows(rest, BlockAfter(b, row), next);
      }
    }
  }

  lemma UnterminatedData(row: Row, rest: seq<Row>, pending: seq<string>)
    requires Linked(row, rest == []) && RowAgrees(row) && IsData(row.line) && row.parts == []
    ensures rest == []
    ensures |FramesFrom(LinesOf([row] + rest), pending)| == 1
    ensures PartsOf([row] + rest) == []
  {
    assert ([row] + rest)[1..] == rest;
    assert LinesOf([row])[1..] == [];
  }

  /** On faithful texts the parser agrees with the standard exactly when no data line follows the last blank line. */
  lemma FaithfulTexts(text: string)
    requires Faithful(text)
    ensures Frames(text) == StandardFrames(text) <==> BlockAtEnd(Rows(text), NoData) != Pending
  {
    RowsOfText(text);
    RowsAreLinked(if HasBom(text) then [BOM] else "", "", StripBom(text));
    FaithfulRows(Rows(text), NoData, []);
  }

  // ---------- texts with nothing pending at the end ----------

  /** The data lines that no blank line follows, as the parser reads the lines. */
  function Leftover(lines: seq<string>, pending: seq<string>): seq<string> {
    if lines == [] then pending
    else if lines[0] == "" then Leftover(lines[1..], [])
    else
      var field := DataField(lines[0]);
      Leftover(lines[1..], if field.Some? then pending + [field.value] else pending)
  }

  function StandardLeftover(lines: seq<string>, pending: seq<string>): seq<string> {
    if lines == [] then pending
    else if lines[0] == "" then StandardLeftover(lines[1..], [])
    else
      var field := StandardData(lines[0]);
      StandardLeftover(lines[1..], if field.Some? then pending + [field.value] else pending)
  }

  /** Neither reading has a data line after its last blank line. */
  predicate NothingPending(rows: seq<Row>) {
    Leftover(LinesOf(rows), []) == [] && StandardLeftover(PartsOf(rows), []) == []
  }

  function Weigh(s: string, w: char -> nat): nat {
    if s == "" then 0 else w(s[0]) + Weigh(s[1..], w)
  }

  /** Each text with one LF after it. */
  function WeighAll(texts: seq<string>, w: char -> nat): nat {
    if texts == [] then 0 else Weigh(texts[0], w) + w('\n') + WeighAll(texts[1..], w)
  }

  lemma {:induction false} WeighAppend(a: string, b: string, w: char -> nat)
    ensures Weigh(a + b, w) == Weigh(a, w) + Weigh(b, w)
  {
    if a == "" {
      assert a + b == b;
    } else {
      assert (a + b)[1..] == a[1..] + b;
      WeighAppend(a[1..], b, w);
    }
  }

  lemma {:induction false} WeighAllAppend(a: seq<string>, b: seq<string>, w: char -> nat)
    ensures WeighAll(a + b, w) == WeighAll(a, w) + WeighAll(b, w)
  {
    if a == [] {
      assert a + b == b;
    } else {
      assert (a + b)[1..] == a[1..] + b;
      WeighAllAppend(a[1..], b, w);
    }
  }

  /** Joining lines into a frame moves characters, but keeps their weight. */
  lemma {:induction false} WeighJoined(parts: seq<string>, w: char -> nat)
    ensures WeighAll(Flush(parts), w) == WeighAll(parts, w)
  {
    if |parts| > 1 {
      WeighJoined(parts[1..], w);
      assert JoinLf(parts) == parts[0] + ("\n" + JoinLf(parts[1..]));
      WeighAppend(parts[0], "\n" + JoinLf(parts[1..]), w);
      WeighAppend("\n", JoinLf(parts[1..]), w);
      assert Flush(parts)[1..] == [] && Flush(parts[1..])[1..] == [];
    }
  }

  function DataWeight(lines: seq<string>, w: char -> nat): nat {
    if lines == [] then 0
    else WeighAll(Values(DataField(lines[0])), w) + DataWeight(lines[1..], w)
  }

  function StandardWeight(lines: seq<string>, w: char -> nat): nat {
    if lines == [] then 0
    else WeighAll(Values(StandardData(lines[0])), w) + StandardWeight(lines[1..], w)
  }

  function Values(field: Option<string>): seq<string> {
    if field.Some? then [field.value] else []
  }

  /** The parser's frames weigh what its data lines weigh. */
  lemma {:induction false} FramesWeigh(lines: seq<string>, pending: seq<string>, w: char -> nat)
    ensures WeighAll(FramesFrom(lines, pending), w) == WeighAll(pending, w) + DataWeight(lines, w)
  {
    WeighJoined(pending, w);
    if lines != [] {
      if lines[0] == "" {
        FramesWeigh(lines[1..], [], w);
        WeighAllAppend(Flush(pending), FramesFrom(lines[1..], []), w);
      } else {
        var values := Values(DataField(lines[0]));
        FramesWeigh(lines[1..], pending + values, w);
        WeighAllAppend(pending, values, w);
        assert values == [] ==> pending + values == pending;
      }
    }
  }

  lemma {:induction false} StandardWeighs(lines: seq<string>, pending: seq<string>, w: char -> nat)
    ensures WeighAll(StandardFrom(lines, pending), w) + WeighAll(StandardLeftover(lines, pending), w)
         == WeighAll(pending, w) + StandardWeight(lines, w)
  {
    WeighJoined(pending, w);
    if lines != [] {
      if lines[0] == "" {
        StandardWeighs(lines[1..], [], w);
        WeighAllAppend(Flush(pending), StandardFrom(lines[1..], []), w);
      } else {
        var values := Values(StandardData(lines[0]));
        StandardWeighs(lines[1..], pending + values, w);
        WeighAllAppend(pending, values, w);
        assert values == [] ==> pending + values == pending;
      }
    }
  }

  // ---------- no CR in data ----------

  function IsCr(): char -> nat { c => if c == '\r' then 1 else 0 }

  lemma {:induction false} CrWeight(s: string)
    ensures Weigh(s, IsCr()) == 0 <==> '\r' !in s
  {
    if s != "" {
      CrWeight(s[1..]);
      assert s == [s[0]] + s[1..];
    }
  }

  predicate CrFree(lines: seq<string>) {
    forall i :: 0 <= i < |lines| ==> '\r' !in lines[i]
  }

  lemma {:induction false} CrFreeStandard(lines: seq<string>)
    requires CrFree(lines)
    ensures StandardWeight(lines, IsCr()) == 0
  {
    if lines != [] {
      CrFreeStandard(lines[1..]);
      var values := Values(StandardData(lines[0]));
      if values != [] {
        assert '\r' !in lines[0] && '\r' !in values[0];
        CrWeight(values[0]);
        assert WeighAll(values[1..], IsCr()) == 0 && IsCr()('\n') == 0;
      }
    }
  }

  predicate DataIsCrFree(rows: seq<Row>) {
    rows == [] || ((IsData(rows[0].line) ==> '\r' !in rows[0].line) && DataIsCrFree(rows[1..]))
  }

  lemma {:induction false} WeightlessData(rows: seq<Row>)
    requires DataWeight(LinesOf(rows), IsCr()) == 0
    ensures DataIsCrFree(rows)
  {
    if rows != [] {
      var line := rows[0].line;
      assert LinesOf(rows)[1..] == LinesOf(rows[1..]);
      WeightlessData(rows[1..]);
      if IsData(line) {
        var value := DataField(line).value;
        assert Values(DataField(line))[0] == value;
        CrWeight(value);
        assert line == line[..|line| - |value|] + value;
        assert forall i :: 0 <= i < |line| - |value| ==> line[i] == if i < 5 then "data:"[i] else ' ';
      }
    }
  }

  lemma {:induction false} PartsAreCrFree(rows: seq<Row>)
    requires AllLinked(rows)
    ensures CrFree(PartsOf(rows))
  {
    if rows != [] {
      PartsAreCrFree(rows[1..]);
    }
  }

  // ---------- no hidden data ----------

  function One(): char -> nat { c => 1 }

  lemma {:induction false} StandardWeightAppend(a: seq<string>, b: seq<string>, w: char -> nat)
    ensures StandardWeight(a + b, w) == StandardWeight(a, w) + StandardWeight(b, w)
  {
    if a == [] {
      assert a + b == b;
    } else {
      assert (a + b)[1..] == a[1..] + b;
      StandardWeightAppend(a[1..], b, w);
    }
  }

  lemma {:induction false} WeightlessParts(parts: seq<string>)
    ensures StandardWeight(parts, One()) == 0 <==> forall i :: 0 <= i < |parts| ==> StandardData(parts[i]).None?
  {
    if parts != [] {
      WeightlessParts(parts[1..]);
      assert forall i :: 1 <= i < |parts| ==> parts[i] == parts[1..][i - 1];
      assert StandardData(parts[0]).Some? ==> WeighAll(Values(StandardData(parts[0])), One()) > 0;
    }
  }

  /** A data line is not the last one when nothing is pending at the end, so the standard sees it too. */
  lemma DataRowIsWhole(rows: seq<Row>, pending: seq<string>)
    requires AllLinked(rows) && rows != [] && Leftover(LinesOf(rows), pending) == []
    requires IsData(rows[0].line) && '\r' !in rows[0].line
    ensures rows[0].parts == [rows[0].line]
  {
    assert LinesOf(rows)[1..] == LinesOf(rows[1..]);
  }

  lemma {:induction false} SameWeightSameData(rows: seq<Row>, pending: seq<string>)
    requires AllLinked(rows) && DataIsCrFree(rows) && Leftover(LinesOf(rows), pending) == []
    ensures StandardWeight(PartsOf(rows), One()) >= DataWeight(LinesOf(rows), One())
    ensures StandardWeight(PartsOf(rows), One()) == DataWeight(LinesOf(rows), One()) <==> AllAgree(rows)
  {
    if rows != [] {
      var row, rest := rows[0], rows[1..];
      assert LinesOf(rows)[1..] == LinesOf(rest);
      assert pending + [] == pending;
      SameWeightSameData(rest, if row.line == "" then [] else pending + Values(DataField(row.line)));
      StandardWeightAppend(row.parts, PartsOf(rest), One());
      WeightlessParts(row.parts);
      if IsData(row.line) {
        DataRowIsWhole(rows, pending);
        assert row.parts[1..] == [];
      }
    }
  }

  // ---------- no split frames ----------

  lemma {:induction false} LeftoverMatches(rows: seq<Row>, b: Block, pending: seq<string>)
    requires Matches(b, pending)
    ensures Matches(BlockAtEnd(rows, b), Leftover(LinesOf(rows), pending))
  {
    if rows != [] {
      var line := rows[0].line;
      assert LinesOf(rows)[1..] == LinesOf(rows[1..]);
      assert pending + [] == pending;
      LeftoverMatches(rows[1..], BlockAfter(b, rows[0]), if line == "" then [] else pending + Values(DataField(line)));
    }
  }

  /** Frames that the parser makes, from whether data is pending. */
  function FrameCount(lines: seq<string>, open: bool): nat {
    if lines == [] then if open then 1 else 0
    else if lines[0] == "" then (if open then 1 else 0) + FrameCount(lines[1..], false)
    else FrameCount(lines[1..], open || IsData(lines[0]))
  }

  function StandardCount(lines: seq<string>, open: bool): nat {
    if lines == [] then 0
    else if lines[0] == "" then (if open then 1 else 0) + StandardCount(lines[1..], false)
    else StandardCount(lines[1..], open || StandardData(lines[0]).Some?)
  }

  lemma {:induction false} FramesCounted(lines: seq<string>, pending: seq<string>)
    ensures |FramesFrom(lines, pending)| == FrameCount(lines, pending != [])
  {
    if lines != [] {
      FramesCounted(lines[1..], if lines[0] == "" then [] else pending + Values(DataField(lines[0])));
      assert pending + [] == pending;
    }
  }

  lemma {:induction false} StandardCounted(lines: seq<string>, pending: seq<string>)
    ensures |StandardFrom(lines, pending)| == StandardCount(lines, pending != [])
  {
    if lines != [] {
      StandardCounted(lines[1..], if lines[0] == "" then [] else pending + Values(StandardData(lines[0])));
      assert pending + [] == pending;
    }
  }

  lemma {:induction false} IgnoredPartsCount(parts: seq<string>, rest: seq<string>, open: bool)
    requires forall i :: 0 <= i < |parts| ==> StandardData(parts[i]).None?
    ensures StandardCount(parts + rest, open)
         == (if open && "" in parts then 1 else 0) + StandardCount(rest, open && "" !in parts)
  {
    if parts == [] {
      assert parts + rest == rest;
    } else {
      assert (parts + rest)[1..] == parts[1..] + rest;
      IgnoredPartsCount(parts[1..], rest, open && parts[0] != "");
    }
  }

  /** Each split makes one frame more for the standard. */
  lemma {:induction false} SplitsCount(rows: seq<Row>, b: Block, pending: seq<string>)
    requires AllLinked(rows) && AllAgree(rows) && Matches(b, pending) && Leftover(LinesOf(rows), pending) == []
    ensures var more := (if b.Dispatched? then 1 else 0) + StandardCount(PartsOf(rows), b.Pending?);
            && more >= FrameCount(LinesOf(rows), b != NoData)
            && (more == FrameCount(LinesOf(rows), b != NoData) <==> Unsplit(rows, b))
  {
    if rows != [] {
      var row, rest := rows[0], rows[1..];
      assert LinesOf(rows)[1..] == LinesOf(rest);
      assert pending + [] == pending;
      SplitsCount(rest, BlockAfter(b, row), if row.line == "" then [] else pending + Values(DataField(row.line)));
      if IsData(row.line) {
        DataRowIsWhole(rows, pending);
        assert PartsOf(rows)[1..] == PartsOf(rest);
      } else {
        IgnoredPartsCount(row.parts, PartsOf(rest), b.Pending?);
      }
    }
  }

  // ---------- conformance ----------

  lemma AgreementNeedsFaith(rows: seq<Row>)
    requires AllLinked(rows) && NothingPending(rows)
    requires FramesFrom(LinesOf(rows), []) == StandardFrom(PartsOf(rows), [])
    ensures AllAgree(rows) && Unsplit(rows, NoData)
  {
    FramesWeigh(LinesOf(rows), [], IsCr());
    StandardWeighs(PartsOf(rows), [], IsCr());
    PartsAreCrFree(rows);
    CrFreeStandard(PartsOf(rows));
    WeightlessData(rows);
    FramesWeigh(LinesOf(rows), [], One());
    StandardWeighs(PartsOf(rows), [], One());
    SameWeightSameData(rows, []);
    FramesCounted(LinesOf(rows), []);
    StandardCounted(PartsOf(rows), []);
    SplitsCount(rows, NoData, []);
  }

  /**
   When no data line follows the last blank line, in either reading, the parser agrees with
   the standard if and only if no data line contains a CR, no ignored line hides a data field
   behind a byte order mark, a CR or a missing colon, and no blank line between CRs splits a frame.
   */
  lemma ConformsExactlyWhenFaithful(text: string)
    requires NothingPending(Rows(text))
    ensures Frames(text) == StandardFrames(text) <==> Faithful(text)
  {
    var rows := Rows(text);
    RowsOfText(text);
    RowsAreLinked(if HasBom(text) then [BOM] else "", "", StripBom(text));
    LeftoverMatches(rows, NoData, []);
    if Faithful(text) {
      FaithfulTexts(text);
    } else if Frames(text) == StandardFrames(text) {
      AgreementNeedsFaith(rows);
    }
  }

  // ---------- a plain sufficient condition ----------

  predicate CrOnlyBeforeLf(text: string) {
    forall i :: 0 <= i < |text| && text[i] == '\r' ==> i + 1 < |text| && text[i + 1] == '\n'
  }

  predicate PlainRow(row: Row) {
    && '\r' !in row.line && row.line != "data"
    && (row.parts == [row.line] || row.parts == [])
    && (row.line == "" ==> row.parts == [""])
  }

  predicate PlainRows(rows: seq<Row>) {
    rows == [] || (PlainRow(rows[0]) && PlainRows(rows[1..]))
  }

  /** A CR of the line so far still waits for its LF, and it is the only one. */
  predicate OneCrAtMost(begun: string, text: string) {
    '\r' !in StripCr(begun) && (EndsInCr(begun) ==> text != "" && text[0] == '\n')
  }

  lemma PlainRest(text: string)
    requires text != "" && CrOnlyBeforeLf(text)
    ensures CrOnlyBeforeLf(text[1..])
  {
    assert forall i :: 0 <= i < |text| - 1 ==> text[1..][i] == text[i + 1];
  }

  lemma PlainLineRow(line: string)
    requires '\r' !in line && line != "data"
    ensures PlainRow(Row("" + line, SplitCr(line)))
    ensures line != "" ==> PlainRow(Row("" + line, Closed(SplitCr(line))))
  {
    assert "" + line == line;
    SplitCrParts(line);
  }

  lemma OneCrNext(begun: string, text: string)
    requires CrOnlyBeforeLf(text) && OneCrAtMost(begun, text) && text != "" && text[0] != '\n'
    ensures OneCrAtMost(begun + [text[0]], text[1..])
  {
    assert StripCr(begun + [text[0]]) == if text[0] == '\r' then begun else begun + [text[0]];
    assert text[0] == '\r' ==> text[1] == text[1..][0];
  }

  lemma {:induction false} PlainTextRows(begun: string, text: string)
    requires CrOnlyBeforeLf(text) && OneCrAtMost(begun, text)
    requires "data" !in LinesFrom(begun, text)
    ensures PlainRows(RowsFrom("", begun, text))
    decreases text
  {
    var rows, lines := RowsFrom("", begun, text), LinesFrom(begun, text);
    if text == "" {
      if begun != "" {
        assert lines[0] == begun && "" + begun == begun;
        PlainLineRow(begun);
      }
    } else {
      PlainRest(text);
      if text[0] == '\n' {
        assert lines[1..] == LinesFrom("", text[1..]) && lines[0] == StripCr(begun);
        PlainTextRows("", text[1..]);
        PlainLineRow(StripCr(begun));
        assert rows[1..] == RowsFrom("", "", text[1..]);
      } else {
        OneCrNext(begun, text);
        PlainTextRows(begun + [text[0]], text[1..]);
      }
    }
  }

  lemma {:induction false} PlainRowsAreFaithful(rows: seq<Row>, b: Block)
    requires PlainRows(rows) && !b.Dispatched?
    ensures AllAgree(rows) && Unsplit(rows, b) && !BlockAtEnd(rows, b).Dispatched?
  {
    if rows != [] {
      PlainRowsAreFaithful(rows[1..], BlockAfter(b, rows[0]));
    }
  }

  /**
   No byte order mark, CR only before LF, no line that is just "data": then the parser agrees with the
   standard if and only if no data line follows the last blank line.
   */
  lemma PlainTextsConform(text: string)
    requires !HasBom(text) && CrOnlyBeforeLf(text) && "data" !in Lines(text)
    ensures Frames(text) == StandardFrames(text) <==> Leftover(Lines(text), []) == []
  {
    PlainTextRows("", text);
    PlainRowsAreFaithful(Rows(text), NoData);
    FaithfulTexts(text);
    LeftoverMatches(Rows(text), NoData, []);
    RowsHaveLines("", "", text);
    assert "" + "" == "";
  }

  // ---------- each departure, at its texts ----------

  predicate OneLine(s: string) {
    '\n' !in s && '\r' !in s
  }

  lemma {:induction false} StandardLineAt(begun: string, line: string, end: char, rest: string)
    requires OneLine(line) && (end == '\n' || end == '\r')
    ensures StandardLines(begun, false, line + [end] + rest) == [begun + line] + StandardLines("", end == '\r', rest)
    decreases line
  {
    var text := line + [end] + rest;
    if line == "" {
      assert begun + line == begun;
      assert text[1..] == rest;
    } else {
      assert text[1..] == line[1..] + [end] + rest;
      assert begun + [line[0]] + line[1..] == begun + line;
      StandardLineAt(begun + [line[0]], line[1..], end, rest);
    }
  }

  lemma {:induction false} UnterminatedLine(begun: string, text: string)
    requires '\n' !in text && begun + text != ""
    ensures LinesFrom(begun, text) == [begun + text]
    decreases text
  {
    if text == "" {
      assert begun + text == begun;
    } else {
      assert begun + [text[0]] + text[1..] == begun + text;
      UnterminatedLine(begun + [text[0]], text[1..]);
    }
  }

  /** One line and a blank line, as both read it. */
  lemma LineAndBlank(line: string)
    requires OneLine(line)
    ensures Lines(line + "\n" + "\n") == [line, ""] == StandardLines("", false, line + "\n" + "\n")
  {
    FirstLine(line, "\n");
    FirstLine("", "");
    assert "" + "\n" + "" == "\n";
    StandardLineAt("", line, '\n', "\n");
    StandardLineAt("", "", '\n', "");
    assert line + ['\n'] + "\n" == line + "\n" + "\n" && "" + ['\n'] + "" == "\n";
    assert "" + line == line;
  }

  lemma FramesCons(line: string, rest: seq<string>, pending: seq<string>)
    ensures FramesFrom([line] + rest, pending)
         == if line == "" then Flush(pending) + FramesFrom(rest, [])
            else FramesFrom(rest, pending + Values(DataField(line)))
    ensures StandardFrom([line] + rest, pending)
         == if line == "" then Flush(pending) + StandardFrom(rest, [])
            else StandardFrom(rest, pending + Values(StandardData(line)))
  {
    assert ([line] + rest)[1..] == rest;
    assert pending + [] == pending;
  }

  /** What both make of one line, with and without a blank line after it. */
  lemma OneFrame(line: string)
    requires line != ""
    ensures FramesFrom([line], []) == FramesFrom([line, ""], []) == Flush(Values(DataField(line)))
    ensures StandardFrom([line], []) == []
    ensures StandardFrom([line, ""], []) == Flush(Values(StandardData(line)))
  {
    FramesCons(line, [], []);
    FramesCons(line, [""], []);
    FramesCons("", [], [] + Values(DataField(line)));
    FramesCons("", [], [] + Values(StandardData(line)));
    assert [line] + [] == [line] && [line] + [""] == [line, ""] && [""] + [] == [""];
    assert [] + Values(DataField(line)) == Values(DataField(line));
    assert [] + Values(StandardData(line)) == Values(StandardData(line));
  }

  lemma DataLine(x: string)
    ensures DataField("data: " + x) == Some(x) && StandardData("data: " + x) == Some(x)
  {
    assert ("data: " + x)[6..] == x;
  }

  /** A byte order mark hides the first data line. */
  lemma BomHidesData(x: string)
    requires OneLine(x)
    ensures var text := [BOM] + ("data: " + x + "\n" + "\n");
            Frames(text) == [] && StandardFrames(text) == [x]
  {
    var line := "data: " + x;
    var text := [BOM] + (line + "\n" + "\n");
    assert text == [BOM] + line + "\n" + "\n" && StripBom(text) == line + "\n" + "\n";
    LineAndBlank(line);
    LineAndBlank([BOM] + line);
    DataLine(x);
    OneFrame(line);
    OneFrame([BOM] + line);
    assert ([BOM] + line)[0] == BOM;
  }

  /** A lone CR does not end a line: it becomes part of the data, and two CRs do not end a frame. */
  lemma LoneCrIsData(x: string)
    requires OneLine(x)
    ensures var text := "data: " + x + "\r" + "\r";
            Frames(text) == [x + "\r" + "\r"] && StandardFrames(text) == [x]
  {
    var line := "data: " + x;
    var text := line + "\r" + "\r";
    UnterminatedLine("", text);
    assert "" + text == text == "data: " + (x + "\r" + "\r");
    DataLine(x + "\r" + "\r");
    OneFrame(text);
    StandardLineAt("", line, '\r', "\r");
    assert line + ['\r'] + "\r" == text && "" + line == line;
    assert StandardLines("", true, "\r") == [""];
    DataLine(x);
    OneFrame(line);
  }

  /** A data line without colon is ignored, though it is a frame of its own. */
  lemma BareDataIsIgnored()
    ensures var text := "data" + "\n" + "\n";
            Frames(text) == [] && StandardFrames(text) == [""]
  {
    LineAndBlank("data");
    OneFrame("data");
  }

  /** What is pending at the end is not dropped. */
  lemma LastFrameIsFlushed(x: string)
    requires OneLine(x)
    ensures var text := "data: " + x + "\n";
            Frames(text) == [x] && StandardFrames(text) == []
  {
    var line := "data: " + x;
    FirstLine(line, "");
    StandardLineAt("", line, '\n', "");
    assert line + "\n" + "" == line + "\n" == line + ['\n'] + "" && "" + line == line;
    DataLine(x);
    OneFrame(line);
  }

  lemma LinesAfterFrame(line: string, end: string)
    requires OneLine(line)
    ensures Lines(line + "\n" + ("\n" + end)) == [line] + ([""] + Lines(end))
    ensures StandardLines("", false, line + "\n" + ("\n" + end)) == [line] + ([""] + StandardLines("", false, end))
  {
    var tail := "\n" + end;
    FirstLine(line, tail);
    FirstLine("", end);
    StandardLineAt("", line, '\n', tail);
    StandardLineAt("", "", '\n', end);
    assert "" + "\n" + end == tail == "" + ['\n'] + end;
    assert line + ['\n'] + tail == line + "\n" + tail && "" + line == line;
  }

  // In the two lemmas below the bare line is a parameter that the requires fixes, so that the
  // verifier treats it as one value and does not evaluate it character by character.

  /** The first frame is bare; the parser drops it and the standard does not. */
  lemma BareFrameThen(bare: string, lines: seq<string>)
    requires bare == "data"
    ensures FramesFrom([bare] + ([""] + lines), []) == FramesFrom(lines, [])
    ensures StandardFrom([bare] + ([""] + lines), []) == [""] + StandardFrom(lines, [])
  {
    FramesCons(bare, [""] + lines, []);
    FramesCons("", lines, [] + Values(DataField(bare)));
    FramesCons("", lines, [] + Values(StandardData(bare)));
    assert [] + Values(DataField(bare)) == [] && [] + Values(StandardData(bare)) == [""];
    assert Flush([]) + FramesFrom(lines, []) == FramesFrom(lines, []);
  }

  /** Two departures can cancel: pending data at the end makes up for an ignored data line. */
  lemma DeparturesCanCancel(bare: string)
    requires bare == "data"
    ensures var text := bare + "\n" + ("\n" + ("data: " + "" + "\n"));
            !Faithful(text) && Frames(text) == [""] == StandardFrames(text)
  {
    var end := "data: " + "" + "\n";
    var text := bare + "\n" + ("\n" + end);
    LinesAfterFrame(bare, end);
    BareFrameThen(bare, Lines(end));
    BareFrameThen(bare, StandardLines("", false, end));
    LastFrameIsFlushed("");
    FirstRow(bare, "\n" + end);
  }

  lemma {:induction false} FirstRowFrom(begun: string, line: string, rest: string)
    requires OneLine(begun) && OneLine(line)
    ensures var rows := RowsFrom("", begun, line + "\n" + rest);
            rows != [] && rows[0] == Row(begun + line, [begun + line])
    decreases line
  {
    var text := line + "\n" + rest;
    if line == "" {
      assert begun + line == begun == "" + begun;
      SplitCrParts(begun);
    } else {
      assert text[1..] == line[1..] + "\n" + rest;
      assert begun + [line[0]] + line[1..] == begun + line;
      FirstRowFrom(begun + [line[0]], line[1..], rest);
    }
  }

  lemma FirstRow(line: string, rest: string)
    requires OneLine(line) && line != "" && line[0] != BOM
    ensures var rows := Rows(line + "\n" + rest);
            rows != [] && rows[0] == Row(line, [line])
  {
    FirstRowFrom("", line, rest);
    assert "" + line == line;
  }
}
