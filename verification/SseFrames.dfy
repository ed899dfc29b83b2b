/**
 The frame parser under both stream observers (agent/tool_observer.rs), and the printer
 that providers write streams with.

 A frame is the text of one event: its data lines joined by LF.
 */
module SseFrames {
  import opened Wrappers

  // ---------- lines ----------

  predicate EndsInCr(line: string) {
    line != "" && line[|line| - 1] == '\r'
  }

  function StripCr(line: string): string {
    if EndsInCr(line) then line[..|line| - 1] else line
  }

  /** LF ends a line and takes one CR before it along; a last line without LF is kept as it is. */
  function Lines(text: string): seq<string> {
    LinesFrom("", text)
  }

  /** Lines of the text whose first line began with the given characters. */
  function LinesFrom(begun: string, text: string): seq<string>
    decreases text
  {
    if text == "" then if begun == "" then [] else [begun]
    else if text[0] == '\n' then [StripCr(begun)] + LinesFrom("", text[1..])
    else LinesFrom(begun + [text[0]], text[1..])
  }

  // ---------- parsing ----------

  /** The payload of a data line, without one leading space; none for any other line. */
  function DataField(line: string): Option<string> {
    if "data:" <= line then
      Some(if |line| > 5 && line[5] == ' ' then line[6..] else line[5..])
    else None
  }

  function JoinLf(parts: seq<string>): string {
    if parts == [] then ""
    else if |parts| == 1 then parts[0]
    else parts[0] + "\n" + JoinLf(parts[1..])
  }

  function Flush(pending: seq<string>): seq<string> {
    if pending == [] then [] else [JoinLf(pending)]
  }

  /** Frames completed by these lines, given the data lines already pending. */
  function FramesFrom(lines: seq<string>, pending: seq<string>): seq<string> {
    if lines == [] then Flush(pending)
    else if lines[0] == "" then Flush(pending) + FramesFrom(lines[1..], [])
    else
      var field := DataField(lines[0]);
      FramesFrom(lines[1..], if field.Some? then pending + [field.value] else pending)
  }

  function Frames(text: string): seq<string> {
    FramesFrom(Lines(text), [])
  }

  /** Both observers skip larger bodies and read no further frames. */
  const MAX_BODY_BYTES := 1024 * 1024
  const MAX_FRAMES := 128

  function TakeFrames(text: string): seq<string> {
    Frames(text)[..Min(|Frames(text)|, MAX_FRAMES)]
  }

  method ParseSseDataFrames(text: string) returns (frames: seq<string>)
    ensures frames == Frames(text)
  {
    var lines := Lines(text);
    var dataLines := [];
    frames := [];
    for i := 0 to |lines|
      invariant frames + FramesFrom(lines[i..], dataLines) == Frames(text)
    {
      var line := lines[i];
      assert lines[i..][0] == line && lines[i..][1..] == lines[i + 1..];
      if line == "" {
        ghost var rest := FramesFrom(lines[i + 1..], []);
        assert frames + (Flush(dataLines) + rest) == frames + Flush(dataLines) + rest;
        if dataLines != [] {
          frames := frames + [JoinLf(dataLines)];
          dataLines := [];
        }
        continue;
      }
      if ":" <= line {
        assert line[0] == ':' && "data:"[0] == 'd';
        continue;
      }
      if "data:" <= line {
        var data := line[5..];
        dataLines := dataLines + [if " " <= data then data[1..] else data];
      }
    }
    if dataLines != [] {
      frames := frames + [JoinLf(dataLines)];
    }
  }

  // ---------- printing ----------

  /** The lines of one frame, of which the first began with the given characters. */
  function SplitLf(begun: string, frame: string): (parts: seq<string>)
    requires '\n' !in begun
    ensures parts != []
    ensures forall i :: 0 <= i < |parts| ==> '\n' !in parts[i]
    decreases frame
  {
    if frame == "" then [begun]
    else if frame[0] == '\n' then [begun] + SplitLf("", frame[1..])
    else SplitLf(begun + [frame[0]], frame[1..])
  }

  function PrintData(parts: seq<string>): string {
    if parts == [] then "" else "data: " + parts[0] + "\n" + PrintData(parts[1..])
  }

  /** A frame as a provider sends it, with or without an event name. */
  datatype Printed = Printed(event: Option<string>, data: string)

  function PrintEvent(event: Option<string>): string {
    if event.Some? then "event: " + event.value + "\n" else ""
  }

  /** An event line if there is a name, one "data: " line per line of the frame, then a blank line. */
  function PrintFrames(frames: seq<Printed>): string {
    if frames == [] then ""
    else PrintEvent(frames[0].event) + (PrintData(SplitLf("", frames[0].data)) + "\n" + PrintFrames(frames[1..]))
  }

  predicate NamesAreLines(frames: seq<Printed>) {
    forall i :: 0 <= i < |frames| && frames[i].event.Some? ==> '\n' !in frames[i].event.value
  }

  /** A frame as it comes back: each of its lines loses one trailing CR. */
  function DropLineCrs(frame: string): string {
    if frame == "" then ""
    else if frame[0] == '\r' && (|frame| == 1 || frame[1] == '\n') then DropLineCrs(frame[1..])
    else [frame[0]] + DropLineCrs(frame[1..])
  }

  /** No CR stands right before an LF or at the end. */
  predicate NoLineEndCr(frame: string) {
    !EndsInCr(frame) && NoCrLf(frame)
  }

  predicate NoCrLf(text: string) {
    forall i :: 0 <= i < |text| - 1 && text[i] == '\r' ==> text[i + 1] != '\n'
  }

  // ---------- how lines compose ----------

  lemma {:induction false} TerminatedLine(begun: string, line: string, rest: string)
    requires '\n' !in line
    ensures LinesFrom(begun, line + "\n" + rest) == [StripCr(begun + line)] + Lines(rest)
    decreases line
  {
    var text := line + "\n" + rest;
    if line == "" {
      assert begun + line == begun;
      assert text[1..] == rest;
    } else {
      assert text[1..] == line[1..] + "\n" + rest;
      assert begun + [line[0]] + line[1..] == begun + line;
      TerminatedLine(begun + [line[0]], line[1..], rest);
    }
  }

  lemma {:induction false} LinesAppend(begun: string, u: string, v: string)
    requires u != "" && u[|u| - 1] == '\n'
    ensures LinesFrom(begun, u + v) == LinesFrom(begun, u) + Lines(v)
    decreases u
  {
    assert (u + v)[1..] == u[1..] + v;
    if |u| == 1 {
      assert (u + v)[1..] == v && u[1..] == "";
    } else if u[0] == '\n' {
      LinesAppend("", u[1..], v);
    } else {
      LinesAppend(begun + [u[0]], u[1..], v);
    }
  }

  lemma FirstLine(line: string, rest: string)
    requires '\n' !in line
    ensures Lines(line + "\n" + rest) == [StripCr(line)] + Lines(rest)
  {
    TerminatedLine("", line, rest);
    assert "" + line == line;
  }

  lemma WholeLines(u: string, v: string)
    requires u == "" || u[|u| - 1] == '\n'
    ensures Lines(u + v) == Lines(u) + Lines(v)
  {
    if u == "" {
      assert u + v == v;
    } else {
      LinesAppend("", u, v);
    }
  }

  // ---------- round trip ----------

  lemma {:induction false} FramesOfPrintedData(parts: seq<string>, pending: seq<string>, rest: string)
    requires forall i :: 0 <= i < |parts| ==> '\n' !in parts[i]
    ensures FramesFrom(Lines(PrintData(parts) + "\n" + rest), pending)
         == Flush(pending + StripEach(parts)) + Frames(rest)
  {
    if parts == [] {
      FirstLine("", rest);
      assert PrintData(parts) + "\n" + rest == "" + "\n" + rest;
      assert pending + StripEach(parts) == pending;
    } else {
      var line := "data: " + parts[0];
      var tail := PrintData(parts[1..]) + "\n" + rest;
      assert PrintData(parts) + "\n" + rest == line + "\n" + tail;
      FirstLine(line, tail);
      assert StripCr(line) == "data: " + StripCr(parts[0]);
      assert DataField(StripCr(line)) == Some(StripCr(parts[0]));
      FramesOfPrintedData(parts[1..], pending + [StripCr(parts[0])], rest);
      assert pending + [StripCr(parts[0])] + StripEach(parts[1..]) == pending + StripEach(parts);
    }
  }

  function StripEach(parts: seq<string>): seq<string> {
    if parts == [] then [] else [StripCr(parts[0])] + StripEach(parts[1..])
  }

  lemma {:induction false} JoinOfSplit(begun: string, frame: string)
    requires '\n' !in begun
    ensures JoinLf(StripEach(SplitLf(begun, frame))) == DropLineCrs(begun + frame)
    decreases frame
  {
    if frame == "" {
      assert begun + frame == begun;
      DropAtEnd(begun);
    } else if frame[0] == '\n' {
      JoinOfSplit("", frame[1..]);
      assert "" + frame[1..] == frame[1..];
      JoinAtLf(begun, SplitLf("", frame[1..]), frame[1..]);
      assert begun + frame == begun + "\n" + frame[1..];
    } else {
      JoinOfSplit(begun + [frame[0]], frame[1..]);
      assert begun + [frame[0]] + frame[1..] == begun + frame;
    }
  }

  lemma JoinAtLf(first: string, parts: seq<string>, rest: string)
    requires '\n' !in first && parts != []
    requires JoinLf(StripEach(parts)) == DropLineCrs(rest)
    ensures JoinLf(StripEach([first] + parts)) == DropLineCrs(first + "\n" + rest)
  {
    JoinStripped(first, parts);
    DropAtLf(first, rest);
  }

  lemma {:induction false} JoinStripped(first: string, parts: seq<string>)
    requires parts != []
    ensures JoinLf(StripEach([first] + parts)) == StripCr(first) + "\n" + JoinLf(StripEach(parts))
  {
    assert ([first] + parts)[1..] == parts;
    var stripped := StripEach(parts);
    assert StripEach([first] + parts) == [StripCr(first)] + stripped;
    assert ([StripCr(first)] + stripped)[1..] == stripped;
  }

  lemma {:induction false} DropAtEnd(line: string)
    requires '\n' !in line
    ensures DropLineCrs(line) == StripCr(line)
  {
    if line != "" {
      DropAtEnd(line[1..]);
    }
  }

  lemma {:induction false} DropAtLf(line: string, rest: string)
    requires '\n' !in line
    ensures DropLineCrs(line + "\n" + rest) == StripCr(line) + "\n" + DropLineCrs(rest)
  {
    var text := line + "\n" + rest;
    if line == "" {
      assert text[1..] == rest;
    } else {
      assert text[1..] == line[1..] + "\n" + rest;
      DropAtLf(line[1..], rest);
    }
  }

  lemma EventLineIgnored(event: Option<string>, rest: string)
    requires event.Some? ==> '\n' !in event.value
    ensures Frames(PrintEvent(event) + rest) == Frames(rest)
  {
    if event.Some? {
      var line := "event: " + event.value;
      assert StripCr(line) != "" && StripCr(line)[0] == 'e' && "data:"[0] == 'd';
      IgnoredLineInText("", line, rest);
      assert "" + line + "\n" + rest == PrintEvent(event) + rest && "" + rest == rest;
    } else {
      assert "" + rest == rest;
    }
  }

  lemma FirstPrinted(frame: Printed, rest: string)
    requires frame.event.Some? ==> '\n' !in frame.event.value
    ensures Frames(PrintEvent(frame.event) + (PrintData(SplitLf("", frame.data)) + "\n" + rest))
         == [DropLineCrs(frame.data)] + Frames(rest)
  {
    var parts := SplitLf("", frame.data);
    EventLineIgnored(frame.event, PrintData(parts) + "\n" + rest);
    FramesOfPrintedData(parts, [], rest);
    JoinOfSplit("", frame.data);
    assert "" + frame.data == frame.data;
    assert [] + StripEach(parts) == StripEach(parts);
  }

  /** What any printed list of frames parses back to. */
  lemma {:induction false} ParsePrinted(frames: seq<Printed>)
    requires NamesAreLines(frames)
    ensures Frames(PrintFrames(frames)) == seq(|frames|, i requires 0 <= i < |frames| => DropLineCrs(frames[i].data))
  {
    if frames != [] {
      FirstPrinted(frames[0], PrintFrames(frames[1..]));
      ParsePrinted(frames[1..]);
    }
  }

  lemma {:induction false} DropLineCrsFixedPoint(frame: string)
    ensures |DropLineCrs(frame)| <= |frame|
    ensures DropLineCrs(frame) == frame <==> NoLineEndCr(frame)
  {
    if frame != "" {
      var rest := frame[1..];
      DropLineCrsFixedPoint(rest);
      assert NoLineEndCr(frame) <==>
             !(frame[0] == '\r' && (|frame| == 1 || frame[1] == '\n')) && NoLineEndCr(rest)
      by {
        NoCrLfStep(frame);
      }
    }
  }

  lemma NoCrLfStep(text: string)
    requires text != ""
    ensures NoCrLf(text) <==> !(|text| > 1 && text[0] == '\r' && text[1] == '\n') && NoCrLf(text[1..])
  {
    var rest := text[1..];
    assert forall i :: 0 <= i < |rest| ==> rest[i] == text[i + 1];
    if NoCrLf(text) {
      forall i | 0 <= i < |rest| - 1 && rest[i] == '\r' ensures rest[i + 1] != '\n' {
        assert text[i + 1] == '\r';
      }
    } else {
      var i :| 0 <= i < |text| - 1 && text[i] == '\r' && text[i + 1] == '\n';
      if i > 0 {
        assert rest[i - 1] == '\r' && rest[i] == '\n';
      }
    }
  }

  /** Parsing undoes printing exactly for the frames whose lines do not end in CR. */
  lemma RoundTrip(frames: seq<Printed>)
    requires NamesAreLines(frames)
    ensures Frames(PrintFrames(frames)) == seq(|frames|, i requires 0 <= i < |frames| => frames[i].data)
       <==> forall i :: 0 <= i < |frames| ==> NoLineEndCr(frames[i].data)
  {
    ParsePrinted(frames);
    forall i | 0 <= i < |frames|
      ensures DropLineCrs(frames[i].data) == frames[i].data <==> NoLineEndCr(frames[i].data)
    {
      DropLineCrsFixedPoint(frames[i].data);
    }
    var back := Frames(PrintFrames(frames));
    if back == seq(|frames|, i requires 0 <= i < |frames| => frames[i].data) {
      forall i | 0 <= i < |frames| ensures NoLineEndCr(frames[i].data) {
        assert back[i] == DropLineCrs(frames[i].data);
      }
    }
  }

  // ---------- line endings ----------

  /** Every LF written as CR LF. */
  function ToCrLf(text: string): string {
    if text == "" then ""
    else if text[0] == '\n' then "\r\n" + ToCrLf(text[1..])
    else [text[0]] + ToCrLf(text[1..])
  }

  /** Turning LF into CR LF leaves the lines alone exactly when no CR LF was there before. */
  lemma {:induction false} CrLfKeepsLines(begun: string, text: string)
    ensures LinesFrom(begun, ToCrLf(text)) == LinesFrom(begun, text)
       <==> NoCrLf(text) && !(EndsInCr(begun) && text != "" && text[0] == '\n')
    decreases text
  {
    if text == "" {
    } else if text[0] == '\n' {
      var rest := text[1..];
      CrLfKeepsLines("", rest);
      NoCrLfStep(text);
      FirstLineOf(begun, ToCrLf(rest));
      var crlf, lf := LinesFrom(begun, ToCrLf(text)), LinesFrom(begun, text);
      assert crlf == [begun] + LinesFrom("", ToCrLf(rest));
      assert crlf[1..] == LinesFrom("", ToCrLf(rest)) && lf[1..] == LinesFrom("", rest);
      assert crlf == lf <==> crlf[0] == lf[0] && crlf[1..] == lf[1..];
    } else {
      assert ToCrLf(text)[1..] == ToCrLf(text[1..]);
      CrLfKeepsLines(begun + [text[0]], text[1..]);
      NoCrLfStep(text);
    }
  }

  lemma FirstLineOf(begun: string, rest: string)
    ensures LinesFrom(begun, "\r\n" + rest) == [begun] + Lines(rest)
  {
    assert "\r\n" + rest == "\r" + "\n" + rest;
    TerminatedLine(begun, "\r", rest);
    assert StripCr(begun + "\r") == begun;
  }

  lemma CrLfInvariance(text: string)
    requires NoCrLf(text)
    ensures Frames(ToCrLf(text)) == Frames(text)
  {
    CrLfKeepsLines("", text);
  }

  // ---------- ignored lines ----------

  lemma {:induction false} IgnoredLine(before: seq<string>, line: string, after: seq<string>, pending: seq<string>)
    requires line != "" && DataField(line).None?
    ensures FramesFrom(before + [line] + after, pending) == FramesFrom(before + after, pending)
  {
    if before == [] {
      assert ([] + [line] + after)[1..] == after == [] + after;
    } else {
      var field := DataField(before[0]);
      assert (before + [line] + after)[1..] == before[1..] + [line] + after;
      assert (before + after)[1..] == before[1..] + after;
      IgnoredLine(before[1..], line, after, []);
      IgnoredLine(before[1..], line, after, if field.Some? then pending + [field.value] else pending);
    }
  }

  /** A whole comment, event, id or retry line can be added or removed anywhere between lines. */
  lemma {:induction false} IgnoredLineInText(u: string, line: string, v: string)
    requires u == "" || u[|u| - 1] == '\n'
    requires '\n' !in line
    requires StripCr(line) != "" && DataField(StripCr(line)).None?
    ensures Frames(u + line + "\n" + v) == Frames(u + v)
  {
    calc {
      Frames(u + line + "\n" + v);
      { assert u + line + "\n" + v == u + (line + "\n" + v); }
      Frames(u + (line + "\n" + v));
      { WholeLines(u, line + "\n" + v); }
      FramesFrom(Lines(u) + Lines(line + "\n" + v), []);
      { FirstLine(line, v); }
      FramesFrom(Lines(u) + ([StripCr(line)] + Lines(v)), []);
      { assert Lines(u) + ([StripCr(line)] + Lines(v)) == Lines(u) + [StripCr(line)] + Lines(v); }
      FramesFrom(Lines(u) + [StripCr(line)] + Lines(v), []);
      { IgnoredLine(Lines(u), StripCr(line), Lines(v), []); }
      FramesFrom(Lines(u) + Lines(v), []);
      { WholeLines(u, v); }
      Frames(u + v);
    }
  }
}
