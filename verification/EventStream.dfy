/**
 The wire between a child's event endpoint and its parent's reader: Server-Sent Events, sections
 9.2.5 and 9.2.6 of the WHATWG HTML Living Standard (internal/supervisorapi/events.go:62-91,
 internal/supervisorapi/client.go:193-206 and 264-305).

 Characters stand for bytes. JSON encoding is a parameter; what the reader would decode is the
 body, the text between two blank lines.
*/
module EventStream {

  const MAX_LINE: nat := 13631488   // 12 MiB + 1 MiB, also the bound on one event's data

  datatype Event = Event(seqNo: nat, kind: string, body: string)

  // ---------------------------------------------------------------- writing

  function Digits(n: nat): (s: string)
    ensures |s| > 0 && forall c | c in s :: '0' <= c <= '9'
  {
    var digit := ['0' + (n % 10) as char];
    if n < 10 then digit else Digits(n / 10) + digit
  }

  /** CR and LF are removed from a kind before it is written. */
  function Strip(kind: string): (s: string)
    ensures |s| <= |kind| && '\n' !in s && '\r' !in s
  {
    if kind == "" then ""
    else if kind[0] == '\r' || kind[0] == '\n' then Strip(kind[1..])
    else [kind[0]] + Strip(kind[1..])
  }

  function IdLine(e: Event): string { "id: " + Digits(e.seqNo) }
  function EventLine(e: Event): string { "event: " + Strip(e.kind) }
  function DataLine(e: Event): string { "data: " + e.body }

  function Frame(e: Event): string {
    IdLine(e) + "\n" + (EventLine(e) + "\n" + (DataLine(e) + "\n" + "\n"))
  }

  function Frames(events: seq<Event>): string {
    if events == [] then "" else Frame(events[0]) + Frames(events[1..])
  }

  method ServeEvents(replay: seq<Event>, live: seq<Event>) returns (wire: string)
    ensures wire == Frames(replay + live)
  {
    hide Frame;
    wire := WriteAll("", [], replay);
    assert [] + replay == replay;
    wire := WriteAll(wire, replay, live);
  }

  method WriteAll(before: string, ghost written: seq<Event>, events: seq<Event>) returns (wire: string)
    requires before == Frames(written)
    ensures wire == Frames(written + events)
  {
    hide Frame, Frames;
    wire := before;
    assert written + events[..0] == written;
    for i := 0 to |events|
      invariant wire == Frames(written + events[..i])
    {
      FramesAppend(written + events[..i], events[i]);
      assert written + events[..i + 1] == written + events[..i] + [events[i]];
      wire := wire + Frame(events[i]);
    }
    assert events[..|events|] == events;
  }

  lemma {:induction false} FramesAppend(events: seq<Event>, e: Event)
    ensures Frames(events + [e]) == Frames(events) + Frame(e)
  {
    hide Frame;
    if events != [] {
      assert (events + [e])[1..] == events[1..] + [e];
      FramesAppend(events[1..], e);
    }
  }

  // ---------------------------------------------------------------- reading

  /** Position of the first line feed, or the length. */
  function LineEnd(text: string): (n: nat)
    ensures n <= |text| && '\n' !in text[..n]
    ensures n < |text| ==> text[n] == '\n'
  {
    if text == "" || text[0] == '\n' then 0
    else
      var n := LineEnd(text[1..]);
      assert text[..n + 1] == [text[0]] + text[1..][..n];
      n + 1
  }

  /** The scanner's raw lines; an unfinished last line is a line, an empty one is not. */
  function Lines(text: string): seq<string>
    decreases |text|
  {
    if text == "" then []
    else
      var n := LineEnd(text);
      [text[..n]] + (if n < |text| then Lines(text[n + 1..]) else [])
  }

  function DropCR(line: string): string {
    if line != "" && line[|line| - 1] == '\r' then line[..|line| - 1] else line
  }

  predicate IsSpace(c: char) { c in {' ', '\t', '\n', '\r', '\U{0B}', '\U{0C}'} }

  function TrimLeft(s: string): string {
    if s != "" && IsSpace(s[0]) then TrimLeft(s[1..]) else s
  }

  function TrimRight(s: string): string {
    if s != "" && IsSpace(s[|s| - 1]) then TrimRight(s[..|s| - 1]) else s
  }

  function TrimSpace(s: string): string { TrimRight(TrimLeft(s)) }

  predicate IsDataLine(line: string) { "data:" <= line }

  /** Appending a data line's value to what the event holds so far, or None when the bound is exceeded. */
  datatype Appended = TooLong | Appended(data: string)

  function AppendData(data: string, value: string): Appended {
    if |value| + (if |data| > 0 then 1 else 0) > MAX_LINE - |data| then TooLong
    else Appended(if |data| > 0 then data + "\n" + value else value)
  }

  /** The bodies handed to the decoder, and whether the reader gave up. */
  datatype Reading = Reading(bodies: seq<string>, failed: bool)

  function Read(lines: seq<string>, data: string): Reading {
    if lines == [] then Reading([], false)
    else if |lines[0]| >= MAX_LINE then Reading([], true)
    else
      var line := DropCR(lines[0]);
      if line == "" then
        if data == "" then Read(lines[1..], "")
        else
          var rest := Read(lines[1..], "");
          Reading([data] + rest.bodies, rest.failed)
      else if IsDataLine(line) then
        match AppendData(data, TrimSpace(line[5..]))
        case TooLong => Reading([], true)
        case Appended(longer) => Read(lines[1..], longer)
      else Read(lines[1..], data)
  }

  method ReadStream(text: string) returns (bodies: seq<string>, failed: bool)
    ensures Reading(bodies, failed) == Read(Lines(text), "")
  {
    var rest, data := text, "";
    bodies, failed := [], false;
    while rest != ""
      invariant var left := Read(Lines(rest), data);
                Read(Lines(text), "") == Reading(bodies + left.bodies, left.failed)
      decreases |rest|
    {
      var n := LineEnd(rest);
      var raw := rest[..n];
      ghost var lines := Lines(rest);
      rest := if n < |rest| then rest[n + 1..] else "";
      assert lines[0] == raw && lines[1..] == Lines(rest);
      if |raw| >= MAX_LINE {
        return bodies, true;
      }
      var line := DropCR(raw);
      if line == "" {
        if data == "" {
          continue;
        }
        bodies := bodies + [data];
        data := "";
        continue;
      }
      if IsDataLine(line) {
        var appended := AppendData(data, TrimSpace(line[5..]));
        if appended.TooLong? {
          return bodies, true;
        }
        data := appended.data;
      }
    }
  }

  // ---------------------------------------------------------------- what is read, without reading

  predicate Blank(line: string) { DropCR(line) == "" }

  /** The trimmed values of the data lines, in order. */
  function Values(lines: seq<string>): seq<string> {
    if lines == [] then []
    else (if IsDataLine(DropCR(lines[0])) then [TrimSpace(DropCR(lines[0])[5..])] else []) + Values(lines[1..])
  }

  function Tail(values: seq<string>): string {
    if values == [] then "" else "\n" + values[0] + Tail(values[1..])
  }

  /** Values joined by line feeds; those that are empty at the start leave no trace. */
  function Joined(values: seq<string>): string {
    if values == [] then ""
    else if values[0] == "" then Joined(values[1..])
    else values[0] + Tail(values[1..])
  }

  /** What follows the last blank line. */
  function AfterBlank(lines: seq<string>): seq<string> {
    if lines == [] || Blank(lines[|lines| - 1]) then []
    else AfterBlank(lines[..|lines| - 1]) + [lines[|lines| - 1]]
  }

  lemma {:induction false} AfterBlankExactly(before: seq<string>, open: seq<string>)
    requires before == [] || Blank(before[|before| - 1])
    requires forall line | line in open :: !Blank(line)
    ensures AfterBlank(before + open) == open
    decreases |open|
  {
    hide Blank;
    if open == [] {
      assert before + open == before;
    } else {
      var n := |open| - 1;
      assert open == open[..n] + [open[n]];
      assert (before + open)[..|before| + n] == before + open[..n];
      AfterBlankExactly(before, open[..n]);
    }
  }

  function Held(lines: seq<string>): string { Joined(Values(AfterBlank(lines))) }

  /** A line, or the event it belongs to, is longer than the reader takes. */
  ghost predicate Overflows(lines: seq<string>, k: nat)
    requires k < |lines|
  {
    |lines[k]| >= MAX_LINE || |Held(lines[..k + 1])| > MAX_LINE
  }

  /** Every blank line from k to n ends an event, unless none has begun. */
  ghost function Ended(lines: seq<string>, k: nat, n: nat): seq<string>
    requires k <= n <= |lines|
    decreases n - k
  {
    if k == n then []
    else (if Blank(lines[k]) && Held(lines[..k]) != "" then [Held(lines[..k])] else []) + Ended(lines, k + 1, n)
  }

  lemma {:induction false} ValuesAppend(lines: seq<string>, line: string)
    ensures Values(lines + [line]) ==
            Values(lines) + if IsDataLine(DropCR(line)) then [TrimSpace(DropCR(line)[5..])] else []
  {
    hide DropCR, TrimSpace;
    if lines == [] {
      assert lines + [line] == [line] && [line][1..] == [];
    } else {
      assert (lines + [line])[1..] == lines[1..] + [line];
      ValuesAppend(lines[1..], line);
    }
  }

  lemma {:induction false} TailAppend(values: seq<string>, value: string)
    ensures Tail(values + [value]) == Tail(values) + "\n" + value
  {
    if values == [] {
      assert values + [value] == [value] && [value][1..] == [];
    } else {
      assert (values + [value])[1..] == values[1..] + [value];
      TailAppend(values[1..], value);
    }
  }

  lemma {:induction false} JoinedAppend(values: seq<string>, value: string)
    ensures Joined(values + [value]) == if Joined(values) == "" then value else Joined(values) + "\n" + value
  {
    if values == [] {
      assert values + [value] == [value] && [value][1..] == [];
    } else {
      assert (values + [value])[1..] == values[1..] + [value];
      if values[0] == "" {
        JoinedAppend(values[1..], value);
      } else {
        TailAppend(values[1..], value);
      }
    }
  }

  lemma AfterBlankStep(lines: seq<string>, line: string)
    ensures AfterBlank(lines + [line]) == if Blank(line) then [] else AfterBlank(lines) + [line]
  {
    assert (lines + [line])[..|lines|] == lines;
  }

  lemma HeldStep(lines: seq<string>, k: nat)
    requires k < |lines|
    ensures var line, held := DropCR(lines[k]), Held(lines[..k]);
            Held(lines[..k + 1]) ==
            if line == "" then ""
            else if !IsDataLine(line) then held
            else if held == "" then TrimSpace(line[5..])
            else held + "\n" + TrimSpace(line[5..])
  {
    hide DropCR, TrimSpace, Joined, Values, AfterBlank;
    var line := lines[k];
    assert lines[..k + 1] == lines[..k] + [line];
    assert AfterBlank(lines[..k + 1]) == if Blank(line) then [] else AfterBlank(lines[..k]) + [line] by {
      AfterBlankStep(lines[..k], line);
    }
    var open := AfterBlank(lines[..k]);
    ValuesAppend(open, line);
    if IsDataLine(DropCR(line)) {
      JoinedAppend(Values(open), TrimSpace(DropCR(line)[5..]));
    } else {
      assert Values(open) + [] == Values(open);
    }
    assert Joined(Values([])) == "" by { NothingHeld(); }
  }

  lemma NothingHeld()
    ensures Joined(Values([])) == "" && AfterBlank([]) == []
  {
  }

  lemma {:induction false} ReadFrom(lines: seq<string>, k: nat, n: nat)
    requires k <= n <= |lines|
    requires |Held(lines[..k])| <= MAX_LINE && forall j | k <= j < n :: !Overflows(lines, j)
    requires n == |lines| || Overflows(lines, n)
    ensures Read(lines[k..], Held(lines[..k])) == Reading(Ended(lines, k, n), n < |lines|)
    decreases n - k
  {
    hide Held, DropCR, TrimSpace;
    var held := Held(lines[..k]);
    if k < |lines| {
      HeldStep(lines, k);
      assert lines[k..][0] == lines[k] && lines[k..][1..] == lines[k + 1..];
      if k < n {
        assert !Overflows(lines, k);
        ReadFrom(lines, k + 1, n);
      }
    }
  }

  /**
   The reader fails exactly when some line, or the event it belongs to, is too long. Up to there every blank
   line hands on the values of the data lines since the blank line before, joined by line feeds, if there is
   anything to hand on.
  */
  lemma ReadExactly(lines: seq<string>, n: nat)
    requires n <= |lines| && forall j | 0 <= j < n :: !Overflows(lines, j)
    requires n == |lines| || Overflows(lines, n)
    ensures Read(lines, "") == Reading(Ended(lines, 0, n), n < |lines|)
  {
    assert lines[..0] == [] && lines[0..] == lines;
    NothingHeld();
    ReadFrom(lines, 0, n);
  }

  // ---------------------------------------------------------------- the reader inverts the writer

  /** What JSON encoding guarantees of a body, and the reader's size bound on every line. */
  predicate Encodable(e: Event) {
    && |e.body| >= 2 && e.body[0] == '{' && e.body[|e.body| - 1] == '}' && '\n' !in e.body
    && |DataLine(e)| < MAX_LINE && |EventLine(e)| < MAX_LINE && |IdLine(e)| < MAX_LINE
  }

  function BodiesOf(events: seq<Event>): (bodies: seq<string>)
    ensures |bodies| == |events|
  {
    if events == [] then [] else [events[0].body] + BodiesOf(events[1..])
  }

  lemma {:induction false} FirstLineEnd(line: string, rest: string)
    requires '\n' !in line
    ensures LineEnd(line + "\n" + rest) == LineEnd(line) == |line|
  {
    if line != "" {
      assert line[0] in line;
      assert (line + "\n" + rest)[1..] == line[1..] + "\n" + rest;
      FirstLineEnd(line[1..], rest);
    }
  }

  lemma FirstLine(line: string, rest: string)
    requires '\n' !in line
    ensures Lines(line + "\n" + rest) == [line] + Lines(rest)
  {
    var text := line + "\n" + rest;
    FirstLineEnd(line, rest);
    hide LineEnd;
    assert text[|line| + 1..] == rest && text[..|line|] == line;
  }

  lemma OnlyLine(line: string)
    requires '\n' !in line && line != ""
    ensures Lines(line) == Lines(line + "\n") == [line]
  {
    FirstLineEnd(line, "");
    FirstLine(line, "");
    assert line + "\n" + "" == line + "\n";
    assert line[..|line|] == line;
  }

  lemma PlainLines(e: Event)
    requires Encodable(e)
    ensures '\n' !in IdLine(e) && '\n' !in EventLine(e) && '\n' !in DataLine(e)
    ensures DropCR(DataLine(e)) == DataLine(e)
    ensures !IsDataLine(DropCR(IdLine(e))) && !IsDataLine(DropCR(EventLine(e)))
    ensures DropCR(IdLine(e)) != "" && DropCR(EventLine(e)) != ""
  {
    assert IdLine(e)[0] == 'i' && EventLine(e)[0] == 'e';
    assert DataLine(e)[|DataLine(e)| - 1] == '}';
  }

  lemma ValueOfDataLine(e: Event)
    requires Encodable(e)
    ensures IsDataLine(DataLine(e)) && TrimSpace(DataLine(e)[5..]) == e.body
  {
    var value := DataLine(e)[5..];
    assert value == " " + e.body;
    assert value[1..] == e.body;
    assert TrimLeft(value) == TrimLeft(e.body) == e.body;
  }

  lemma FrameLines(e: Event, rest: string)
    requires Encodable(e)
    ensures Lines(Frame(e) + rest) == [IdLine(e)] + ([EventLine(e)] + ([DataLine(e)] + ([""] + Lines(rest))))
  {
    PlainLines(e);
    hide Lines, IdLine, EventLine, DataLine;
    var a, b, c := IdLine(e), EventLine(e), DataLine(e);
    Regroup(a, b, c, rest);
    FirstLine(a, b + "\n" + (c + "\n" + ("" + "\n" + rest)));
    FirstLine(b, c + "\n" + ("" + "\n" + rest));
    FirstLine(c, "" + "\n" + rest);
    FirstLine("", rest);
  }

  lemma Regroup(a: string, b: string, c: string, rest: string)
    ensures a + "\n" + (b + "\n" + (c + "\n" + "\n")) + rest
         == a + "\n" + (b + "\n" + (c + "\n" + ("" + "\n" + rest)))
  {
  }

  lemma ReadPlain(line: string, rest: seq<string>, data: string)
    requires |line| < MAX_LINE && DropCR(line) != "" && !IsDataLine(DropCR(line))
    ensures Read([line] + rest, data) == Read(rest, data)
  {
    assert ([line] + rest)[1..] == rest;
  }

  lemma ReadData(line: string, rest: seq<string>)
    requires |line| < MAX_LINE && DropCR(line) == line && IsDataLine(line) && |TrimSpace(line[5..])| <= |line|
    ensures Read([line] + rest, "") == Read(rest, TrimSpace(line[5..]))
  {
    assert ([line] + rest)[1..] == rest;
  }

  lemma ReadBlank(rest: seq<string>, data: string)
    requires data != ""
    ensures var left := Read(rest, "");
            Read([""] + rest, data) == Reading([data] + left.bodies, left.failed)
  {
    assert ([""] + rest)[1..] == rest;
  }

  /** One whole frame yields exactly its body, whatever follows. */
  lemma ReadFrame(e: Event, rest: string)
    requires Encodable(e)
    ensures var left := Read(Lines(rest), "");
            Read(Lines(Frame(e) + rest), "") == Reading([e.body] + left.bodies, left.failed)
  {
    FrameLines(e, rest);
    PlainLines(e);
    ValueOfDataLine(e);
    assert |e.body| <= |DataLine(e)|;
    hide TrimSpace, Lines, IdLine, EventLine, DataLine, DropCR, Read, Frame;
    var a, b, c := IdLine(e), EventLine(e), DataLine(e);
    ReadPlain(a, [b] + ([c] + ([""] + Lines(rest))), "");
    ReadPlain(b, [c] + ([""] + Lines(rest)), "");
    ReadData(c, [""] + Lines(rest));
    ReadBlank(Lines(rest), e.body);
  }

  /** Reading inverts writing: the same bodies, in order, for every kind string. */
  lemma {:induction false} ReadInvertsWrite(events: seq<Event>)
    requires forall e | e in events :: Encodable(e)
    ensures Read(Lines(Frames(events)), "") == Reading(BodiesOf(events), false)
  {
    if events != [] {
      ReadInvertsWrite(events[1..]);
      ReadFrame(events[0], Frames(events[1..]));
    }
  }

  /** A frame cut short yields nothing and is no failure. */
  lemma ReadCutFrame(e: Event, k: nat)
    requires Encodable(e) && k < |Frame(e)|
    ensures Read(Lines(Frame(e)[..k]), "") == Reading([], false)
  {
    PlainLines(e);
    hide Lines, Read, DropCR;
    var a, b, c := IdLine(e), EventLine(e), DataLine(e);
    CutShape(a, b, c, k);
    if k <= |a| {
      ReadLast(a[..k]);
    } else if k <= |a| + 1 + |b| {
      var q := b[..k - |a| - 1];
      SkipPlain(a, q);
      ReadLast(q);
    } else if k <= |a| + |b| + 2 + |c| {
      var q := c[..k - |a| - |b| - 2];
      SkipPlain(a, b + "\n" + q);
      SkipPlain(b, q);
      ReadLast(q);
    } else {
      SkipPlain(a, b + "\n" + (c + "\n"));
      SkipPlain(b, c + "\n");
      OnlyLine(c);
      ReadLast(c);
    }
  }

  lemma SkipPlain(line: string, rest: string)
    requires '\n' !in line && |line| < MAX_LINE && DropCR(line) != "" && !IsDataLine(DropCR(line))
    ensures Read(Lines(line + "\n" + rest), "") == Read(Lines(rest), "")
  {
    FirstLine(line, rest);
    ReadPlain(line, Lines(rest), "");
  }

  lemma CutShape(a: string, b: string, c: string, k: nat)
    requires k < |a| + |b| + |c| + 4
    ensures var f := a + "\n" + (b + "\n" + (c + "\n" + "\n"));
            if k <= |a| then f[..k] == a[..k]
            else if k <= |a| + 1 + |b| then f[..k] == a + "\n" + b[..k - |a| - 1]
            else if k <= |a| + |b| + 2 + |c| then f[..k] == a + "\n" + (b + "\n" + c[..k - |a| - |b| - 2])
            else f[..k] == a + "\n" + (b + "\n" + (c + "\n"))
  {
    var f := a + "\n" + (b + "\n" + (c + "\n" + "\n"));
    if k > |a| {
      assert f[..k] == a + "\n" + (b + "\n" + (c + "\n" + "\n"))[..k - |a| - 1];
      if k > |a| + 1 + |b| {
        assert (b + "\n" + (c + "\n" + "\n"))[..k - |a| - 1] == b + "\n" + (c + "\n" + "\n")[..k - |a| - |b| - 2];
      }
    }
  }

  /** A last line that may be unfinished dispatches nothing. */
  lemma ReadLast(last: string)
    requires '\n' !in last && |last| < MAX_LINE
    ensures Read(Lines(last), "") == Reading([], false)
  {
    if last != "" {
      OnlyLine(last);
      TrimShrinks(DropCR(last));
      hide Lines, TrimSpace;
      assert [last][1..] == [];
    }
  }

  lemma TrimShrinks(line: string)
    ensures IsDataLine(line) ==> |TrimSpace(line[5..])| <= |line|
  {
    if IsDataLine(line) {
      TrimLeftShrinks(line[5..]);
      TrimRightShrinks(TrimLeft(line[5..]));
    }
  }

  lemma TrimLeftShrinks(s: string)
    ensures |TrimLeft(s)| <= |s|
  {
  }

  lemma TrimRightShrinks(s: string)
    ensures |TrimRight(s)| <= |s|
  {
  }

  /**
   A stream cut anywhere yields a prefix of the bodies: a truncated connection ends the stream, it
   never garbles, skips or invents an event.
  */
  lemma {:induction false} CutStreamYieldsPrefix(events: seq<Event>, k: nat)
    requires (forall e | e in events :: Encodable(e)) && k <= |Frames(events)|
    ensures var reading := Read(Lines(Frames(events)[..k]), "");
            !reading.failed && reading.bodies <= BodiesOf(events)
  {
    if events == [] {
      assert Frames(events)[..k] == "";
    } else {
      var e, rest := events[0], events[1..];
      assert Frames(events) == Frame(e) + Frames(rest) && BodiesOf(events) == [e.body] + BodiesOf(rest);
      hide Frame, Frames, BodiesOf, Lines, Read, Encodable;
      CutConcat(Frame(e), Frames(rest), k);
      if k < |Frame(e)| {
        ReadCutFrame(e, k);
      } else {
        CutStreamYieldsPrefix(rest, k - |Frame(e)|);
        ReadFrame(e, Frames(rest)[..k - |Frame(e)|]);
      }
    }
  }

  lemma CutConcat(f: string, g: string, k: nat)
    requires k <= |f| + |g|
    ensures (f + g)[..k] == if k < |f| then f[..k] else f + g[..k - |f|]
  {
  }
}
