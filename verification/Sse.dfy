/** Server-sent event framing: the printer a stream is encoded with and the parser a transcript is
    compared through (sections 9.2.5 and 9.2.6 of the WHATWG HTML standard).  */
module Sse {
  import opened Text

  datatype SSEEvent = SSEEvent(name: string, data: string, pace: int, terminal: bool)

  datatype Chunk = Chunk(bytes: string, pace: int, name: string, terminal: bool)

  datatype Frame = Frame(event: string, data: string)

  // ---- printing ----

  /** Lines, each ended by a newline. */
  function Terminated(lines: seq<string>): string {
    if lines == [] then "" else lines[0] + "\n" + Terminated(lines[1..])
  }

  function Prefixed(prefix: string, lines: seq<string>): (r: seq<string>)
    ensures |r| == |lines| && forall i | 0 <= i < |r| :: r[i] == prefix + lines[i]
  {
    seq(|lines|, i requires 0 <= i < |lines| => prefix + lines[i])
  }

  /** One frame's lines: an optional event line, a data line per line of data, a blank line. */
  function FrameLines(name: string, data: string): seq<string> {
    (if name == "" then [] else ["event: " + name]) + Prefixed("data: ", Split(data, '\n')) + [""]
  }

  function FrameBytes(name: string, data: string): string { Terminated(FrameLines(name, data)) }

  lemma {:induction false} TerminatedAppend(a: seq<string>, b: seq<string>)
    ensures Terminated(a + b) == Terminated(a) + Terminated(b)
  {
    if a == [] {
      assert a + b == b;
    } else {
      TerminatedAppend(a[1..], b);
      assert (a + b)[1..] == a[1..] + b;
    }
  }

  lemma TerminatedOne(line: string)
    ensures Terminated([line]) == line + "\n"
  {
    assert [line][1..] == [];
  }

  lemma TerminatedNone()
    ensures Terminated([]) == ""
  {
  }

  method EncodeFrame(name: string, data: string) returns (buf: string)
    ensures buf == FrameBytes(name, data)
  {
    hide Split, Terminated;
    TerminatedNone();
    buf := "";
    ghost var head: seq<string> := if name == "" then [] else ["event: " + name];
    if name != "" {
      buf := buf + "event: " + name + "\n";
      TerminatedOne("event: " + name);
    }
    var lines := Split(data, '\n');
    ghost var written := Prefixed("data: ", lines);
    assert head + written[..0] == head;
    for i := 0 to |lines|
      invariant buf == Terminated(head + written[..i])
    {
      assert head + written[..i + 1] == (head + written[..i]) + [written[i]];
      TerminatedAppend(head + written[..i], [written[i]]);
      TerminatedOne(written[i]);
      buf := buf + "data: " + lines[i] + "\n";
    }
    assert written[..|lines|] == written;
    TerminatedAppend(head + written, [""]);
    TerminatedOne("");
    buf := buf + "\n";
  }

  /** Data as a frame carries it: every line but the first behind a prefix of its own. */
  function Indented(data: string): string {
    if data == "" then ""
    else (if data[0] == '\n' then "\ndata: " else [data[0]]) + Indented(data[1..])
  }

  lemma {:induction false} IndentedLine(line: string, rest: string)
    requires '\n' !in line
    ensures Indented(line + rest) == line + Indented(rest)
  {
    if line == "" {
      assert line + rest == rest;
    } else {
      IndentedLine(line[1..], rest);
      assert (line + rest)[1..] == line[1..] + rest;
      assert line == [line[0]] + line[1..];
    }
  }

  lemma PrefixedCons(prefix: string, line: string, lines: seq<string>)
    ensures Prefixed(prefix, [line] + lines) == [prefix + line] + Prefixed(prefix, lines)
  {
  }

  lemma IndentedNewline(rest: string)
    ensures Indented("\n" + rest) == "\ndata: " + Indented(rest)
  {
    assert ("\n" + rest)[1..] == rest;
  }

  lemma IndentedNone()
    ensures Indented("") == ""
  {
  }

  lemma {:induction false} DataLinesAre(data: string)
    ensures Terminated(Prefixed("data: ", Split(data, '\n'))) == "data: " + Indented(data) + "\n"
    decreases |data|
  {
    hide Terminated, Split, Indented, Prefixed;
    var i := IndexOf(data, '\n');
    var line := data[..i];
    PrefixedNone("data: ");
    TerminatedOne("data: " + line);
    if i == |data| {
      assert line == data && data + "" == data;
      SplitNone(data, '\n');
      PrefixedCons("data: ", data, []);
      assert [data] + [] == [data] && ["data: " + data] + [] == ["data: " + data];
      IndentedLine(data, "");
      IndentedNone();
      assert data + "" == data;
    } else {
      var rest := data[i + 1..];
      DataLinesAre(rest);
      assert data == line + ['\n'] + rest;
      SplitCons(line, '\n', rest);
      PrefixedCons("data: ", line, Split(rest, '\n'));
      TerminatedAppend(["data: " + line], Prefixed("data: ", Split(rest, '\n')));
      IndentedLine(line, "\n" + rest);
      IndentedNewline(rest);
      assert data == line + ("\n" + rest);
      Spelled(line, Indented(rest));
    }
  }

  lemma Spelled(line: string, rest: string)
    ensures ("data: " + line + "\n") + ("data: " + rest + "\n") == "data: " + (line + ("\ndata: " + rest)) + "\n"
  {
    assert "\n" + "data: " == "\ndata: ";
  }

  lemma PrefixedNone(prefix: string)
    ensures Prefixed(prefix, []) == []
  {
  }

  /** A printed frame, byte for byte. */
  lemma FramesAreSpelled(name: string, data: string)
    ensures FrameBytes(name, data)
         == (if name == "" then "" else "event: " + name + "\n") + ("data: " + Indented(data) + "\n") + "\n"
  {
    hide Terminated, Split, Indented;
    var head: seq<string> := if name == "" then [] else ["event: " + name];
    var body := Prefixed("data: ", Split(data, '\n'));
    TerminatedAppend(head + body, [""]);
    TerminatedAppend(head, body);
    TerminatedOne("");
    TerminatedNone();
    if name != "" { TerminatedOne("event: " + name); }
    DataLinesAre(data);
  }

  function Terminals(events: seq<SSEEvent>): nat {
    if events == [] then 0 else Terminals(events[..|events| - 1]) + if events[|events| - 1].terminal then 1 else 0
  }

  lemma {:induction false} TerminalsRise(events: seq<SSEEvent>, n: nat)
    requires n <= |events|
    ensures Terminals(events[..n]) <= Terminals(events)
    decreases |events|
  {
    if n < |events| {
      TerminalsRise(events[..|events| - 1], n);
      assert events[..|events| - 1][..n] == events[..n];
    } else {
      assert events[..n] == events;
    }
  }

  /** Encodes events into chunks, one each. A second terminal frame is refused outright. */
  method EncodeSSE(events: seq<SSEEvent>) returns (chunks: Option<seq<Chunk>>)
    ensures chunks.None? <==> Terminals(events) > 1
    ensures chunks.Some? ==> |chunks.value| == |events| && forall i | 0 <= i < |events| ::
      chunks.value[i] == Chunk(
        FrameBytes(events[i].name, events[i].data), events[i].pace, events[i].name, events[i].terminal)
  {
    var out: seq<Chunk> := [];
    var terminalSeen := false;
    for n := 0 to |events|
      invariant terminalSeen <==> Terminals(events[..n]) == 1
      invariant Terminals(events[..n]) <= 1
      invariant |out| == n && forall i | 0 <= i < n ::
        out[i] == Chunk(FrameBytes(events[i].name, events[i].data), events[i].pace, events[i].name, events[i].terminal)
    {
      var e := events[n];
      assert events[..n + 1][..n] == events[..n];
      TerminalsRise(events, n + 1);
      if e.terminal {
        if terminalSeen { return None; }
        terminalSeen := true;
      }
      var bytes := EncodeFrame(e.name, e.data);
      out := out + [Chunk(bytes, e.pace, e.name, e.terminal)];
    }
    assert events[..|events|] == events;
    return Some(out);
  }

  // ---- parsing ----

  predicate EndsCR(line: string) { line != "" && line[|line| - 1] == '\r' }

  function TrimCR(line: string): string { if EndsCR(line) then line[..|line| - 1] else line }

  function TrimSpace(value: string): string { if value != "" && value[0] == ' ' then value[1..] else value }

  datatype Parser = Parser(event: string, data: seq<string>, open: bool, frames: seq<Frame>)

  function Idle(frames: seq<Frame>): Parser { Parser("", [], false, frames) }

  function Flush(p: Parser): Parser {
    Idle(if p.open then p.frames + [Frame(p.event, Join(p.data, '\n'))] else p.frames)
  }

  /** One line of a transcript. */
  function Feed(p: Parser, raw: string): Parser {
    var line := TrimCR(raw);
    var i := IndexOf(line, ':');
    if line == "" then Flush(p)
    else if i == |line| then p
    else
      var value := TrimSpace(line[i + 1..]);
      if line[..i] == "event" then p.(event := value, open := true)
      else if line[..i] == "data" then p.(data := p.data + [value], open := true)
      else p
  }

  function FeedAll(p: Parser, lines: seq<string>): Parser
    decreases |lines|
  {
    if lines == [] then p else FeedAll(Feed(p, lines[0]), lines[1..])
  }

  function Parse(transcript: string): seq<Frame> {
    Flush(FeedAll(Idle([]), Split(transcript, '\n'))).frames
  }

  method ParseSSEFrames(transcript: string) returns (frames: seq<Frame>)
    ensures frames == Parse(transcript)
  {
    var lines := Split(transcript, '\n');
    var event, data, open := "", [], false;
    frames := [];
    for n := 0 to |lines|
      invariant FeedAll(Parser(event, data, open, frames), lines[n..]) == FeedAll(Idle([]), lines)
    {
      assert lines[n..][0] == lines[n] && lines[n..][1..] == lines[n + 1..];
      var line := TrimCR(lines[n]);
      var i := IndexOf(line, ':');
      if line == "" {
        if open { frames := frames + [Frame(event, Join(data, '\n'))]; }
        event, data, open := "", [], false;
      } else if i < |line| && line[..i] == "event" {
        event := TrimSpace(line[i + 1..]);
        open := true;
      } else if i < |line| && line[..i] == "data" {
        data := data + [TrimSpace(line[i + 1..])];
        open := true;
      }
    }
    if open { frames := frames + [Frame(event, Join(data, '\n'))]; }
  }

  /** Every line but a blank one and one without a colon is a field: its value is what follows the colon,
      short of one space before it and one carriage return after it. Only event and data count. */
  lemma FieldsAreRead(p: Parser, field: string, value: string, spaced: bool, returned: bool)
    requires ':' !in field && (spaced || value == "" || value[0] != ' ') && (returned || !EndsCR(field + ":" + value))
    ensures
      var line := field + ":" + (if spaced then " " else "") + value + if returned then "\r" else "";
      Feed(p, line) == if field == "event" then p.(event := value, open := true)
        else if field == "data" then p.(data := p.data + [value], open := true)
        else p
  {
    hide TrimCR, TrimSpace, IndexOf, Flush;
    var tail := (if spaced then " " else "") + value;
    var line := field + ":" + tail;
    var raw := field + ":" + (if spaced then " " else "") + value + if returned then "\r" else "";
    FieldLines(field, value, spaced, returned);
    FieldTrims(field, value, spaced, returned);
    FieldCuts(field, tail);
    OneSpaceGoes(value, spaced);
  }

  lemma FieldLines(field: string, value: string, spaced: bool, returned: bool)
    ensures field + ":" + (if spaced then " " else "") + value + (if returned then "\r" else "")
         == (field + ":" + ((if spaced then " " else "") + value)) + if returned then "\r" else ""
  {
  }

  lemma FieldTrims(field: string, value: string, spaced: bool, returned: bool)
    requires returned || !EndsCR(field + ":" + value)
    ensures var line := field + ":" + ((if spaced then " " else "") + value);
      TrimCR(line + if returned then "\r" else "") == line
  {
    var line := field + ":" + ((if spaced then " " else "") + value);
    if returned {
      assert (line + "\r")[..|line|] == line;
    } else {
      Unreturned(field, value, spaced);
      assert line + "" == line;
    }
  }

  lemma FieldCuts(field: string, tail: string)
    requires ':' !in field
    ensures var line := field + ":" + tail;
      IndexOf(line, ':') == |field| < |line| && line[..|field|] == field && line[|field| + 1..] == tail
  {
    IndexOfPrefix(field, ':', tail);
    assert field + ":" + tail == field + [':'] + tail;
  }

  lemma OneSpaceGoes(value: string, spaced: bool)
    requires spaced || value == "" || value[0] != ' '
    ensures TrimSpace((if spaced then " " else "") + value) == value
  {
    if !spaced { assert "" + value == value; }
  }

  lemma Unreturned(field: string, value: string, spaced: bool)
    requires !EndsCR(field + ":" + value)
    ensures !EndsCR(field + ":" + ((if spaced then " " else "") + value))
  {
    var line := field + ":" + ((if spaced then " " else "") + value);
    if value != "" {
      assert (field + ":" + value)[|field + ":" + value| - 1] == value[|value| - 1] == line[|line| - 1];
    }
  }

  /** A blank line ends the frame that is open, if one is; a line without a colon is nothing. */
  lemma OtherLinesAreRead(p: Parser, line: string)
    requires ':' !in line
    ensures
      Feed(p, line) == if line == "" || line == "\r"
        then Parser("", [], false, p.frames + if p.open then [Frame(p.event, Join(p.data, '\n'))] else [])
        else p
  {
    hide Join;
    assert p.frames + [] == p.frames;
    if line == "\r" { assert line[..0] == ""; }
  }

  /** A frame the transcript leaves open at its end is a frame. */
  lemma UnterminatedFramesCount()
    ensures Parse("data: a") == [Frame("", "a")]
  {
    hide Feed;
    SplitNone("data: a", '\n');
    FieldsAreRead(Idle([]), "data", "a", true, false);
    assert "data" + ":" + " " + "a" + "" == "data: a";
    assert FeedAll(Idle([]), ["data: a"]) == FeedAll(Feed(Idle([]), "data: a"), ["data: a"][1..]);
    assert ["data: a"][1..] == [] && [] + ["a"] == ["a"];
  }

  // ---- parsing what was printed ----

  function Trimmed(lines: seq<string>): (r: seq<string>)
    ensures |r| == |lines| && forall i | 0 <= i < |r| :: r[i] == TrimCR(lines[i])
  {
    seq(|lines|, i requires 0 <= i < |lines| => TrimCR(lines[i]))
  }

  /** What is left of a frame once a carriage return is taken off the end of each of its lines. */
  function Stripped(f: Frame): Frame {
    Frame(TrimCR(f.event), Join(Trimmed(Split(f.data, '\n')), '\n'))
  }

  function StrippedAll(fs: seq<Frame>): (r: seq<Frame>)
    ensures |r| == |fs| && forall i | 0 <= i < |r| :: r[i] == Stripped(fs[i])
  {
    seq(|fs|, i requires 0 <= i < |fs| => Stripped(fs[i]))
  }

  /** The transcript of a frame list: the concatenation of its chunks. */
  function Transcript(fs: seq<Frame>): string {
    if fs == [] then "" else FrameBytes(fs[0].event, fs[0].data) + Transcript(fs[1..])
  }

  lemma {:induction false} SplitTerminated(lines: seq<string>, rest: string)
    requires forall i | 0 <= i < |lines| :: '\n' !in lines[i]
    ensures Split(Terminated(lines) + rest, '\n') == lines + Split(rest, '\n')
  {
    hide Split;
    if lines == [] {
      assert Terminated(lines) + rest == rest;
      assert lines + Split(rest, '\n') == Split(rest, '\n');
    } else {
      var tail := Terminated(lines[1..]) + rest;
      assert Terminated(lines) + rest == lines[0] + ['\n'] + tail;
      SplitCons(lines[0], '\n', tail);
      SplitTerminated(lines[1..], rest);
      assert [lines[0]] + (lines[1..] + Split(rest, '\n')) == lines + Split(rest, '\n');
    }
  }

  lemma {:induction false} FeedAllAppend(p: Parser, a: seq<string>, b: seq<string>)
    ensures FeedAll(p, a + b) == FeedAll(FeedAll(p, a), b)
    decreases |a|
  {
    if a == [] {
      assert a + b == b;
    } else {
      assert (a + b)[1..] == a[1..] + b;
      FeedAllAppend(Feed(p, a[0]), a[1..], b);
    }
  }

  /** A field line gives its value back, whatever the value contains, short of a carriage return at
      its end. */
  lemma FieldLine(field: string, value: string)
    requires ':' !in field
    ensures var line := TrimCR(field + ": " + value);
      && line != "" && IndexOf(line, ':') == |field| < |line| && line[..|field|] == field
      && TrimSpace(line[|field| + 1..]) == TrimCR(value)
  {
    var line := TrimCR(field + ": " + value);
    assert line == field + [':'] + (" " + TrimCR(value));
    IndexOfPrefix(field, ':', " " + TrimCR(value));
    assert line[|field| + 1..] == " " + TrimCR(value);
  }

  lemma FeedDataLine(p: Parser, value: string)
    ensures Feed(p, "data: " + value) == p.(data := p.data + [TrimCR(value)], open := true)
  {
    FieldLine("data", value);
    assert "data: " + value == "data" + ": " + value;
    assert "data"[0] != "event"[0];
  }

  lemma {:induction false} FeedData(p: Parser, lines: seq<string>)
    ensures FeedAll(p, Prefixed("data: ", lines))
         == p.(data := p.data + Trimmed(lines), open := p.open || lines != [])
    decreases |lines|
  {
    hide Feed, TrimCR;
    var out := Prefixed("data: ", lines);
    if lines == [] {
      assert p.data + Trimmed(lines) == p.data;
    } else {
      FeedDataLine(p, lines[0]);
      var q := Feed(p, out[0]);
      assert out[1..] == Prefixed("data: ", lines[1..]);
      FeedData(q, lines[1..]);
      assert q.data + Trimmed(lines[1..]) == p.data + Trimmed(lines);
    }
  }

  lemma FeedEventLine(frames: seq<Frame>, name: string)
    requires name != ""
    ensures FeedAll(Idle(frames), ["event: " + name]) == Idle(frames).(event := TrimCR(name), open := true)
  {
    FieldLine("event", name);
    var line := "event" + ": " + name;
    assert line == "event: " + name;
    assert [line][1..] == [];
    assert FeedAll(Idle(frames), [line]) == FeedAll(Feed(Idle(frames), line), []);
  }

  lemma FeedBlank(p: Parser)
    ensures FeedAll(p, [""]) == Flush(p)
  {
    assert [""][1..] == [];
    assert FeedAll(p, [""]) == FeedAll(Feed(p, ""), []);
  }

  /** From idle, one printed frame parses to itself, stripped, and leaves the parser idle. */
  lemma FeedFrame(frames: seq<Frame>, f: Frame)
    ensures FeedAll(Idle(frames), FrameLines(f.event, f.data)) == Idle(frames + [Stripped(f)])
  {
    hide Split, Feed;
    FeedBlank(Parser(TrimCR(f.event), Trimmed(Split(f.data, '\n')), true, frames));
    var head: seq<string> := if f.event == "" then [] else ["event: " + f.event];
    var lines := Split(f.data, '\n');
    var body := Prefixed("data: ", lines);
    assert FrameLines(f.event, f.data) == head + (body + [""]);
    FeedAllAppend(Idle(frames), head, body + [""]);
    var p := FeedAll(Idle(frames), head);
    if f.event != "" { FeedEventLine(frames, f.event); }
    assert p.event == TrimCR(f.event) && p.data == [] && p.frames == frames;
    FeedAllAppend(p, body, [""]);
    FeedData(p, lines);
    assert [] + Trimmed(lines) == Trimmed(lines);
    var q := FeedAll(p, body);
    assert q == Parser(TrimCR(f.event), Trimmed(lines), true, frames);
  }

  predicate OneLine(f: Frame) { '\n' !in f.event }

  lemma FrameLinesAreLines(f: Frame)
    requires OneLine(f)
    ensures var lines := FrameLines(f.event, f.data);
      forall i | 0 <= i < |lines| :: '\n' !in lines[i]
  {
    var parts := Split(f.data, '\n');
    forall i | 0 <= i < |parts| ensures '\n' !in "data: " + parts[i] {
      assert parts[i] in parts;
    }
  }

  lemma {:induction false} FeedFrames(before: seq<Frame>, fs: seq<Frame>, rest: string)
    requires forall f | f in fs :: OneLine(f)
    ensures FeedAll(Idle(before), Split(Transcript(fs) + rest, '\n'))
         == FeedAll(Idle(before + StrippedAll(fs)), Split(rest, '\n'))
    decreases |fs|
  {
    hide Split, Feed, FrameLines, Stripped;
    if fs == [] {
      assert Transcript(fs) + rest == rest && before + StrippedAll(fs) == before;
    } else {
      var f, tail := fs[0], Transcript(fs[1..]) + rest;
      var lines := FrameLines(f.event, f.data);
      FrameLinesAreLines(f);
      assert Transcript(fs) + rest == Terminated(lines) + tail;
      SplitTerminated(lines, tail);
      FeedAllAppend(Idle(before), lines, Split(tail, '\n'));
      FeedFrame(before, f);
      FeedFrames(before + [Stripped(f)], fs[1..], rest);
      assert before + [Stripped(f)] + StrippedAll(fs[1..]) == before + StrippedAll(fs);
    }
  }

  /** Parsing a printed frame list gives the list back, each line short of one trailing carriage
      return, whatever else names and data contain. */
  lemma ParsePrinted(fs: seq<Frame>)
    requires forall f | f in fs :: OneLine(f)
    ensures Parse(Transcript(fs)) == StrippedAll(fs)
  {
    FeedFrames([], fs, "");
    assert Transcript(fs) + "" == Transcript(fs);
    assert [] + StrippedAll(fs) == StrippedAll(fs);
    SplitNone("", '\n');
    FeedBlank(Idle(StrippedAll(fs)));
  }

  predicate Clean(f: Frame) {
    OneLine(f) && !EndsCR(f.event) && forall l | l in Split(f.data, '\n') :: !EndsCR(l)
  }

  lemma CleanFramesAreUnstripped(f: Frame)
    requires OneLine(f)
    ensures Clean(f) <==> Stripped(f) == f
  {
    hide Split, Join;
    var lines := Split(f.data, '\n');
    SplitThenJoin(f.data, '\n');
    if Clean(f) {
      forall i | 0 <= i < |lines| ensures Trimmed(lines)[i] == lines[i] { assert lines[i] in lines; }
      assert Trimmed(lines) == lines;
    }
    if Stripped(f) == f {
      forall l | l in Trimmed(lines) ensures '\n' !in l {
        var i :| 0 <= i < |lines| && Trimmed(lines)[i] == l;
        assert lines[i] in lines;
      }
      JoinThenSplit(Trimmed(lines), '\n');
      forall l | l in lines ensures !EndsCR(l) {
        var i :| 0 <= i < |lines| && lines[i] == l;
        assert Trimmed(lines)[i] == TrimCR(l);
      }
    }
  }

  /** No parsed frame's event name spans lines. */
  ghost predicate NamesAreLines(p: Parser) { '\n' !in p.event && forall f | f in p.frames :: OneLine(f) }

  lemma FedNamesAreLines(p: Parser, raw: string)
    requires NamesAreLines(p) && '\n' !in raw
    ensures NamesAreLines(Feed(p, raw))
  {
    hide IndexOf, Join;
  }

  lemma {:induction false} ParsedNamesAreLines(p: Parser, lines: seq<string>)
    requires NamesAreLines(p) && forall l | l in lines :: '\n' !in l
    ensures NamesAreLines(FeedAll(p, lines))
    decreases |lines|
  {
    hide NamesAreLines, Feed;
    if lines != [] {
      FedNamesAreLines(p, lines[0]);
      ParsedNamesAreLines(Feed(p, lines[0]), lines[1..]);
    }
  }

  /** The round trip holds exactly for frame lists whose names are single lines and no line of which
      ends in a carriage return. */
  lemma RoundTripExactly(fs: seq<Frame>)
    ensures Parse(Transcript(fs)) == fs <==> forall f | f in fs :: Clean(f)
  {
    hide Split, Feed, Join, FrameBytes, Stripped;
    if forall f | f in fs :: OneLine(f) {
      ParsePrinted(fs);
      forall i | 0 <= i < |fs| ensures Clean(fs[i]) <==> Stripped(fs[i]) == fs[i] {
        assert fs[i] in fs;
        CleanFramesAreUnstripped(fs[i]);
      }
      if forall f | f in fs :: Clean(f) {
        forall i | 0 <= i < |fs| ensures StrippedAll(fs)[i] == fs[i] { assert fs[i] in fs; }
      }
    } else {
      var f :| f in fs && !OneLine(f);
      var lines := Split(Transcript(fs), '\n');
      ParsedNamesAreLines(Idle([]), lines);
      assert NamesAreLines(Flush(FeedAll(Idle([]), lines)));
    }
  }

  /** Neither half of the condition is idle: a line that ends in a carriage return loses it, and an event
      name of two lines does not come back. */
  lemma SomeFramesDoNotRoundTrip()
    ensures Parse(Transcript([Frame("", "a\r")])) == [Frame("", "a")]
    ensures Parse(Transcript([Frame("a\nb", "")])) != [Frame("a\nb", "")]
  {
    hide Parse, Transcript;
    var f := Frame("", "a\r");
    ParsePrinted([f]);
    SplitNone(f.data, '\n');
    assert Trimmed([f.data])[0] == "a" && Trimmed([f.data]) == ["a"];
    assert StrippedAll([f])[0] == Stripped(f) == Frame("", "a");
    RoundTripExactly([Frame("a\nb", "")]);
    assert '\n' == "a\nb"[1] && Frame("a\nb", "") in [Frame("a\nb", "")];
  }

  /** The transcript of some chunks: what reaches the wire when each is written whole. */
  function Concat(chunks: seq<Chunk>): string {
    if chunks == [] then "" else chunks[0].bytes + Concat(chunks[1..])
  }

  ghost predicate Encodes(chunks: seq<Chunk>, fs: seq<Frame>) {
    |chunks| == |fs| && forall i | 0 <= i < |fs| :: chunks[i].bytes == FrameBytes(fs[i].event, fs[i].data)
  }

  lemma {:induction false} ConcatIsTranscript(chunks: seq<Chunk>, fs: seq<Frame>)
    requires Encodes(chunks, fs)
    ensures Concat(chunks) == Transcript(fs)
  {
    if fs != [] { ConcatIsTranscript(chunks[1..], fs[1..]); }
  }

  /** A stream cut before chunk k, as a scripted disconnect cuts it, parses to exactly its first k
      frames. */
  lemma CutAtAFrameBoundary(chunks: seq<Chunk>, fs: seq<Frame>, k: nat)
    requires Encodes(chunks, fs) && k <= |chunks| && forall f | f in fs :: Clean(f)
    ensures Parse(Concat(chunks[..k])) == fs[..k]
  {
    ConcatIsTranscript(chunks[..k], fs[..k]);
    forall f | f in fs[..k] ensures Clean(f) { assert f in fs; }
    RoundTripExactly(fs[..k]);
  }
}
