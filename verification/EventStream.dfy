/** The reader of server-sent events. Characters stand for the bytes of the stream. */
module EventStream {
  import opened Basics
  import opened Text

  datatype Event = Event(kind: string, data: string, id: string)

  /** How reading ends: at the end of the stream, at a malformed field name, or at an oversized event. */
  datatype End = Eof | Malformed(field: string) | TooLarge(size: nat)

  /** The event being assembled. */
  datatype Pending = Pending(eventType: string, dataLines: seq<string>, lastId: string, dataSize: nat)

  const RESET: Pending := Pending("", [], "", 0)

  // ---- String operations of the source language ----

  /** Drop carriage returns and line feeds from the end. */
  function TrimRight(s: string): string {
    if s != "" && (s[|s| - 1] == '\r' || s[|s| - 1] == '\n') then TrimRight(s[..|s| - 1]) else s
  }

  // ---- What the reader computes ----

  function Flush(p: Pending): seq<Event> {
    var data := Join(p.dataLines, '\n');
    if data == "" then [] else [Event(if p.eventType == "" then "message" else p.eventType, data, p.lastId)]
  }

  function FieldOf(line: string): string {
    line[..IndexOf(line, ':')]
  }

  /** The text after the first colon without one leading space. */
  function ValueOf(line: string): string {
    var i := IndexOf(line, ':');
    if i == |line| then "" else if i + 1 < |line| && line[i + 1] == ' ' then line[i + 2..] else line[i + 1..]
  }

  predicate BadField(field: string) {
    field == "" || ' ' in field || '\t' in field
  }

  function Absorb(p: Pending, line: string): Pending {
    var field, value := FieldOf(line), ValueOf(line);
    if field == "event" then p.(eventType := value)
    else if field == "data" then p.(dataLines := p.dataLines + [value], dataSize := p.dataSize + |value|)
    else if field == "id" then p.(lastId := value)
    else p
  }

  /** Only a data line can make the event too large. */
  predicate Oversized(p: Pending, line: string, maxEventBytes: int) {
    FieldOf(line) == "data" && maxEventBytes > 0 && Absorb(p, line).dataSize > maxEventBytes
  }

  /** The length of the first line, its line feed included if there is one. */
  function LineLen(input: string): (n: nat)
    ensures n <= |input| && (input != "" ==> n > 0)
  {
    var i := IndexOf(input, '\n');
    if i < |input| then i + 1 else i
  }

  function Read(input: string, p: Pending, maxEventBytes: int): (seq<Event>, End)
    decreases |input|
  {
    if input == "" then ([], Eof)
    else
      var n := LineLen(input);
      var last := input[n - 1] != '\n';
      var line, rest := TrimRight(input[..n]), input[n..];
      if line == "" then
        if last then (Flush(p), Eof)
        else
          var (events, end) := Read(rest, RESET, maxEventBytes);
          (Flush(p) + events, end)
      else if line[0] == ':' then
        if last then ([], Eof) else Read(rest, p, maxEventBytes)
      else if BadField(FieldOf(line)) then ([], Malformed(FieldOf(line)))
      else if Oversized(p, line, maxEventBytes) then ([], TooLarge(Absorb(p, line).dataSize))
      else if last then (Flush(Absorb(p, line)), Eof)
      else Read(rest, Absorb(p, line), maxEventBytes)
  }

  // ---- The code ----

  method ReadEventStream(input: string, maxEventBytes: int) returns (events: seq<Event>, end: End)
    ensures (events, end) == Read(input, RESET, maxEventBytes)
  {
    hide Join, TrimRight, LineLen, FieldOf, ValueOf, BadField, IndexOf, Flush;
    events := [];
    var eventType, dataLines, lastId, dataSize := "", [], "", 0;
    var pos := 0;
    ghost var target := Read(input, RESET, maxEventBytes);
    assert input[0..] == input && [] + target.0 == target.0;
    while true
      invariant 0 <= pos <= |input| && dataSize >= 0
      invariant var (more, e) := Read(input[pos..], Pending(eventType, dataLines, lastId, dataSize), maxEventBytes);
                target == (events + more, e)
      decreases |input| - pos
    {
      ghost var p := Pending(eventType, dataLines, lastId, dataSize);
      if pos == |input| {
        assert events + [] == events;
        return events, Eof;
      }
      var n := LineLen(input[pos..]);
      var atEof := input[pos + n - 1] != '\n';
      var line := TrimRight(input[pos..pos + n]);
      assert input[pos..][..n] == input[pos..pos + n] && input[pos..][n..] == input[pos + n..];
      pos := pos + n;
      if line == "" {
        var flushed := FlushEvent(eventType, dataLines, lastId, dataSize);
        ConcatAssociative(events, flushed, Read(input[pos..], RESET, maxEventBytes).0);
        events := events + flushed;
        eventType, dataLines, lastId, dataSize := "", [], "", 0;
        if atEof {
          return events, Eof;
        }
        continue;
      }
      if line[0] == ':' {
        if atEof {
          assert events + [] == events;
          return events, Eof;
        }
        continue;
      }
      var field, value := FieldOf(line), ValueOf(line);
      if BadField(field) {
        assert events + [] == events;
        return events, Malformed(field);
      }
      if field == "event" {
        eventType := value;
      } else if field == "data" {
        dataLines := dataLines + [value];
        dataSize := dataSize + |value|;
        if maxEventBytes > 0 && dataSize > maxEventBytes {
          assert events + [] == events;
          return events, TooLarge(dataSize);
        }
      } else if field == "id" {
        lastId := value;
      }
      assert Pending(eventType, dataLines, lastId, dataSize) == Absorb(p, line);
      if atEof {
        var flushed := FlushEvent(eventType, dataLines, lastId, dataSize);
        return events + flushed, Eof;
      }
    }
  }

  method FlushEvent(eventType: string, dataLines: seq<string>, lastId: string, dataSize: nat) returns (out: seq<Event>)
    ensures out == Flush(Pending(eventType, dataLines, lastId, dataSize))
  {
    if dataLines == [] && eventType == "" && lastId == "" {
      return [];
    }
    var data := Join(dataLines, '\n');
    if data == "" {
      return [];
    }
    out := [Event(if eventType == "" then "message" else eventType, data, lastId)];
  }

  // ---- Printing ----

  function TotalLen(lines: seq<string>): nat {
    if lines == [] then 0 else TotalLen(lines[..|lines| - 1]) + |lines[|lines| - 1]|
  }

  /** Fits on a line: no line feed, and no carriage return that trimming would take off its end. */
  predicate OneLine(s: string) {
    '\n' !in s && (s == "" || s[|s| - 1] != '\r')
  }

  /** The events that can be put on a stream. */
  predicate Printable(e: Event, maxEventBytes: int) {
    && e.kind != "" && OneLine(e.kind) && OneLine(e.id)
    && e.data != "" && (forall l :: l in Split(e.data, '\n') ==> OneLine(l))
    && (maxEventBytes > 0 ==> TotalLen(Split(e.data, '\n')) <= maxEventBytes)
  }

  function FieldText(field: string, value: string): string {
    field + ": " + value
  }

  function DataLines(lines: seq<string>): seq<string> {
    if lines == [] then [] else [FieldText("data", lines[0])] + DataLines(lines[1..])
  }

  /** The lines of an event: its type, its id if it has one, its data, and the blank line that ends it. */
  function PrintLines(e: Event): seq<string> {
    [FieldText("event", e.kind)] + (if e.id == "" then [] else [FieldText("id", e.id)]) + DataLines(Split(e.data, '\n')) + [""]
  }

  function PrintAll(es: seq<Event>): seq<string> {
    if es == [] then [] else PrintLines(es[0]) + PrintAll(es[1..])
  }

  /** A line of text and how it is ended: with a carriage return before the line feed or without. */
  datatype Line = Line(text: string, cr: bool)

  function Rendered(lines: seq<Line>): string {
    if lines == [] then ""
    else lines[0].text + (if lines[0].cr then "\r\n" else "\n") + Rendered(lines[1..])
  }

  function Texts(lines: seq<Line>): seq<string> {
    if lines == [] then [] else [lines[0].text] + Texts(lines[1..])
  }

  function WithLf(lines: seq<string>): seq<Line> {
    if lines == [] then [] else [Line(lines[0], false)] + WithLf(lines[1..])
  }

  /** The lines without comments and without blank lines that follow the end of an event; a heartbeat is
      such a comment and blank line. */
  function Clean(lines: seq<string>, ended: bool): seq<string>
    decreases |lines|
  {
    if lines == [] then []
    else if lines[0] == "" then (if ended then [] else [""]) + Clean(lines[1..], true)
    else if lines[0][0] == ':' then Clean(lines[1..], ended)
    else [lines[0]] + Clean(lines[1..], false)
  }

  // ---- Reading by lines ----

  /** What the reader makes of complete lines. */
  function Feed(lines: seq<string>, p: Pending, maxEventBytes: int): (seq<Event>, End)
    decreases |lines|
  {
    if lines == [] then ([], Eof)
    else if lines[0] == "" then
      var (events, end) := Feed(lines[1..], RESET, maxEventBytes);
      (Flush(p) + events, end)
    else if lines[0][0] == ':' then Feed(lines[1..], p, maxEventBytes)
    else if BadField(FieldOf(lines[0])) then ([], Malformed(FieldOf(lines[0])))
    else if Oversized(p, lines[0], maxEventBytes) then ([], TooLarge(Absorb(p, lines[0]).dataSize))
    else Feed(lines[1..], Absorb(p, lines[0]), maxEventBytes)
  }

  lemma TrimLine(text: string, cr: bool)
    requires OneLine(text)
    ensures TrimRight(text + if cr then "\r\n" else "\n") == text
  {
    assert TrimRight(text) == text;
    hide TrimRight, OneLine;
    TrimLast(text, '\n');
    if cr {
      assert text + "\r\n" == (text + ['\r']) + ['\n'];
      TrimLast(text + ['\r'], '\n');
      TrimLast(text, '\r');
    }
  }

  lemma TrimLast(text: string, c: char)
    requires c == '\r' || c == '\n'
    ensures TrimRight(text + [c]) == TrimRight(text)
  {
    assert (text + [c])[..|text|] == text;
  }

  /** The first line of a rendered text is found and trimmed back to what was rendered. */
  lemma FirstLine(text: string, cr: bool, rest: string)
    requires OneLine(text)
    ensures var ending := if cr then "\r\n" else "\n";
            var input := text + ending + rest;
            && LineLen(input) == |text| + |ending|
            && input[LineLen(input) - 1] == '\n'
            && TrimRight(input[..LineLen(input)]) == text
            && input[LineLen(input)..] == rest
  {
    var ending := if cr then "\r\n" else "\n";
    var input := text + ending + rest;
    var body := text + if cr then "\r" else "";
    assert input == body + ['\n'] + rest;
    IndexOfAt(body, '\n', rest);
    TrimLine(text, cr);
    assert input[..|text| + |ending|] == text + ending;
  }

  /** Line endings do not matter: the reader sees the lines that were rendered. */
  lemma {:induction false} ReadIsFeed(lines: seq<Line>, p: Pending, maxEventBytes: int)
    requires forall l :: l in lines ==> OneLine(l.text)
    ensures Read(Rendered(lines), p, maxEventBytes) == Feed(Texts(lines), p, maxEventBytes)
    decreases |lines|
  {
    if lines != [] {
      var first, rest := lines[0], lines[1..];
      assert first in lines && forall l :: l in rest ==> l in lines;
      hide Read, Feed, OneLine, Absorb, Flush, FieldOf, BadField, Oversized;
      assert Rendered(lines) == first.text + (if first.cr then "\r\n" else "\n") + Rendered(rest);
      ReadLine(first.text, first.cr, Rendered(rest), p, maxEventBytes);
      FeedLine(first.text, Texts(rest), p, maxEventBytes);
      hide *;
      ReadIsFeed(rest, RESET, maxEventBytes);
      ReadIsFeed(rest, p, maxEventBytes);
      ReadIsFeed(rest, Absorb(p, first.text), maxEventBytes);
    }
  }

  /** Comments and blank lines between events do not matter. */
  lemma {:induction false} FeedClean(lines: seq<string>, p: Pending, ended: bool, maxEventBytes: int)
    requires ended ==> p == RESET
    ensures Feed(lines, p, maxEventBytes) == Feed(Clean(lines, ended), p, maxEventBytes)
    decreases |lines|
  {
    if lines != [] {
      var rest := lines[1..];
      if lines[0] == "" {
        FeedClean(rest, RESET, true, maxEventBytes);
        assert ([""] + Clean(rest, true))[1..] == Clean(rest, true);
        var events := Feed(rest, RESET, maxEventBytes).0;
        assert Flush(RESET) == [] && [] + events == events;
        assert [] + Clean(rest, true) == Clean(rest, true);
      } else if lines[0][0] == ':' {
        FeedClean(rest, p, ended, maxEventBytes);
      } else {
        FeedClean(rest, Absorb(p, lines[0]), false, maxEventBytes);
        assert ([lines[0]] + Clean(rest, false))[1..] == Clean(rest, false);
      }
    }
  }

  // ---- Round trip ----

  /** A line made of a field name and a value gives back both. */
  lemma FieldLine(field: string, value: string)
    requires ':' !in field && field != ""
    ensures var line := FieldText(field, value);
            line != "" && line[0] != ':' && FieldOf(line) == field && ValueOf(line) == value
  {
    var line := FieldText(field, value);
    assert line == field + [':'] + (" " + value);
    IndexOfAt(field, ':', " " + value);
    assert line[|field| + 2..] == value;
  }

  lemma TotalLenSplit(a: seq<string>, b: seq<string>)
    ensures TotalLen(a + b) == TotalLen(a) + TotalLen(b)
  {
    if b == [] {
      assert a + b == a;
    } else {
      assert (a + b)[..|a + b| - 1] == a + b[..|b| - 1];
      TotalLenSplit(a, b[..|b| - 1]);
    }
  }

  /** Feeding one field line whose field is known. */
  lemma FeedField(field: string, value: string, rest: seq<string>, p: Pending, maxEventBytes: int)
    requires field == "event" || field == "id" || field == "data"
    requires field == "data" && maxEventBytes > 0 ==> p.dataSize + |value| <= maxEventBytes
    ensures Feed([FieldText(field, value)] + rest, p, maxEventBytes) == Feed(rest,
              if field == "event" then p.(eventType := value)
              else if field == "id" then p.(lastId := value)
              else p.(dataLines := p.dataLines + [value], dataSize := p.dataSize + |value|), maxEventBytes)
  {
    FieldLine(field, value);
    assert ([FieldText(field, value)] + rest)[1..] == rest;
  }

  lemma {:induction false} FeedData(lines: seq<string>, rest: seq<string>, p: Pending, maxEventBytes: int)
    requires maxEventBytes > 0 ==> p.dataSize + TotalLen(lines) <= maxEventBytes
    ensures Feed(DataLines(lines) + rest, p, maxEventBytes)
            == Feed(rest, p.(dataLines := p.dataLines + lines, dataSize := p.dataSize + TotalLen(lines)), maxEventBytes)
    decreases |lines|
  {
    hide *;
    if lines == [] {
      NoData();
      assert p.dataLines + lines == p.dataLines && [] + rest == rest;
    } else {
      var first, tail := lines[0], lines[1..];
      assert lines == [first] + tail;
      DataFirst(first, tail);
      ConcatAssociative([FieldText("data", first)], DataLines(tail), rest);
      FeedField("data", first, DataLines(tail) + rest, p, maxEventBytes);
      var q := p.(dataLines := p.dataLines + [first], dataSize := p.dataSize + |first|);
      ConcatAssociative(p.dataLines, [first], tail);
      FeedData(tail, rest, q, maxEventBytes);
    }
  }

  lemma NoData()
    ensures DataLines([]) == [] && TotalLen([]) == 0
  {
  }

  lemma DataFirst(first: string, tail: seq<string>)
    ensures DataLines([first] + tail) == [FieldText("data", first)] + DataLines(tail)
    ensures TotalLen([first] + tail) == |first| + TotalLen(tail)
  {
    TotalLenSplit([first], tail);
    assert ([first] + tail)[1..] == tail && [first][..0] == [];
    hide FieldText;
  }

  lemma Regroup<T>(a: seq<T>, b: seq<T>, c: seq<T>, d: seq<T>, e: seq<T>)
    ensures a + b + c + d + e == a + (b + (c + (d + e)))
  {
  }

  lemma FeedBlank(rest: seq<string>, p: Pending, maxEventBytes: int)
    ensures var (events, end) := Feed(rest, RESET, maxEventBytes);
            Feed([""] + rest, p, maxEventBytes) == (Flush(p) + events, end)
  {
    assert ([""] + rest)[1..] == rest;
  }

  /** The optional id line. */
  lemma FeedId(id: string, rest: seq<string>, p: Pending, maxEventBytes: int)
    requires p.lastId == ""
    ensures Feed((if id == "" then [] else [FieldText("id", id)]) + rest, p, maxEventBytes)
            == Feed(rest, p.(lastId := id), maxEventBytes)
  {
    if id == "" {
      assert [] + rest == rest;
    } else {
      FeedField("id", id, rest, p, maxEventBytes);
    }
  }

  /** A printed event is read as that event, and the reader is then ready for the next one. */
  lemma FeedEvent(e: Event, rest: seq<string>, maxEventBytes: int)
    requires Printable(e, maxEventBytes)
    ensures Feed(PrintLines(e) + rest, RESET, maxEventBytes)
            == ([e] + Feed(rest, RESET, maxEventBytes).0, Feed(rest, RESET, maxEventBytes).1)
  {
    var lines := Split(e.data, '\n');
    var idLines := if e.id == "" then [] else [FieldText("id", e.id)];
    var p1 := RESET.(eventType := e.kind);
    var p2 := p1.(lastId := e.id);
    var p3 := p2.(dataLines := lines, dataSize := TotalLen(lines));
    var ending := [""] + rest;
    assert Flush(p3) == [e];
    assert p2.dataLines + lines == lines;
    Regroup([FieldText("event", e.kind)], idLines, DataLines(lines), [""], rest);
    hide *;
    FeedField("event", e.kind, idLines + (DataLines(lines) + ending), RESET, maxEventBytes);
    FeedId(e.id, DataLines(lines) + ending, p1, maxEventBytes);
    FeedData(lines, ending, p2, maxEventBytes);
    FeedBlank(rest, p3, maxEventBytes);
  }

  lemma {:induction false} FeedAll(es: seq<Event>, maxEventBytes: int)
    requires forall e :: e in es ==> Printable(e, maxEventBytes)
    ensures Feed(PrintAll(es), RESET, maxEventBytes) == (es, Eof)
    decreases |es|
  {
    if es != [] {
      hide Feed, PrintLines, Printable;
      FeedAll(es[1..], maxEventBytes);
      FeedEvent(es[0], PrintAll(es[1..]), maxEventBytes);
      assert [es[0]] + es[1..] == es;
    }
  }

  /** Reading back printed events gives exactly those events, however each line is ended and wherever
      comments, and blank lines between events, are put in. */
  lemma RoundTrip(es: seq<Event>, lines: seq<Line>, maxEventBytes: int)
    requires forall e :: e in es ==> Printable(e, maxEventBytes)
    requires forall l :: l in lines ==> OneLine(l.text)
    requires Clean(Texts(lines), true) == PrintAll(es)
    ensures Read(Rendered(lines), RESET, maxEventBytes) == (es, Eof)
  {
    ReadIsFeed(lines, RESET, maxEventBytes);
    FeedClean(Texts(lines), RESET, true, maxEventBytes);
    FeedAll(es, maxEventBytes);
  }

  // ---- Where a stream may break off ----

  lemma {:induction false} FeedUnfinished(lines: seq<string>, tail: seq<string>, p: Pending, maxEventBytes: int)
    requires "" !in tail
    ensures Feed(lines + tail, p, maxEventBytes).0 == Feed(lines, p, maxEventBytes).0
    decreases |lines| + |tail|
  {
    if lines != [] {
      assert (lines + tail)[1..] == lines[1..] + tail && (lines + tail)[0] == lines[0];
      if lines[0] == "" {
        FeedUnfinished(lines[1..], tail, RESET, maxEventBytes);
      } else if lines[0][0] == ':' {
        FeedUnfinished(lines[1..], tail, p, maxEventBytes);
      } else {
        FeedUnfinished(lines[1..], tail, Absorb(p, lines[0]), maxEventBytes);
      }
    } else if tail != [] {
      assert [] + tail == tail && [] + tail[1..] == tail[1..] && tail[0] in tail;
      FeedUnfinished([], tail[1..], if tail[0][0] == ':' then p else Absorb(p, tail[0]), maxEventBytes);
    }
  }

  lemma {:induction false} TextsConcat(a: seq<Line>, b: seq<Line>)
    ensures Texts(a + b) == Texts(a) + Texts(b)
  {
    if a == [] {
      assert a + b == b && Texts(a) + Texts(b) == Texts(b);
    } else {
      assert (a + b)[1..] == a[1..] + b && (a + b)[0] == a[0];
      TextsConcat(a[1..], b);
      ConcatAssociative([a[0].text], Texts(a[1..]), Texts(b));
    }
  }

  /** A stream that ends right after a complete line drops the event it was in: complete lines after the last
      blank one emit nothing. */
  lemma UnfinishedIsDropped(lines: seq<Line>, tail: seq<Line>, maxEventBytes: int)
    requires forall l :: l in lines + tail ==> OneLine(l.text)
    requires "" !in Texts(tail)
    ensures Read(Rendered(lines + tail), RESET, maxEventBytes).0 == Read(Rendered(lines), RESET, maxEventBytes).0
  {
    assert forall l :: l in lines ==> l in lines + tail;
    hide Read, Feed, OneLine;
    ReadIsFeed(lines + tail, RESET, maxEventBytes);
    ReadIsFeed(lines, RESET, maxEventBytes);
    TextsConcat(lines, tail);
    FeedUnfinished(Texts(lines), Texts(tail), RESET, maxEventBytes);
  }

  /** A last line without a line feed, on the other hand, ends its event as if a blank line followed. */
  lemma {:induction false} BrokenLineEnds(lines: seq<Line>, last: string, p: Pending, maxEventBytes: int)
    requires forall l :: l in lines ==> OneLine(l.text)
    requires OneLine(last) && last != "" && last[0] != ':'
    ensures Read(Rendered(lines) + last, p, maxEventBytes) == Feed(Texts(lines) + [last, ""], p, maxEventBytes)
    decreases |lines|
  {
    hide *;
    if lines == [] {
      NothingRendered(last);
      LastLine(last, p, maxEventBytes);
    } else {
      var first, rest := lines[0], lines[1..];
      assert lines == [first] + rest && first in lines && forall l :: l in rest ==> l in lines;
      FirstRendered(first, rest, last);
      ReadLine(first.text, first.cr, Rendered(rest) + last, p, maxEventBytes);
      FeedLine(first.text, Texts(rest) + [last, ""], p, maxEventBytes);
      BrokenLineEnds(rest, last, RESET, maxEventBytes);
      BrokenLineEnds(rest, last, p, maxEventBytes);
      BrokenLineEnds(rest, last, Absorb(p, first.text), maxEventBytes);
    }
  }

  lemma NothingRendered(last: string)
    ensures Rendered([]) + last == last && Texts([]) + [last, ""] == [last, ""]
  {
  }

  lemma FirstRendered(first: Line, rest: seq<Line>, last: string)
    ensures Rendered([first] + rest) + last == first.text + (if first.cr then "\r\n" else "\n") + (Rendered(rest) + last)
    ensures Texts([first] + rest) + [last, ""] == [first.text] + (Texts(rest) + [last, ""])
  {
    assert ([first] + rest)[1..] == rest;
    ConcatAssociative(first.text + (if first.cr then "\r\n" else "\n"), Rendered(rest), last);
    ConcatAssociative([first.text], Texts(rest), [last, ""]);
  }

  /** One complete line, read. */
  lemma ReadLine(text: string, cr: bool, rest: string, p: Pending, maxEventBytes: int)
    requires OneLine(text)
    ensures var all := Read(text + (if cr then "\r\n" else "\n") + rest, p, maxEventBytes);
            if text == "" then
              all == (Flush(p) + Read(rest, RESET, maxEventBytes).0, Read(rest, RESET, maxEventBytes).1)
            else if text[0] == ':' then all == Read(rest, p, maxEventBytes)
            else if BadField(FieldOf(text)) then all == ([], Malformed(FieldOf(text)))
            else if Oversized(p, text, maxEventBytes) then all == ([], TooLarge(Absorb(p, text).dataSize))
            else all == Read(rest, Absorb(p, text), maxEventBytes)
  {
    FirstLine(text, cr, rest);
    hide TrimRight, LineLen, OneLine, Absorb, Flush, FieldOf, BadField, Oversized;
  }

  lemma FeedLine(text: string, rest: seq<string>, p: Pending, maxEventBytes: int)
    ensures var all := Feed([text] + rest, p, maxEventBytes);
            if text == "" then
              all == (Flush(p) + Feed(rest, RESET, maxEventBytes).0, Feed(rest, RESET, maxEventBytes).1)
            else if text[0] == ':' then all == Feed(rest, p, maxEventBytes)
            else if BadField(FieldOf(text)) then all == ([], Malformed(FieldOf(text)))
            else if Oversized(p, text, maxEventBytes) then all == ([], TooLarge(Absorb(p, text).dataSize))
            else all == Feed(rest, Absorb(p, text), maxEventBytes)
  {
    assert ([text] + rest)[1..] == rest;
    hide Absorb, Flush, FieldOf, BadField, Oversized;
  }

  lemma LastLine(last: string, p: Pending, maxEventBytes: int)
    requires OneLine(last) && last != "" && last[0] != ':'
    ensures Read(last, p, maxEventBytes) == Feed([last, ""], p, maxEventBytes)
  {
    IndexIs(last, '\n', |last|);
    assert last[..|last|] == last && TrimRight(last) == last && LineLen(last) == |last|;
    var none: seq<string> := [];
    assert [last, ""][1..] == [""] && [""][1..] == none;
    hide IndexOf, TrimRight, LineLen, Absorb, Flush, FieldOf, BadField, Oversized;
    var q := Absorb(p, last);
    assert Feed(none, RESET, maxEventBytes) == ([], Eof);
    assert Feed([""], q, maxEventBytes) == (Flush(q) + [], Eof);
    assert Flush(q) + [] == Flush(q);
  }

  // ---- The printable events are exactly those the reader can emit ----

  ghost predicate PendingOk(p: Pending, maxEventBytes: int) {
    && OneLine(p.eventType) && OneLine(p.lastId)
    && (forall l :: l in p.dataLines ==> OneLine(l))
    && p.dataSize == TotalLen(p.dataLines)
    && (maxEventBytes > 0 ==> p.dataSize <= maxEventBytes)
  }

  lemma FlushIsPrintable(p: Pending, maxEventBytes: int)
    requires PendingOk(p, maxEventBytes)
    ensures forall e :: e in Flush(p) ==> Printable(e, maxEventBytes)
  {
    if Join(p.dataLines, '\n') != "" {
      SplitJoin(p.dataLines, '\n');
    }
  }

  /** Trimming a line leaves text that fits on a line. */
  lemma {:induction false} TrimIsOneLine(s: string, n: nat)
    requires n <= |s| && '\n' !in s[..n] && forall i :: n <= i < |s| ==> s[i] == '\n'
    ensures OneLine(TrimRight(s))
    ensures TrimRight(s) <= s
    decreases |s|
  {
    if s != "" && (s[|s| - 1] == '\r' || s[|s| - 1] == '\n') {
      var t := s[..|s| - 1];
      if n == |s| {
        assert t == s[..n - 1];
        assert forall i :: 0 <= i < |t| ==> s[..n][i] == t[i];
        assert t[..n - 1] == t;
        TrimIsOneLine(t, n - 1);
      } else {
        assert t[..n] == s[..n];
        TrimIsOneLine(t, n);
      }
    } else {
      assert n == |s| && s[..n] == s;
    }
  }

  lemma LineIsOneLine(input: string)
    requires input != ""
    ensures OneLine(TrimRight(input[..LineLen(input)]))
  {
    var i := IndexOf(input, '\n');
    var line := input[..LineLen(input)];
    assert line[..i] == input[..i];
    TrimIsOneLine(line, i);
  }

  lemma SuffixIsOneLine(line: string, i: nat)
    requires OneLine(line) && i <= |line|
    ensures OneLine(line[i..])
  {
  }

  lemma AbsorbKeepsOk(p: Pending, line: string, maxEventBytes: int)
    requires PendingOk(p, maxEventBytes) && OneLine(line) && !Oversized(p, line, maxEventBytes)
    ensures PendingOk(Absorb(p, line), maxEventBytes)
  {
    var i, value := IndexOf(line, ':'), ValueOf(line);
    if i < |line| {
      SuffixIsOneLine(line, if i + 1 < |line| && line[i + 1] == ' ' then i + 2 else i + 1);
    }
    assert OneLine(value);
    TotalLenSplit(p.dataLines, [value]);
    assert TotalLen([value]) == |value| by { assert [value][..0] == []; }
  }

  /** Whatever the stream, the reader emits printable events only. */
  lemma {:induction false} ReadEmitsPrintable(input: string, p: Pending, maxEventBytes: int)
    requires PendingOk(p, maxEventBytes)
    ensures forall e :: e in Read(input, p, maxEventBytes).0 ==> Printable(e, maxEventBytes)
    decreases |input|
  {
    if input != "" {
      var n := LineLen(input);
      var last := input[n - 1] != '\n';
      var line, rest := TrimRight(input[..n]), input[n..];
      LineIsOneLine(input);
      hide LineLen, TrimRight, PendingOk, Printable, Flush, Absorb;
      FlushIsPrintable(p, maxEventBytes);
      if line == "" {
        if !last {
          ResetOk(maxEventBytes);
          ReadEmitsPrintable(rest, RESET, maxEventBytes);
        }
      } else if line[0] == ':' {
        if !last {
          ReadEmitsPrintable(rest, p, maxEventBytes);
        }
      } else if !BadField(FieldOf(line)) && !Oversized(p, line, maxEventBytes) {
        AbsorbKeepsOk(p, line, maxEventBytes);
        FlushIsPrintable(Absorb(p, line), maxEventBytes);
        if !last {
          ReadEmitsPrintable(rest, Absorb(p, line), maxEventBytes);
        }
      }
    }
  }

  lemma ResetOk(maxEventBytes: int)
    ensures PendingOk(RESET, maxEventBytes)
  {
  }

  lemma {:induction false} WithLfTexts(lines: seq<string>)
    ensures Texts(WithLf(lines)) == lines
    ensures forall l :: l in WithLf(lines) ==> l.text in lines
  {
    if lines != [] {
      WithLfTexts(lines[1..]);
    }
  }

  lemma {:induction false} PrintedLines(es: seq<Event>, maxEventBytes: int)
    requires forall e :: e in es ==> Printable(e, maxEventBytes)
    ensures forall l :: l in PrintAll(es) ==> OneLine(l)
    decreases |es|
  {
    if es != [] {
      var e := es[0];
      assert e in es;
      PrintedLines(es[1..], maxEventBytes);
      FieldOneLine("event", e.kind);
      FieldOneLine("id", e.id);
      PrintedData(Split(e.data, '\n'));
    }
  }

  lemma FieldOneLine(field: string, value: string)
    requires OneLine(value) && OneLine(field)
    ensures OneLine(FieldText(field, value))
  {
  }

  lemma {:induction false} PrintedData(lines: seq<string>)
    requires forall l :: l in lines ==> OneLine(l)
    ensures forall l :: l in DataLines(lines) ==> OneLine(l)
    decreases |lines|
  {
    if lines != [] {
      FieldOneLine("data", lines[0]);
      PrintedData(lines[1..]);
    }
  }

  /** Printing a list of events and reading it back is the identity iff every event is printable. */
  lemma RoundTripIff(es: seq<Event>, maxEventBytes: int)
    ensures Read(Rendered(WithLf(PrintAll(es))), RESET, maxEventBytes) == (es, Eof)
            <==> forall e :: e in es ==> Printable(e, maxEventBytes)
  {
    var lines := WithLf(PrintAll(es));
    if forall e :: e in es ==> Printable(e, maxEventBytes) {
      WithLfTexts(PrintAll(es));
      PrintedLines(es, maxEventBytes);
      ReadIsFeed(lines, RESET, maxEventBytes);
      FeedAll(es, maxEventBytes);
    }
    ResetOk(maxEventBytes);
    ReadEmitsPrintable(Rendered(lines), RESET, maxEventBytes);
  }

  // ---- The fields of a line ----

  /** A line with a colon has the field before the first one, and as its value what comes after, less one
      space; a line without a colon is a field without a value. */
  lemma FieldAndValue(field: string, value: string)
    requires ':' !in field
    ensures FieldOf(field) == field && ValueOf(field) == ""
    ensures FieldOf(field + ":" + value) == field
    ensures ValueOf(field + ":" + value) == if value != "" && value[0] == ' ' then value[1..] else value
  {
    var line := field + ":" + value;
    IndexIs(field, ':', |field|);
    assert field[..|field|] == field && line == field + [':'] + value;
    IndexOfAt(field, ':', value);
    assert line[..|field|] == field && line[|field| + 1..] == value;
    assert value != "" ==> line[|field| + 2..] == value[1..];
    hide IndexOf;
  }

  /** Reading stops at a line whose field is empty or holds a space or a tab; nothing is emitted after it. */
  lemma MalformedStops(line: string, cr: bool, rest: string, p: Pending, maxEventBytes: int)
    requires OneLine(line) && line != "" && line[0] != ':'
    requires FieldOf(line) == "" || ' ' in FieldOf(line) || '\t' in FieldOf(line)
    ensures Read(line + (if cr then "\r\n" else "\n") + rest, p, maxEventBytes) == ([], Malformed(FieldOf(line)))
  {
    ReadLine(line, cr, rest, p, maxEventBytes);
    hide Read, FieldOf, OneLine;
  }

  /** The data of an event that outgrows the limit stops the reading and is reported with its size. */
  lemma TooLargeStops(value: string, cr: bool, rest: string, p: Pending, maxEventBytes: int)
    requires OneLine("data:" + value) && 0 < maxEventBytes < p.dataSize + |ValueOf("data:" + value)|
    ensures Read("data:" + value + (if cr then "\r\n" else "\n") + rest, p, maxEventBytes)
            == ([], TooLarge(p.dataSize + |ValueOf("data:" + value)|))
  {
    var line := "data:" + value;
    DataLine(value, p, maxEventBytes);
    hide *;
    ReadLine(line, cr, rest, p, maxEventBytes);
  }

  lemma DataLine(value: string, p: Pending, maxEventBytes: int)
    ensures var line := "data:" + value;
            var size := p.dataSize + |ValueOf(line)|;
            && line != "" && line[0] != ':' && !BadField(FieldOf(line)) && Absorb(p, line).dataSize == size
            && (Oversized(p, line, maxEventBytes) <==> 0 < maxEventBytes < size)
  {
    FieldAndValue("data", value);
    assert "data" + ":" + value == "data:" + value;
    hide FieldOf, ValueOf;
  }

  /** A line sets its field; a field that is not event, data or id changes nothing. */
  lemma LineSets(line: string, p: Pending)
    ensures Absorb(p, line) ==
              if FieldOf(line) == "event" then Pending(ValueOf(line), p.dataLines, p.lastId, p.dataSize)
              else if FieldOf(line) == "data" then
                Pending(p.eventType, p.dataLines + [ValueOf(line)], p.lastId, p.dataSize + |ValueOf(line)|)
              else if FieldOf(line) == "id" then Pending(p.eventType, p.dataLines, ValueOf(line), p.dataSize)
              else p
  {
    hide FieldOf, ValueOf;
  }

  /** An event without a type is a message; one without data is no event. */
  lemma UntypedIsMessage(data: string, id: string, size: nat)
    ensures Flush(Pending("", [data], id, size)) == if data == "" then [] else [Event("message", data, id)]
    ensures forall kind :: Flush(Pending(kind, [], id, size)) == []
  {
  }
}
