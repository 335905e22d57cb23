/** Framing and parsing of the event stream (apps/web/lib/research/sse-client.ts), and the text
    the server writes (src/finsage/api/routes.py). Text is decoded characters; the JSON printer
    and parser are parameters. */
module SseWire {
  import opened Options
  import opened Seqs
  import opened Events

  /** `parse` is JSON.parse read as an envelope, None where it throws or is no envelope. */
  datatype Codec = Codec(render: Event -> string, parse: string -> Option<Event>, space: char -> bool)

  /** JSON text has no raw newline, and leading blanks do not matter to the parser. */
  ghost predicate Faithful(c: Codec) {
    && (forall e: Event :: '\n' !in c.render(e))
    && forall e: Event :: e.id != "" ==> c.parse(" " + c.render(e)) == Some(e)
  }

  // Frames

  /** buffer.indexOf("\n\n"). */
  function BlankLine(s: string): (r: Option<nat>)
    ensures r.Some? ==> r.value + 2 <= |s| && s[r.value] == s[r.value + 1] == '\n'
    ensures forall i | 0 <= i && i + 1 < (if r.Some? then r.value + 1 else |s|) :: !(s[i] == '\n' && s[i + 1] == '\n')
  {
    if |s| < 2 then None
    else if s[0] == '\n' && s[1] == '\n' then Some(0)
    else
      var r := BlankLine(s[1..]);
      assert forall i | 1 <= i && i + 1 < |s| :: s[i] == s[1..][i - 1] && s[i + 1] == s[1..][i];
      if r.Some? then Some(r.value + 1) else None
  }

  /** The complete frames of a text, and what is left over. */
  function Frames(s: string): seq<string>
    decreases |s|
  {
    match BlankLine(s)
    case None => []
    case Some(i) => [s[..i]] + Frames(s[i + 2..])
  }

  function Rest(s: string): string
    decreases |s|
  {
    match BlankLine(s)
    case None => s
    case Some(i) => Rest(s[i + 2..])
  }

  /** More text after the first blank line does not move it. */
  lemma BlankLineStays(a: string, b: string)
    requires BlankLine(a).Some?
    ensures BlankLine(a + b) == BlankLine(a)
  {
    var i, j := BlankLine(a).value, BlankLine(a + b);
    assert (a + b)[i] == '\n' && (a + b)[i + 1] == '\n';
    assert forall k | 0 <= k < |a| :: (a + b)[k] == a[k];
  }

  lemma {:induction false} FramesStep(s: string, i: nat)
    requires BlankLine(s) == Some(i)
    ensures Frames(s) == [s[..i]] + Frames(s[i + 2..])
  {}

  lemma {:induction false} RestStep(s: string, i: nat)
    requires BlankLine(s) == Some(i)
    ensures Rest(s) == Rest(s[i + 2..])
  {}

  /** Reading b after a: the frames of a, then those of what a left over with b. */
  lemma {:induction false} FramesAdd(a: string, b: string)
    ensures Frames(a + b) == Frames(a) + Frames(Rest(a) + b)
    ensures Rest(a + b) == Rest(Rest(a) + b)
    decreases |a|
  {
    match BlankLine(a)
    case None => assert [] + Frames(a + b) == Frames(a + b);
    case Some(i) =>
      BlankLineStays(a, b);
      SliceAdd(a, b, i);
      SliceAdd(a, b, i + 2);
      FramesStep(a, i);
      RestStep(a, i);
      FramesStep(a + b, i);
      RestStep(a + b, i);
      var tail := a[i + 2..];
      FramesAdd(tail, b);
      AddAssociates([a[..i]], Frames(tail), Frames(Rest(tail) + b));
  }

  function Concat(chunks: seq<string>): string {
    if chunks == [] then "" else Concat(chunks[..|chunks| - 1]) + chunks[|chunks| - 1]
  }

  /** The frames cut, read by read, and the buffer left. */
  function FramesRead(chunks: seq<string>): (seq<string>, string) {
    if chunks == [] then ([], "")
    else
      var (frames, buffer) := FramesRead(chunks[..|chunks| - 1]);
      var text := buffer + chunks[|chunks| - 1];
      (frames + Frames(text), Rest(text))
  }

  /** However the text is split into reads, the frames are those of the whole text. */
  lemma {:induction false} FramesOfReads(chunks: seq<string>)
    ensures FramesRead(chunks) == (Frames(Concat(chunks)), Rest(Concat(chunks)))
  {
    if chunks != [] {
      FramesOfReads(chunks[..|chunks| - 1]);
      FramesAdd(Concat(chunks[..|chunks| - 1]), chunks[|chunks| - 1]);
    }
  }

  // One frame

  function Newline(s: string): (r: Option<nat>)
    ensures r.Some? <==> '\n' in s
    ensures r.Some? ==> r.value < |s| && s[r.value] == '\n' && '\n' !in s[..r.value]
  {
    if s == "" then None
    else if s[0] == '\n' then Some(0)
    else
      assert s == [s[0]] + s[1..];
      var r := Newline(s[1..]);
      if r.Some? then (assert s[..r.value + 1] == [s[0]] + s[1..][..r.value]; Some(r.value + 1)) else None
  }

  /** text.split(/\r?\n/). */
  function Lines(s: string): seq<string>
    decreases |s|
  {
    match Newline(s)
    case None => [s]
    case Some(i) =>
      [if i > 0 && s[i - 1] == '\r' then s[..i - 1] else s[..i]] + Lines(s[i + 1..])
  }

  predicate StartsWith(s: string, prefix: string) {
    |prefix| <= |s| && s[..|prefix|] == prefix
  }

  /** What follows "data:" on the data lines. */
  function DataLines(lines: seq<string>): seq<string> {
    if lines == [] then []
    else if StartsWith(lines[0], "data:") then [lines[0][5..]] + DataLines(lines[1..])
    else DataLines(lines[1..])
  }

  function Join(lines: seq<string>): string {
    if lines == [] then ""
    else if |lines| == 1 then lines[0]
    else lines[0] + "\n" + Join(lines[1..])
  }

  /** A line ends at a newline, and a carriage return right before it is no part of it. */
  lemma {:induction false} LineEnds(line: string, rest: string)
    requires '\n' !in line
    ensures Lines(line + "\r\n" + rest) == [line] + Lines(rest)
    ensures line == "" || line[|line| - 1] != '\r' ==> Lines(line + "\n" + rest) == [line] + Lines(rest)
    ensures Lines(line) == [line]
  {
    CutAtNewline(line + "\r", rest);
    CutAtNewline(line, rest);
    assert line + "\r\n" + rest == line + "\r" + "\n" + rest;
  }

  lemma CutAtNewline(line: string, rest: string)
    requires '\n' !in line
    ensures var n := |line|;
            Lines(line + "\n" + rest) ==
            [if n > 0 && line[n - 1] == '\r' then line[..n - 1] else line] + Lines(rest)
  {
    var s, n := line + "\n" + rest, |line|;
    var i := Newline(s);
    assert s[n] == '\n' && s[..n] == line && s[n + 1..] == rest;
    assert forall m | 0 <= m < n :: s[m] == line[m] && line[m] in line;
    assert forall m | n < m <= |s| :: s[..m][n] == '\n';
    if n > 0 && line[n - 1] == '\r' { assert s[..n - 1] == line[..n - 1]; }
  }

  /** Lines that do not start with "data:" say nothing. */
  lemma {:induction false} DataLinesAdd(a: seq<string>, b: seq<string>)
    ensures DataLines(a + b) == DataLines(a) + DataLines(b)
    ensures |a| == 1 ==> DataLines(a) == if |a[0]| >= 5 && a[0][..5] == "data:" then [a[0][5..]] else []
  {
    if a == [] {
      assert a + b == b;
    } else {
      assert (a + b)[1..] == a[1..] + b;
      DataLinesAdd(a[1..], b);
    }
  }

  /** A frame without data is no event. */
  lemma NoDataNoEvent(c: Codec, frame: string)
    requires DataLines(Lines(frame)) == []
    ensures ParseFrame(c, frame).None?
  {}

  /** The lines in order, with a newline between any two neighbours. */
  lemma {:induction false} JoinSplits(a: seq<string>, b: seq<string>)
    requires a != [] && b != []
    ensures Join(a + b) == Join(a) + "\n" + Join(b)
    ensures |a| == 1 ==> Join(a) == a[0]
  {
    assert (a + b)[1..] == a[1..] + b;
    if |a| > 1 {
      JoinSplits(a[1..], b);
    } else {
      assert a[1..] + b == b;
    }
  }

  function ParseFrame(c: Codec, frame: string): Option<Event> {
    var data := DataLines(Lines(frame));
    if data == [] then None
    else match c.parse(Join(data))
         case Some(e) => if e.id == "" then None else Some(e)
         case None => None
  }

  // What the server writes

  function FrameOf(c: Codec, e: Event): string { "data: " + c.render(e) }

  function Written(c: Codec, events: seq<Event>): string {
    if events == [] then ""
    else Written(c, events[..|events| - 1]) + (FrameOf(c, events[|events| - 1]) + "\n\n")
  }

  function Framer(c: Codec): Event -> string { (e: Event) => FrameOf(c, e) }

  function FramesOf(c: Codec, events: seq<Event>): seq<string> {
    Map(Framer(c), events)
  }

  /** A text without a newline, closed by a blank line, is one frame. */
  lemma OneFrame(text: string)
    requires '\n' !in text
    ensures Frames(text + "\n\n") == [text] && Rest(text + "\n\n") == ""
  {
    var s := text + "\n\n";
    var r := BlankLine(s);
    assert s[|text|] == '\n' && s[|text| + 1] == '\n';
    assert r.Some? && r.value <= |text|;
    assert forall m | 0 <= m < |text| :: s[m] == text[m] && text[m] in text;
    assert s[..|text|] == text && s[|text| + 2..] == "";
  }

  lemma OneMoreFrame(written: string, frame: string)
    requires Rest(written) == "" && '\n' !in frame
    ensures Frames(written + (frame + "\n\n")) == Frames(written) + [frame]
    ensures Rest(written + (frame + "\n\n")) == ""
  {
    OneFrame(frame);
    FramesAdd(written, frame + "\n\n");
    assert "" + (frame + "\n\n") == frame + "\n\n";
  }

  lemma {:induction false} WrittenFrames(c: Codec, events: seq<Event>)
    requires Faithful(c)
    ensures Frames(Written(c, events)) == FramesOf(c, events) && Rest(Written(c, events)) == ""
  {
    if events != [] {
      var init, e := events[..|events| - 1], events[|events| - 1];
      WrittenFrames(c, init);
      assert '\n' !in FrameOf(c, e);
      OneMoreFrame(Written(c, init), FrameOf(c, e));
      MapAdd(Framer(c), init, e);
      PrefixStep(events, |events| - 1);
      WholePrefix(events);
    }
  }

  lemma FrameParses(c: Codec, e: Event)
    requires Faithful(c) && e.id != ""
    ensures ParseFrame(c, FrameOf(c, e)) == Some(e)
  {
    var frame := FrameOf(c, e);
    assert '\n' !in frame;
    assert Lines(frame) == [frame];
    assert frame[..5] == "data:";
    assert frame[5..] == " " + c.render(e);
    assert DataLines([frame]) == [frame[5..]] + DataLines([]);
    assert Join(DataLines(Lines(frame))) == " " + c.render(e);
  }

  function ParseAll(c: Codec, frames: seq<string>): seq<Option<Event>> {
    Map((f: string) => ParseFrame(c, f), frames)
  }

  /** Whatever the reads, a log the server writes comes back event by event, with nothing
      left in the buffer. */
  lemma {:induction false} LogRoundTrip(c: Codec, log: seq<Event>, chunks: seq<string>)
    requires Faithful(c) && (forall e | e in log :: e.id != "") && Concat(chunks) == Written(c, log)
    ensures ParseAll(c, FramesRead(chunks).0) == Map((e: Event) => Some(e), log) && FramesRead(chunks).1 == ""
  {
    FramesOfReads(chunks);
    WrittenFrames(c, log);
    forall i | 0 <= i < |log| ensures ParseFrame(c, FramesOf(c, log)[i]) == Some(log[i]) {
      FrameParses(c, log[i]);
    }
  }

  /** What has been read of a written log holds the frames of its first events. */
  lemma {:induction false} PartOfWritten(c: Codec, events: seq<Event>, read: string, unread: string)
    requires Faithful(c) && read + unread == Written(c, events)
    ensures var n := |Frames(read)|; n <= |events| && Frames(read) == FramesOf(c, events[..n])
    ensures unread == "" ==> |Frames(read)| == |events|
  {
    WrittenFrames(c, events);
    FramesAdd(read, unread);
    var n := |Frames(read)|;
    assert Frames(read) == FramesOf(c, events)[..n];
    if unread == "" { assert read + unread == read; }
  }

  // Data over several lines

  function DataFrame(lines: seq<string>): string
    requires lines != []
  {
    if |lines| == 1 then "data:" + lines[0] else "data:" + lines[0] + "\n" + DataFrame(lines[1..])
  }

  lemma DataLine(line: string, more: seq<string>)
    ensures DataLines(["data:" + line] + more) == [line] + DataLines(more)
  {
    var all := ["data:" + line] + more;
    assert all[0][..5] == "data:" && all[0][5..] == line && all[1..] == more;
  }

  lemma {:induction false} SeveralLines(lines: seq<string>)
    requires lines != [] && forall l | l in lines :: '\n' !in l && '\r' !in l
    ensures DataLines(Lines(DataFrame(lines))) == lines
  {
    var first := "data:" + lines[0];
    assert lines[0] in lines;
    assert '\n' !in first && '\r' !in first;
    if |lines| == 1 {
      DataLine(lines[0], []);
      assert [first] + [] == Lines(first) && lines == [lines[0]] + [];
    } else {
      FirstLine(first, DataFrame(lines[1..]));
      SeveralLines(lines[1..]);
      DataLine(lines[0], Lines(DataFrame(lines[1..])));
      assert lines == [lines[0]] + lines[1..];
    }
  }

  /** Data sent as several data lines is joined back with newlines. */
  lemma SeveralLinesJoined(c: Codec, lines: seq<string>)
    requires lines != [] && forall l | l in lines :: '\n' !in l && '\r' !in l
    ensures ParseFrame(c, DataFrame(lines)) ==
            match c.parse(Join(lines)) case Some(e) => (if e.id == "" then None else Some(e)) case None => None
  {
    SeveralLines(lines);
  }

  lemma {:induction false} FirstLine(first: string, rest: string)
    requires '\n' !in first && '\r' !in first
    ensures Lines(first + "\n" + rest) == [first] + Lines(rest)
  {
    var s := first + "\n" + rest;
    var i := Newline(s);
    assert s[|first|] == '\n';
    assert forall m | 0 <= m < |first| :: s[m] == first[m] && first[m] in first;
    assert forall m | |first| < m <= |s| :: s[..m][|first|] == '\n';
    assert s[..|first|] == first && s[|first| + 1..] == rest;
  }
}
