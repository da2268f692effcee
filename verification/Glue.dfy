/** Gluing formatted points into chunks of whole lines (points/glue.go). */
module Glue {
  import opened PlainText
  import opened Points
  import opened Sequences
  import opened TextLines

  datatype Batch = Batch(metric: Metric, data: seq<Point>)

  /** What the select statement sees: a message, a timer tick, the exit, or the closed input. */
  datatype Event = Message(batch: Batch) | Tick | Exit | Closed

  function BatchLines(n: Numbers, b: Batch, k: nat): (ls: seq<string>)
    requires k <= |b.data|
    ensures |ls| == k && forall i :: 0 <= i < k ==> ls[i] == Format(n, b.metric, b.data[i])
  {
    if k == 0 then [] else BatchLines(n, b, k - 1) + [Format(n, b.metric, b.data[k - 1])]
  }

  /** The lines of all messages before the end, in order. */
  function AllLines(n: Numbers, events: seq<Event>): seq<string> {
    if events == [] then []
    else match events[0]
      case Message(b) => BatchLines(n, b, |b.data|) + AllLines(n, events[1..])
      case Tick => AllLines(n, events[1..])
      case Exit => []
      case Closed => []
  }

  /** The first end among the events, or a tick if there is none. */
  function End(events: seq<Event>): Event {
    if events == [] then Tick else if events[0].Exit? || events[0].Closed? then events[0] else End(events[1..])
  }

  /** The text is whole lines from the first on. */
  ghost predicate WholeLines(lines: seq<string>, text: string) {
    exists k :: 0 <= k <= |lines| && text == Concat(lines[..k])
  }

  /** A chunk has at most `chunkSize` bytes, or is a single line. */
  ghost predicate ChunkOk(lines: seq<string>, chunkSize: int, chunk: string) {
    chunk != "" && (|chunk| <= chunkSize || chunk in lines)
  }

  /** Chunks of the lines, cut between lines. */
  ghost predicate Chunked(lines: seq<string>, chunkSize: int, chunks: seq<string>) {
    && (forall j :: 0 <= j < |chunks| ==> ChunkOk(lines, chunkSize, chunks[j]))
    && (forall j :: 0 <= j <= |chunks| ==> WholeLines(lines, Concat(chunks[..j])))
  }

  /** What the loop keeps: the buffer holds the lines after the chunks, and would be a chunk itself. */
  ghost predicate Glued(lines: seq<string>, chunkSize: int, chunks: seq<string>, buf: string) {
    && Chunked(lines, chunkSize, chunks)
    && Concat(chunks) + buf == Concat(lines)
    && (buf == "" || ChunkOk(lines, chunkSize, buf))
  }

  lemma MoreLines(lines: seq<string>, more: seq<string>, chunkSize: int, chunks: seq<string>)
    requires Chunked(lines, chunkSize, chunks)
    ensures Chunked(lines + more, chunkSize, chunks)
  {
    forall j | 0 <= j <= |chunks|
      ensures WholeLines(lines + more, Concat(chunks[..j]))
    {
      var k :| 0 <= k <= |lines| && Concat(chunks[..j]) == Concat(lines[..k]);
      assert (lines + more)[..k] == lines[..k];
    }
    forall j | 0 <= j < |chunks|
      ensures ChunkOk(lines + more, chunkSize, chunks[j])
    {
      assert ChunkOk(lines, chunkSize, chunks[j]);
    }
  }

  lemma Flushed(lines: seq<string>, chunkSize: int, chunks: seq<string>, buf: string)
    requires Glued(lines, chunkSize, chunks, buf) && buf != ""
    ensures Glued(lines, chunkSize, chunks + [buf], "")
  {
    var chunks' := chunks + [buf];
    ConcatLast(chunks, buf);
    assert lines[..|lines|] == lines && Concat(chunks') + "" == Concat(chunks');
    forall j | 0 <= j <= |chunks'|
      ensures WholeLines(lines, Concat(chunks'[..j]))
    {
      if j <= |chunks| { assert chunks'[..j] == chunks[..j]; } else { assert chunks'[..j] == chunks'; }
    }
  }

  lemma LineAdded(lines: seq<string>, chunkSize: int, chunks: seq<string>, buf: string, s: string)
    requires Glued(lines, chunkSize, chunks, buf) && s != "" && (|buf| + |s| <= chunkSize || buf == "")
    ensures Glued(lines + [s], chunkSize, chunks, buf + s)
  {
    MoreLines(lines, [s], chunkSize, chunks);
    ConcatLast(lines, s);
    assert Concat(chunks) + (buf + s) == (Concat(chunks) + buf) + s;
    assert buf == "" ==> buf + s == s && s in lines + [s];
  }

  method Flush(chunks: seq<string>, buf: string, ghost lines: seq<string>, ghost chunkSize: int)
    returns (chunks': seq<string>, buf': string)
    requires Glued(lines, chunkSize, chunks, buf)
    ensures buf' == "" && Glued(lines, chunkSize, chunks', "")
    ensures chunks' == if buf == "" then chunks else chunks + [buf]
  {
    chunks', buf' := chunks, buf;
    if |buf| == 0 {
      return;
    }
    Flushed(lines, chunkSize, chunks, buf);
    chunks', buf' := chunks + [buf], "";
  }

  /** One line goes into the buffer, which is flushed before if there is no room. */
  method GlueLine(s: string, chunkSize: int, chunks: seq<string>, buf: string, ghost lines: seq<string>)
    returns (chunks': seq<string>, buf': string)
    requires Glued(lines, chunkSize, chunks, buf) && s != ""
    ensures Glued(lines + [s], chunkSize, chunks', buf')
    ensures |buf| + |s| <= chunkSize ==> chunks' == chunks && buf' == buf + s
    ensures |buf| + |s| > chunkSize ==> buf' == s && chunks' == if buf == "" then chunks else chunks + [buf]
  {
    chunks', buf' := chunks, buf;
    if |buf| + |s| > chunkSize {
      chunks', buf' := Flush(chunks, buf, lines, chunkSize);
    }
    LineAdded(lines, chunkSize, chunks', buf', s);
    buf' := buf' + s;
  }

  lemma NextLine(n: Numbers, b: Batch, i: nat, lines: seq<string>)
    requires i < |b.data|
    ensures lines + BatchLines(n, b, i) + [Format(n, b.metric, b.data[i])] == lines + BatchLines(n, b, i + 1)
  {
  }

  /** The loop over one message's points. */
  method GlueBatch(n: Numbers, b: Batch, chunkSize: int, chunks: seq<string>, buf: string, ghost lines: seq<string>)
    returns (chunks': seq<string>, buf': string)
    requires Glued(lines, chunkSize, chunks, buf)
    ensures Glued(lines + BatchLines(n, b, |b.data|), chunkSize, chunks', buf')
  {
    chunks', buf' := chunks, buf;
    assert lines + BatchLines(n, b, 0) == lines;
    for i := 0 to |b.data|
      invariant Glued(lines + BatchLines(n, b, i), chunkSize, chunks', buf')
    {
      NextLine(n, b, i, lines);
      chunks', buf' := GlueLine(Format(n, b.metric, b.data[i]), chunkSize, chunks', buf', lines + BatchLines(n, b, i));
    }
  }

  /** The lines that an event adds. */
  function EventLines(n: Numbers, e: Event): seq<string> {
    if e.Message? then BatchLines(n, e.batch, |e.batch.data|) else []
  }

  /** One round of the select loop. */
  method Handle(n: Numbers, e: Event, chunkSize: int, chunks: seq<string>, buf: string, ghost lines: seq<string>)
    returns (chunks': seq<string>, buf': string, done: bool)
    requires Glued(lines, chunkSize, chunks, buf)
    ensures Glued(lines + EventLines(n, e), chunkSize, chunks', buf')
    ensures done <==> e.Exit? || e.Closed?
    ensures e.Tick? || e.Closed? ==> buf' == "" && chunks' == if buf == "" then chunks else chunks + [buf]
    ensures e.Exit? ==> chunks' == chunks
  {
    chunks', buf', done := chunks, buf, false;
    assert lines + [] == lines;
    match e {
      case Message(b) =>
        chunks', buf' := GlueBatch(n, b, chunkSize, chunks, buf, lines);
      case Tick =>
        chunks', buf' := Flush(chunks, buf, lines, chunkSize);
      case Exit =>
        done := true;
      case Closed =>
        chunks', buf' := Flush(chunks, buf, lines, chunkSize);
        done := true;
    }
  }

  lemma FirstEvent(n: Numbers, events: seq<Event>, i: nat)
    requires i < |events|
    ensures AllLines(n, events[i..]) ==
            if events[i].Exit? || events[i].Closed? then EventLines(n, events[i])
            else EventLines(n, events[i]) + AllLines(n, events[i + 1..])
    ensures End(events[i..]) == if events[i].Exit? || events[i].Closed? then events[i] else End(events[i + 1..])
  {
    assert events[i..][1..] == events[i + 1..];
  }

  /**
    On a closed input the chunks are all lines, for any ticks, and so they are right after a tick;
    otherwise they are whole lines from the first on, and on exit the rest is dropped.
   */
  method Run(n: Numbers, events: seq<Event>, chunkSize: int) returns (chunks: seq<string>)
    ensures Chunked(AllLines(n, events), chunkSize, chunks)
    ensures End(events) == Closed ==> Concat(chunks) == Concat(AllLines(n, events))
    ensures WholeLines(AllLines(n, events), Concat(chunks))
    ensures events != [] && events[|events| - 1].Tick? && End(events).Tick? ==>
              Concat(chunks) == Concat(AllLines(n, events))
  {
    var buf, i, done := "", 0, false;
    ghost var all, lines := AllLines(n, events), [];
    chunks := [];
    assert lines[..0] == [] && Concat(chunks) == Concat(lines[..0]);
    assert events[0..] == events;
    while i < |events| && !done
      invariant 0 <= i <= |events|
      invariant !done ==> all == lines + AllLines(n, events[i..]) && End(events) == End(events[i..])
      invariant done ==> all == lines && !End(events).Tick? && (End(events) == Closed ==> buf == "")
      invariant !done && i > 0 && events[i - 1].Tick? ==> buf == ""
      invariant Glued(lines, chunkSize, chunks, buf)
    {
      FirstEvent(n, events, i);
      Associate(lines, EventLines(n, events[i]), AllLines(n, events[i + 1..]));
      chunks, buf, done := Handle(n, events[i], chunkSize, chunks, buf, lines);
      lines := lines + EventLines(n, events[i]);
      i := i + 1;
    }
    Finish(all, lines, chunkSize, chunks, buf);
  }

  lemma Finish(all: seq<string>, lines: seq<string>, chunkSize: int, chunks: seq<string>, buf: string)
    requires all == lines && Glued(lines, chunkSize, chunks, buf)
    ensures Chunked(all, chunkSize, chunks) && WholeLines(all, Concat(chunks))
    ensures buf == "" ==> Concat(chunks) == Concat(all)
  {
    assert chunks[..|chunks|] == chunks;
    assert WholeLines(lines, Concat(chunks[..|chunks|]));
    assert Concat(chunks) + "" == Concat(chunks);
  }

  // ---- Reading the chunks back ----

  /** The points of all messages before the end, in order. */
  function AllSamples(events: seq<Event>): seq<Sample> {
    if events == [] then []
    else match events[0]
      case Message(b) => BatchSamples(b, |b.data|) + AllSamples(events[1..])
      case Tick => AllSamples(events[1..])
      case Exit => []
      case Closed => []
  }

  function BatchSamples(b: Batch, k: nat): (r: seq<Sample>)
    requires k <= |b.data|
    ensures |r| == k && forall i :: 0 <= i < k ==> r[i] == Sample(b.metric, b.data[i].value, b.data[i].timestamp)
  {
    if k == 0 then [] else BatchSamples(b, k - 1) + [Sample(b.metric, b.data[k - 1].value, b.data[k - 1].timestamp)]
  }

  /** Every point survives the text form, and no metric breaks a line. */
  ghost predicate Survives(n: Numbers, s: Sample) {
    Printable(s.metric) && NEWLINE !in s.metric && !n.isNaN(s.value) && -EXACT <= s.timestamp <= EXACT
  }

  lemma {:induction false} SamplesOfLines(n: Numbers, events: seq<Event>)
    ensures |AllLines(n, events)| == |AllSamples(events)|
    ensures forall k :: 0 <= k < |AllSamples(events)| ==>
              var s := AllSamples(events)[k]; AllLines(n, events)[k] == Format(n, s.metric, Point(s.value, s.timestamp))
  {
    if events != [] && (events[0].Message? || events[0].Tick?) {
      SamplesOfLines(n, events[1..]);
    }
  }

  lemma FormatIsLine(n: Numbers, s: Sample)
    requires NumbersOk(n) && NEWLINE !in s.metric
    ensures IsLine(Format(n, s.metric, Point(s.value, s.timestamp)))
  {
    var line := Format(n, s.metric, Point(s.value, s.timestamp));
    var v, t := n.showValue(s.value), n.showTime(s.timestamp);
    var text := s.metric + " " + v + " " + t;
    assert line == text + [NEWLINE] && line[..|line| - 1] == text;
    assert NEWLINE !in v && NEWLINE !in t;
  }

  /** Cutting the output of a closed input into lines and parsing them gives every point back, in order. */
  lemma OutputRoundTrip(n: Numbers, events: seq<Event>, text: string)
    requires NumbersOk(n) && text == Concat(AllLines(n, events))
    requires forall k :: 0 <= k < |AllSamples(events)| ==> Survives(n, AllSamples(events)[k])
    ensures Tail(text) == "" && |Lines(text)| == |AllSamples(events)|
    ensures forall k :: 0 <= k < |AllSamples(events)| ==> ParseText(n, Lines(text)[k]) == Some(AllSamples(events)[k])
  {
    var ls, samples := AllLines(n, events), AllSamples(events);
    SamplesOfLines(n, events);
    forall k | 0 <= k < |samples|
      ensures IsLine(ls[k]) && ParseText(n, ls[k]) == Some(samples[k])
    {
      assert Survives(n, samples[k]);
      FormatIsLine(n, samples[k]);
      TextRoundTrip(n, samples[k].metric, Point(samples[k].value, samples[k].timestamp));
    }
    LinesOfConcat(ls);
  }
}
