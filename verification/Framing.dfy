/** Frames with a length prefix over a byte stream (helper/framing/conn.go). */
module Framing {
  import opened Arithmetic
  import opened Bytes
  import opened Points
  import opened Sequences

  datatype Error = EOF | UnexpectedEOF | PrefixLength | FrameTooLarge

  // ---- The wire form ----

  /** The prefix: the low `k` bytes of the length. */
  function Prefix(n: nat, k: nat, big: bool): (b: ByteString)
    ensures |b| == k
  {
    if big then ToBE(n, k) else ToLE(n, k)
  }

  function Length(b: ByteString, big: bool): nat {
    if big then FromBE(b) else FromLE(b)
  }

  function Frame(body: ByteString, k: nat, big: bool): ByteString {
    Prefix(|body|, k, big) + body
  }

  function Frames(bodies: seq<ByteString>, k: nat, big: bool): ByteString {
    if bodies == [] then [] else Frame(bodies[0], k, big) + Frames(bodies[1..], k, big)
  }

  /** Bodies that the prefix can express and the limit allows. */
  ghost predicate Fit(bodies: seq<ByteString>, k: nat, max: nat) {
    forall i :: 0 <= i < |bodies| ==> |bodies[i]| <= max && |bodies[i]| < Pow256(k)
  }

  // ---- Reading, as functions of the bytes that are still to come ----

  /** io.ReadFull: what it reads, what is left, and its error. */
  function ReadFull(input: ByteString, n: nat): (ByteString, ByteString, Option<Error>) {
    if n <= |input| then (input[..n], input[n..], None)
    else (input, [], Some(if input == [] then EOF else UnexpectedEOF))
  }

  datatype Size = Size(size: nat, rest: ByteString, err: Option<Error>)

  function NextSize(input: ByteString, k: nat, big: bool, max: nat): Size {
    var (b, rest, err) := ReadFull(input, k);
    if err.Some? then Size(0, rest, err)
    else if Length(b, big) > max then Size(0, rest, Some(PrefixLength))
    else Size(Length(b, big), rest, None)
  }

  datatype Reply = Reply(data: ByteString, rest: ByteString, err: Option<Error>)

  function NextFrame(input: ByteString, k: nat, big: bool, max: nat): Reply {
    var s := NextSize(input, k, big, max);
    if s.err.Some? then Reply([], s.rest, s.err)
    else
      var (body, rest, err) := ReadFull(s.rest, s.size);
      if err.Some? then Reply([], rest, err) else Reply(body, rest, None)
  }

  // ---- The connection ----

  class Conn {
    var input: ByteString     // bytes that the peer has sent, up to the end of the stream
    var output: ByteString    // bytes that were written
    const prefixLength: Byte
    const bigEndian: bool
    var maxFrameSize: nat
    var bytesLeft: int

    constructor Wrap(input: ByteString, prefixLength: Byte, bigEndian: bool, maxFrameSize: nat)
      ensures this.input == input && output == [] && bytesLeft == 0
      ensures this.prefixLength == prefixLength && this.bigEndian == bigEndian && this.maxFrameSize == maxFrameSize
    {
      this.input, output, bytesLeft := input, [], 0;
      this.prefixLength, this.bigEndian, this.maxFrameSize := prefixLength, bigEndian, maxFrameSize;
    }

    /** NewConn: the limit is the largest length that the prefix can express. */
    static method NewConn(input: ByteString, prefixLength: Byte, bigEndian: bool)
      returns (conn: Conn?, err: Option<Error>)
      ensures conn == null <==> prefixLength !in {1, 2, 4}
      ensures err == if conn == null then Some(PrefixLength) else None
      ensures conn != null ==> fresh(conn) && conn.input == input && conn.output == [] && conn.bytesLeft == 0
      ensures conn != null ==> conn.prefixLength == prefixLength && conn.bigEndian == bigEndian
      ensures conn != null ==> conn.maxFrameSize == Pow256(prefixLength) - 1
    {
      if prefixLength != 1 && prefixLength != 2 && prefixLength != 4 {
        return null, Some(PrefixLength);
      }
      Powers();
      var max := if prefixLength == 1 then 0xFF else if prefixLength == 2 then 0xFFFF else 0xFFFF_FFFF;
      conn := new Conn.Wrap(input, prefixLength, bigEndian, max);
      err := None;
    }

    method Receive(n: nat) returns (data: ByteString, err: Option<Error>)
      modifies this`input
      ensures (data, input, err) == ReadFull(old(input), n)
    {
      if n <= |input| {
        data, input, err := input[..n], input[n..], None;
      } else {
        err := Some(if input == [] then EOF else UnexpectedEOF);
        data, input := input, [];
      }
    }

    method ReadSize() returns (size: nat, err: Option<Error>)
      modifies this`input
      ensures Size(size, input, err) == NextSize(old(input), prefixLength, bigEndian, maxFrameSize)
    {
      var b;
      b, err := Receive(prefixLength);
      if err.Some? {
        return 0, err;
      }
      size := Length(b, bigEndian);
      if size > maxFrameSize {
        return 0, Some(PrefixLength);
      }
    }

    method ReadFrame() returns (frame: ByteString, err: Option<Error>)
      modifies this`input
      ensures Reply(frame, input, err) == NextFrame(old(input), prefixLength, bigEndian, maxFrameSize)
    {
      var size;
      size, err := ReadSize();
      if err.Some? {
        return [], err;
      }
      frame, err := Receive(size);
      if err.Some? {
        return [], err;
      }
    }

    /** Read into a buffer of `room` bytes. */
    method Read(room: nat) returns (data: ByteString, err: Option<Error>)
      modifies this`input, this`bytesLeft
      ensures (Reply(data, input, err), bytesLeft) ==
              NextRead(old(input), old(bytesLeft), room, prefixLength, bigEndian, maxFrameSize)
    {
      if bytesLeft <= 0 {
        var frameSize;
        frameSize, err := ReadSize();
        if err.Some? {
          return [], err;
        }
        bytesLeft := frameSize;
      }
      data, err := Receive(Min(bytesLeft, room));
      bytesLeft := bytesLeft - |data|;
    }

    method Write(b: ByteString) returns (n: nat, err: Option<Error>)
      modifies this`output
      ensures |b| > maxFrameSize ==> n == 0 && err == Some(FrameTooLarge) && output == old(output)
      ensures |b| <= maxFrameSize ==>
                n == |b| && err == None && output == old(output) + Frame(b, prefixLength, bigEndian)
    {
      if |b| > maxFrameSize {
        return 0, Some(FrameTooLarge);
      }
      output := output + Prefix(|b|, prefixLength, bigEndian);
      output := output + b;
      return |b|, None;
    }
  }

  /** What one Read does to the stream and to bytesLeft. */
  function NextRead(input: ByteString, bytesLeft: int, room: nat, k: nat, big: bool, max: nat): (Reply, int) {
    var s := if bytesLeft <= 0 then NextSize(input, k, big, max) else Size(bytesLeft, input, None);
    if s.err.Some? then (Reply([], s.rest, s.err), bytesLeft)
    else
      var (data, rest, err) := ReadFull(s.rest, Min(s.size, room));
      (Reply(data, rest, err), s.size - |data|)
  }

  // ---- Reading undoes writing ----

  lemma PrefixRoundTrip(n: nat, k: nat, big: bool)
    requires n < Pow256(k)
    ensures Length(Prefix(n, k, big), big) == n
  {
    if big { BERoundTrip(n, k); } else { LERoundTrip(n, k); }
  }

  lemma SizeOfFrame(body: ByteString, more: ByteString, k: nat, big: bool, max: nat)
    requires |body| <= max && |body| < Pow256(k)
    ensures NextSize(Frame(body, k, big) + more, k, big, max) == Size(|body|, body + more, None)
  {
    PrefixRoundTrip(|body|, k, big);
    var input := Frame(body, k, big) + more;
    assert input[..k] == Prefix(|body|, k, big) && input[k..] == body + more;
  }

  lemma FrameRoundTrip(body: ByteString, more: ByteString, k: nat, big: bool, max: nat)
    requires |body| <= max && |body| < Pow256(k)
    ensures NextFrame(Frame(body, k, big) + more, k, big, max) == Reply(body, more, None)
  {
    SizeOfFrame(body, more, k, big, max);
    assert (body + more)[..|body|] == body && (body + more)[|body|..] == more;
  }

  /** ReadFrame until it fails. */
  function ReadAll(input: ByteString, k: nat, big: bool, max: nat): (seq<ByteString>, Error)
    requires k > 0
    decreases |input|
  {
    var r := NextFrame(input, k, big, max);
    match r.err
    case Some(e) => ([], e)
    case None =>
      var (bodies, e) := ReadAll(r.rest, k, big, max);
      ([r.data] + bodies, e)
  }

  /** Written frames come back unchanged, and then the end of the stream. */
  lemma {:induction false} StreamRoundTrip(bodies: seq<ByteString>, k: nat, big: bool, max: nat)
    requires k > 0 && Fit(bodies, k, max)
    ensures ReadAll(Frames(bodies, k, big), k, big, max) == (bodies, EOF)
  {
    if bodies != [] {
      FrameRoundTrip(bodies[0], Frames(bodies[1..], k, big), k, big, max);
      StreamRoundTrip(bodies[1..], k, big, max);
      assert [bodies[0]] + bodies[1..] == bodies;
    }
  }

  // ---- What the bytes are, and what a broken stream gives ----

  /** Byte `i` of the prefix: the length in base 256, highest first or lowest first. */
  lemma PrefixDigits(n: nat, k: nat, big: bool, i: nat)
    requires i < k
    ensures Prefix(n, k, big)[if big then k - 1 - i else i] == (n / Pow256(i)) % 256
  {
    if big { BEDigit(n, k, i); } else { LEDigit(n, k, i); }
  }

  /** A frame without an error is a prefix and exactly as many bytes as the prefix says. */
  lemma FrameIsWhole(input: ByteString, k: nat, big: bool, max: nat)
    requires NextFrame(input, k, big, max).err == None
    ensures var r := NextFrame(input, k, big, max);
            && k <= |input| && input == input[..k] + r.data + r.rest
            && |r.data| == (if big then FromBE(input[..k]) else FromLE(input[..k])) <= max
  {
    var s := NextSize(input, k, big, max);
    assert input == input[..k] + input[k..];
    assert input[k..] == input[k..][..s.size] + input[k..][s.size..];
  }

  /** A length over the limit: the prefix is gone, and nothing else. */
  lemma TooLong(input: ByteString, k: nat, big: bool, max: nat)
    requires k <= |input| && (if big then FromBE(input[..k]) else FromLE(input[..k])) > max
    ensures NextFrame(input, k, big, max) == Reply([], input[k..], Some(PrefixLength))
  {
  }

  /** A frame cut off after `n` bytes: the end of the stream before its prefix or its body, otherwise an error. */
  lemma CutFrame(body: ByteString, n: nat, k: nat, big: bool, max: nat)
    requires k > 0 && |body| <= max && |body| < Pow256(k) && n < k + |body|
    ensures NextFrame(Frame(body, k, big)[..n], k, big, max) ==
            Reply([], [], Some(if n == 0 || n == k then EOF else UnexpectedEOF))
  {
    var input := Frame(body, k, big)[..n];
    if n >= k {
      PrefixRoundTrip(|body|, k, big);
      assert input[..k] == Prefix(|body|, k, big);
      assert |input[k..]| == n - k < |body|;
    }
  }

  /** The frames before the cut come back all the same. */
  lemma {:induction false} CutStream(bodies: seq<ByteString>, body: ByteString, n: nat, k: nat, big: bool, max: nat)
    requires k > 0 && Fit(bodies, k, max) && |body| <= max && |body| < Pow256(k) && n < k + |body|
    ensures ReadAll(Frames(bodies, k, big) + Frame(body, k, big)[..n], k, big, max) ==
            (bodies, if n == 0 || n == k then EOF else UnexpectedEOF)
  {
    var cut := Frame(body, k, big)[..n];
    if bodies == [] {
      assert Frames(bodies, k, big) + cut == cut;
      CutFrame(body, n, k, big, max);
    } else {
      var more := Frames(bodies[1..], k, big) + cut;
      Associate(Frame(bodies[0], k, big), Frames(bodies[1..], k, big), cut);
      FrameRoundTrip(bodies[0], more, k, big, max);
      CutStream(bodies[1..], body, n, k, big, max);
      assert [bodies[0]] + bodies[1..] == bodies;
    }
  }

  /** A Read from a frame that the stream does not finish gives what there is, with an error. */
  lemma CutRead(input: ByteString, bytesLeft: int, room: nat, k: nat, big: bool, max: nat)
    requires bytesLeft > |input| && room > |input|
    ensures NextRead(input, bytesLeft, room, k, big, max) ==
            (Reply(input, [], Some(if input == [] then EOF else UnexpectedEOF)), bytesLeft - |input|)
  {
  }

  // ---- Read with any buffer sizes ----

  /** The reader is inside a frame of which `current` is left, and `bodies` are still to come. */
  ghost predicate At(input: ByteString, bytesLeft: int, current: ByteString, bodies: seq<ByteString>, k: nat,
                     big: bool) {
    bytesLeft == |current| && input == current + Frames(bodies, k, big)
  }

  /** The frame that the next Read takes from, and the frames after it. */
  function Opened(current: ByteString, bodies: seq<ByteString>): (ByteString, seq<ByteString>) {
    if current == [] && bodies != [] then (bodies[0], bodies[1..]) else (current, bodies)
  }

  lemma TakeSome(frame: ByteString, more: ByteString, n: nat)
    requires n <= |frame|
    ensures ReadFull(frame + more, n) == (frame[..n], frame[n..] + more, None)
    ensures frame[..n] + (frame[n..] + more) == frame + more
  {
    assert (frame + more)[..n] == frame[..n] && (frame + more)[n..] == frame[n..] + more;
  }

  /** One Read returns the next bytes of one frame, as many as fit; only at the end of the stream it fails. */
  lemma ReadStaysInFrame(input: ByteString, bytesLeft: int, room: nat, current: ByteString, bodies: seq<ByteString>,
                         k: nat, big: bool, max: nat)
    requires k > 0 && Fit(bodies, k, max) && At(input, bytesLeft, current, bodies, k, big)
    ensures var (r, left) := NextRead(input, bytesLeft, room, k, big, max);
            if current == [] && bodies == [] then r == Reply([], [], Some(EOF)) && left == 0
            else
              var (frame, later) := Opened(current, bodies);
              var n := Min(|frame|, room);
              r == Reply(frame[..n], frame[n..] + Frames(later, k, big), None) && left == |frame| - n
  {
    var (frame, later) := Opened(current, bodies);
    TakeSome(frame, Frames(later, k, big), Min(|frame|, room));
    if current == [] && bodies != [] {
      assert input == Frame(frame, k, big) + Frames(later, k, big);
      SizeOfFrame(frame, Frames(later, k, big), k, big, max);
    }
  }

  /** The data of successive Reads. */
  function ReadMany(input: ByteString, bytesLeft: int, rooms: seq<nat>, k: nat, big: bool, max: nat): seq<ByteString>
    decreases |rooms|
  {
    if rooms == [] then []
    else
      var (r, left) := NextRead(input, bytesLeft, rooms[0], k, big, max);
      [r.data] + ReadMany(r.rest, left, rooms[1..], k, big, max)
  }

  /** The first of several Reads. */
  lemma FirstRead(input: ByteString, bytesLeft: int, rooms: seq<nat>, current: ByteString, bodies: seq<ByteString>,
                  k: nat, big: bool, max: nat)
    returns (data: ByteString, rest: ByteString, left: int, current': ByteString, bodies': seq<ByteString>)
    requires k > 0 && Fit(bodies, k, max) && At(input, bytesLeft, current, bodies, k, big) && rooms != []
    ensures ReadMany(input, bytesLeft, rooms, k, big, max) == [data] + ReadMany(rest, left, rooms[1..], k, big, max)
    ensures At(rest, left, current', bodies', k, big) && Fit(bodies', k, max)
    ensures data + (current' + Concat(bodies')) == current + Concat(bodies)
    ensures rooms[0] > 0 && Remaining(current, bodies) > 0 ==> Remaining(current', bodies') < Remaining(current, bodies)
    ensures Remaining(current, bodies) == 0 ==> Remaining(current', bodies') == 0
  {
    var (r, next) := NextRead(input, bytesLeft, rooms[0], k, big, max);
    ReadStaysInFrame(input, bytesLeft, rooms[0], current, bodies, k, big, max);
    data, rest, left := r.data, r.rest, next;
    if current == [] && bodies == [] {
      current', bodies' := [], [];
    } else {
      var (frame, later) := Opened(current, bodies);
      var n := Min(|frame|, rooms[0]);
      TakeSome(frame, Concat(later), n);
      current', bodies' := frame[n..], later;
      assert current == [] ==> [] + Concat(bodies) == Concat(bodies);
    }
  }

  /** How many bytes and frames are left. */
  function Remaining(current: ByteString, bodies: seq<ByteString>): nat {
    |current| + |Concat(bodies)| + |bodies|
  }

  /** What is read is a prefix of what was written, for any buffer sizes. */
  lemma {:induction false} ReadsGiveTheBytes(input: ByteString, bytesLeft: int, rooms: seq<nat>, current: ByteString,
                                             bodies: seq<ByteString>, k: nat, big: bool, max: nat)
    requires k > 0 && Fit(bodies, k, max) && At(input, bytesLeft, current, bodies, k, big)
    ensures Concat(ReadMany(input, bytesLeft, rooms, k, big, max)) <= current + Concat(bodies)
    decreases |rooms|
  {
    if rooms != [] {
      var data, rest, left, current', bodies' := FirstRead(input, bytesLeft, rooms, current, bodies, k, big, max);
      ReadsGiveTheBytes(rest, left, rooms[1..], current', bodies', k, big, max);
      ConcatFirst(data, ReadMany(rest, left, rooms[1..], k, big, max));
    }
  }

  /** With non-empty buffers, as many Reads as there are bytes and frames give everything. */
  lemma {:induction false} EnoughReads(input: ByteString, bytesLeft: int, rooms: seq<nat>, current: ByteString,
                                       bodies: seq<ByteString>, k: nat, big: bool, max: nat)
    requires k > 0 && Fit(bodies, k, max) && At(input, bytesLeft, current, bodies, k, big)
    requires (forall i :: 0 <= i < |rooms| ==> rooms[i] > 0) && |rooms| >= Remaining(current, bodies)
    ensures Concat(ReadMany(input, bytesLeft, rooms, k, big, max)) == current + Concat(bodies)
    decreases |rooms|
  {
    if rooms == [] {
      assert current == [] && bodies == [];
    } else {
      var data, rest, left, current', bodies' := FirstRead(input, bytesLeft, rooms, current, bodies, k, big, max);
      EnoughReads(rest, left, rooms[1..], current', bodies', k, big, max);
      ConcatFirst(data, ReadMany(rest, left, rooms[1..], k, big, max));
    }
  }
}
