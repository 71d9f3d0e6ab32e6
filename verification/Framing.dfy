// Length-prefixed framing: a 4-byte big-endian length, then that many bytes of JSON. The JSON codec
// is a parameter; all that is used of it is that parsing undoes serialising.
module Framing {
  import opened Sequences

  const MAX_FRAME_BYTES: nat := 16 * 1024 * 1024

  datatype Json<!Msg> = Json(ser: Msg -> seq<byte>, parse: seq<byte> -> Option<Msg>)

  ghost predicate Faithful<Msg(!new)>(json: Json<Msg>) {
    forall m :: json.parse(json.ser(m)) == Some(m)
  }

  // writeUInt32BE and readUInt32BE.
  function Header(n: nat): (h: seq<byte>)
    requires n < 0x1_0000_0000
    ensures |h| == 4
  {
    [(n / 256 / 256 / 256) as byte, (n / 256 / 256 % 256) as byte, (n / 256 % 256) as byte, (n % 256) as byte]
  }

  function Length(b: seq<byte>): nat
    requires |b| >= 4
  {
    b[0] as int * 0x100_0000 + b[1] as int * 0x1_0000 + b[2] as int * 0x100 + b[3] as int
  }

  // The header is big-endian, and reads back as the length.
  lemma HeaderRoundTrip(n: nat, rest: seq<byte>)
    requires n < 0x1_0000_0000
    ensures Length(Header(n) + rest) == n
    ensures var h := Header(n); h[0] as int * 0x100_0000 + h[1] as int * 0x1_0000 + h[2] as int * 0x100 + h[3] as int == n
  {
  }

  function Frame(body: seq<byte>): seq<byte>
    requires |body| <= MAX_FRAME_BYTES
  {
    Header(|body|) + body
  }

  // None when the source throws because the message is too large.
  function EncodeFrame<Msg>(json: Json<Msg>, m: Msg): Option<seq<byte>> {
    var body := json.ser(m);
    if |body| > MAX_FRAME_BYTES then None else Some(Frame(body))
  }

  // A message is encoded exactly when its text is within 16 MiB, as its length and its text.
  lemma EncodesExactly<Msg>(json: Json<Msg>, m: Msg)
    ensures EncodeFrame(json, m).Some? <==> |json.ser(m)| <= 16777216
    ensures EncodeFrame(json, m).Some? ==>
      var b := EncodeFrame(json, m).value;
      && |b| == 4 + |json.ser(m)| && b[4..] == json.ser(m)
      && b[0] as int * 0x100_0000 + b[1] as int * 0x1_0000 + b[2] as int * 0x100 + b[3] as int == |json.ser(m)|
  {
    hide Header, Length;
    if |json.ser(m)| <= MAX_FRAME_BYTES {
      HeaderRoundTrip(|json.ser(m)|, []);
    }
  }

  ghost predicate Sendable<Msg>(json: Json<Msg>, ms: seq<Msg>) {
    forall i :: 0 <= i < |ms| ==> EncodeFrame(json, ms[i]).Some?
  }

  ghost function EncodeAll<Msg>(json: Json<Msg>, ms: seq<Msg>): seq<byte>
    requires Sendable(json, ms)
  {
    if ms == [] then [] else EncodeFrame(json, ms[0]).value + EncodeAll(json, ms[1..])
  }

  datatype Error = TooLarge(length: nat) | BadJson

  // What decoding a buffer yields: messages, the bytes kept, and the error that stopped it, if any.
  datatype Decoded<Msg> = Decoded(out: seq<Msg>, rest: seq<byte>, error: Option<Error>)

  predicate HasFrame(b: seq<byte>) {
    |b| >= 4 && |b| >= 4 + Length(b)
  }

  function Decode<Msg>(json: Json<Msg>, b: seq<byte>): Decoded<Msg>
    decreases |b|
  {
    if |b| < 4 then Decoded([], b, None)
    else if Length(b) > MAX_FRAME_BYTES then Decoded([], b, Some(TooLarge(Length(b))))
    else if !HasFrame(b) then Decoded([], b, None)
    else
      match json.parse(b[4..4 + Length(b)])
      case None => Decoded([], b, Some(BadJson))
      case Some(m) =>
        var d := Decode(json, b[4 + Length(b)..]);
        d.(out := [m] + d.out)
  }

  datatype Result<Msg> = Messages(out: seq<Msg>) | Throws(error: Error)

  class FrameDecoder<Msg> {
    const json: Json<Msg>
    var buf: seq<byte>

    constructor (json: Json<Msg>)
      ensures this.json == json && buf == []
    {
      this.json, buf := json, [];
    }

    // Messages completed by this chunk; a throw loses those found before the bad frame, and keeps the
    // bad frame in the buffer.
    method Push(chunk: seq<byte>) returns (r: Result<Msg>)
      modifies this
      ensures var d := Decode(json, old(buf) + chunk);
        && buf == d.rest
        && r == if d.error.Some? then Throws(d.error.value) else Messages(d.out)
    {
      hide Decode, Length;
      buf := if |buf| == 0 then chunk else buf + chunk;
      assert [] + chunk == chunk;
      ghost var all := buf;
      var out: seq<Msg> := [];
      while |buf| >= 4
        invariant Decode(json, all) == Decode(json, buf).(out := out + Decode(json, buf).out)
        decreases |buf|
      {
        DecodeStops(json, buf);
        var len := Length(buf);
        if len > MAX_FRAME_BYTES {
          return Throws(TooLarge(len));
        }
        if |buf| < 4 + len {
          break;
        }
        var body := buf[4..4 + len];
        match json.parse(body) {
          case None => return Throws(BadJson);
          case Some(m) =>
            DecodeStep(json, buf);
            assert out + ([m] + Decode(json, buf[4 + len..]).out) == out + [m] + Decode(json, buf[4 + len..]).out;
            out := out + [m];
            buf := buf[4 + len..];
        }
      }
      DecodeStops(json, buf);
      return Messages(out);
    }
  }

  // ---- chunking does not matter ----

  predicate Readable<Msg>(json: Json<Msg>, b: seq<byte>) {
    HasFrame(b) && Length(b) <= MAX_FRAME_BYTES && json.parse(b[4..4 + Length(b)]).Some?
  }

  lemma DecodeStep<Msg>(json: Json<Msg>, b: seq<byte>)
    requires Readable(json, b)
    ensures var e := Decode(json, b[4 + Length(b)..]);
      Decode(json, b) == e.(out := [json.parse(b[4..4 + Length(b)]).value] + e.out)
  {
  }

  lemma DecodeStops<Msg>(json: Json<Msg>, b: seq<byte>)
    ensures |b| >= 4 && Length(b) > MAX_FRAME_BYTES ==> Decode(json, b) == Decoded([], b, Some(TooLarge(Length(b))))
    ensures |b| < 4 || (Length(b) <= MAX_FRAME_BYTES && !HasFrame(b)) ==> Decode(json, b) == Decoded([], b, None)
    ensures HasFrame(b) && Length(b) <= MAX_FRAME_BYTES && !Readable(json, b)
      ==> Decode(json, b) == Decoded([], b, Some(BadJson))
  {
  }

  lemma ReadableAppend<Msg>(json: Json<Msg>, a: seq<byte>, b: seq<byte>)
    requires Readable(json, a)
    ensures Readable(json, a + b) && Length(a + b) == Length(a)
    ensures var n := 4 + Length(a); (a + b)[4..n] == a[4..n] && (a + b)[n..] == a[n..] + b
  {
    var n := 4 + Length(a);
    assert (a + b)[4..n] == a[4..n];
  }

  // Decoding a longer buffer continues where decoding its prefix stopped.
  lemma {:induction false} DecodeAppend<Msg>(json: Json<Msg>, a: seq<byte>, b: seq<byte>)
    requires Decode(json, a).error.None?
    ensures var d, e := Decode(json, a), Decode(json, Decode(json, a).rest + b);
      Decode(json, a + b) == e.(out := d.out + e.out)
    decreases |a|
  {
    hide Decode, Length;
    if !Readable(json, a) {
      DecodeStops(json, a);
      assert [] + Decode(json, a + b).out == Decode(json, a + b).out;
    } else {
      var n := 4 + Length(a);
      var m := json.parse(a[4..n]).value;
      DecodeStep(json, a);
      ReadableAppend(json, a, b);
      DecodeStep(json, a + b);
      DecodeAppend(json, a[n..], b);
      var d, e := Decode(json, a[n..]), Decode(json, Decode(json, a).rest + b);
      assert [m] + (d.out + e.out) == ([m] + d.out) + e.out;
    }
  }

  function Concat(chunks: seq<seq<byte>>): seq<byte> {
    if chunks == [] then [] else chunks[0] + Concat(chunks[1..])
  }

  // The state of a decoder that starts with `buf` and is pushed the chunks in order.
  function Feed<Msg>(json: Json<Msg>, buf: seq<byte>, chunks: seq<seq<byte>>): Decoded<Msg>
    decreases |chunks|
  {
    if chunks == [] then Decoded([], buf, None)
    else
      var d := Decode(json, buf + chunks[0]);
      if d.error.Some? then d
      else
        var e := Feed(json, d.rest, chunks[1..]);
        e.(out := d.out + e.out)
  }

  lemma {:induction false} RestIsUndecodable<Msg>(json: Json<Msg>, b: seq<byte>)
    requires Decode(json, b).error.None?
    ensures Decode(json, Decode(json, b).rest) == Decoded([], Decode(json, b).rest, None)
    ensures !HasFrame(Decode(json, b).rest)
    decreases |b|
  {
    if Decode(json, b).out != [] {
      RestIsUndecodable(json, b[4 + Length(b)..]);
    }
  }

  // Where decoding ends: before a frame that is not complete, before one over the limit, or before a complete one
  // that does not parse.
  lemma {:induction false} DecodeEnds<Msg>(json: Json<Msg>, b: seq<byte>)
    ensures var d := Decode(json, b);
      match d.error
      case None => !HasFrame(d.rest) && (|d.rest| >= 4 ==> Length(d.rest) <= 16777216)
      case Some(TooLarge(n)) => |d.rest| >= 4 && Length(d.rest) == n > 16777216
      case Some(BadJson) => HasFrame(d.rest) && Length(d.rest) <= 16777216 && json.parse(d.rest[4..4 + Length(d.rest)]).None?
    decreases |b|
  {
    hide Decode, Length;
    if Readable(json, b) {
      DecodeStep(json, b);
      DecodeEnds(json, b[4 + Length(b)..]);
    } else {
      DecodeStops(json, b);
    }
  }

  lemma StopsAppend<Msg>(json: Json<Msg>, a: seq<byte>, b: seq<byte>)
    requires !Readable(json, a) && Decode(json, a).error.Some?
    ensures Decode(json, a + b) == Decoded([], a + b, Decode(json, a).error) && Decode(json, a).out == [] && Decode(json, a).rest == a
  {
    hide Decode, Length;
    DecodeStops(json, a);
    DecodeStops(json, a + b);
    PrefixLength(a, a + b);
    if HasFrame(a) {
      assert (a + b)[4..4 + Length(a)] == a[4..4 + Length(a)];
    }
  }

  // What stops the decoder stops it whatever follows.
  lemma {:induction false} ErrorStays<Msg>(json: Json<Msg>, a: seq<byte>, b: seq<byte>)
    requires Decode(json, a).error.Some?
    ensures var d := Decode(json, a); Decode(json, a + b) == d.(rest := d.rest + b)
    decreases |a|
  {
    hide Decode, Length;
    if Readable(json, a) {
      DecodeStep(json, a);
      ReadableAppend(json, a, b);
      DecodeStep(json, a + b);
      ErrorStays(json, a[4 + Length(a)..], b);
    } else {
      StopsAppend(json, a, b);
    }
  }

  // Every split of a stream into chunks gives the same messages and the same error, if any; and the same leftover, but
  // for what comes after the chunk that threw.
  lemma {:induction false} ChunksDoNotMatter<Msg>(json: Json<Msg>, buf: seq<byte>, chunks: seq<seq<byte>>)
    requires Decode(json, buf) == Decoded([], buf, None)
    ensures var fed, whole := Feed(json, buf, chunks), Decode(json, buf + Concat(chunks));
      && fed.out == whole.out && fed.error == whole.error
      && fed.rest <= whole.rest && (whole.error.None? ==> fed.rest == whole.rest)
    decreases |chunks|
  {
    hide Decode;
    if chunks == [] {
      assert buf + Concat(chunks) == buf;
    } else {
      var first := buf + chunks[0];
      assert buf + Concat(chunks) == first + Concat(chunks[1..]);
      if Decode(json, first).error.Some? {
        ErrorStays(json, first, Concat(chunks[1..]));
      } else {
        DecodeAppend(json, first, Concat(chunks[1..]));
        RestIsUndecodable(json, first);
        ChunksDoNotMatter(json, Decode(json, first).rest, chunks[1..]);
      }
    }
  }

  lemma {:induction false} EncodedDecodes<Msg(!new)>(json: Json<Msg>, ms: seq<Msg>)
    requires Faithful(json) && Sendable(json, ms)
    ensures Decode(json, EncodeAll(json, ms)) == Decoded(ms, [], None)
  {
    if ms != [] {
      var body := json.ser(ms[0]);
      assert EncodeFrame(json, ms[0]).Some?;
      var tail := EncodeAll(json, ms[1..]);
      var b := EncodeAll(json, ms);
      assert b == Header(|body|) + (body + tail);
      HeaderRoundTrip(|body|, body + tail);
      assert b[4..4 + |body|] == body && b[4 + |body|..] == tail;
      EncodedDecodes(json, ms[1..]);
      assert [ms[0]] + ms[1..] == ms;
    }
  }

  // Messages within the frame limit, split into chunks in any way, come out in order with nothing left.
  lemma FramingRoundTrip<Msg(!new)>(json: Json<Msg>, ms: seq<Msg>, chunks: seq<seq<byte>>)
    requires Faithful(json) && Sendable(json, ms) && Concat(chunks) == EncodeAll(json, ms)
    ensures Feed(json, [], chunks) == Decoded(ms, [], None)
  {
    hide Decode, Feed;
    EncodedDecodes(json, ms);
    assert [] + Concat(chunks) == Concat(chunks);
    DecodeStops(json, []);
    ChunksDoNotMatter(json, [], chunks);
  }

  lemma PrefixLength(a: seq<byte>, b: seq<byte>)
    requires a <= b && |a| >= 4
    ensures Length(a) == Length(b)
  {
  }

  // What is known of a buffer that is a prefix of a frame and whatever follows it.
  lemma PrefixOfFrame(body: seq<byte>, tail: seq<byte>, received: seq<byte>)
    requires |body| <= MAX_FRAME_BYTES && received <= Frame(body) + tail && |received| >= 4
    ensures Length(received) == |body|
    ensures HasFrame(received) ==> var n := 4 + |body|;
      received[4..n] == body && received[n..] <= tail && received == Frame(body) + received[n..]
  {
    hide Length, Header;
    var whole := Frame(body) + tail;
    assert whole == Header(|body|) + (body + tail);
    HeaderRoundTrip(|body|, body + tail);
    PrefixLength(received, whole);
    if HasFrame(received) {
      var n := 4 + |body|;
      assert whole[..n] == Frame(body) && whole[4..n] == body && whole[n..] == tail;
      assert received[..n] == whole[..n];
    }
  }

  // At every point of receiving an encoded stream, the messages out so far re-encode to the bytes
  // received but for the buffer, and the buffer holds no complete frame.
  lemma {:induction false} NothingLost<Msg(!new)>(json: Json<Msg>, ms: seq<Msg>, received: seq<byte>)
    requires Faithful(json) && Sendable(json, ms) && received <= EncodeAll(json, ms)
    ensures var d := Decode(json, received);
      && d.error.None? && d.out <= ms && Sendable(json, d.out)
      && EncodeAll(json, d.out) + d.rest == received && !HasFrame(d.rest)
    decreases |ms|
  {
    hide Decode, Length, Header;
    if |received| < 4 || ms == [] {
      DecodeStops(json, received);
    } else {
      assert EncodeFrame(json, ms[0]).Some?;
      var body, tail := json.ser(ms[0]), EncodeAll(json, ms[1..]);
      PrefixOfFrame(body, tail, received);
      if !HasFrame(received) {
        DecodeStops(json, received);
      } else {
        var n := 4 + |body|;
        NothingLost(json, ms[1..], received[n..]);
        DecodeStep(json, received);
        var e := Decode(json, received[n..]);
        EncodeCons(json, ms[0], e.out);
        assert Frame(body) + EncodeAll(json, e.out) + e.rest == Frame(body) + (EncodeAll(json, e.out) + e.rest);
      }
    }
  }

  lemma EncodeCons<Msg>(json: Json<Msg>, m: Msg, ms: seq<Msg>)
    requires EncodeFrame(json, m).Some? && Sendable(json, ms)
    ensures Sendable(json, [m] + ms)
    ensures EncodeAll(json, [m] + ms) == Frame(json.ser(m)) + EncodeAll(json, ms)
  {
  }
}
