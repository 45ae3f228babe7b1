/** A codec takes a prefix of the buffered input, whether or not it makes a message of it. */
module Codecs {
  import opened Chunks
  import opened Sockets

  datatype DecodeStep = NeedMore(taken: nat) | Message(body: Bytes, taken: nat) | Malformed(taken: nat)

  /** A codec with what it remembers between calls, as bytes; each call may change that. */
  datatype CodecFns = CodecFns(
    state: Bytes,
    decode: (Bytes, Bytes) -> (DecodeStep, Bytes),
    encode: (Bytes, Bytes) -> (Option<Bytes>, Bytes))

  ghost predicate TakesWhatIsThere(decode: (Bytes, Bytes) -> (DecodeStep, Bytes)) {
    forall state: Bytes, src: Bytes {:trigger decode(state, src)} :: decode(state, src).0.taken <= |src|
  }

  type Codec = c: CodecFns | TakesWhatIsThere(c.decode)
    witness CodecFns([], (state, _) => (NeedMore(0), state), (state, _) => (None, state))

  function Decode(codec: Codec, src: Bytes): (r: DecodeStep)
    ensures r.taken <= |src|
  {
    assert TakesWhatIsThere(codec.decode);
    codec.decode(codec.state, src).0
  }

  /** The codec after it was asked to decode. */
  function Decoded(codec: Codec, src: Bytes): Codec {
    codec.(state := codec.decode(codec.state, src).1)
  }

  function Encode(codec: Codec, msg: Bytes): Option<Bytes> {
    codec.encode(codec.state, msg).0
  }

  /** The codec after it was asked to encode. */
  function Encoded(codec: Codec, msg: Bytes): Codec {
    codec.(state := codec.encode(codec.state, msg).1)
  }

  /** The codec that hands over whatever is buffered; it remembers nothing. */
  const RawCodec: Codec := CodecFns(
    [],
    (state: Bytes, src: Bytes) => (if src == [] then NeedMore(0) else Message(src, |src|), state),
    (state: Bytes, msg: Bytes) => (Some(msg), state))

  /** It keeps no boundaries: a message comes back alone exactly when nothing follows it. */
  lemma RawRoundTripIff(msg: Bytes, rest: Bytes)
    ensures Encode(RawCodec, msg) == Some(msg)
    ensures Decode(RawCodec, msg + rest) == Message(msg, |msg|) <==> msg != [] && rest == []
  {
    if rest == [] {
      assert msg + rest == msg;
    }
  }
}
