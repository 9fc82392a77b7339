/** zlib's inflate as the extraction loop sees it: any decoder that is fed bytes, behind a
    stream that takes input and gives output in pieces. */
module Inflate {
  import opened Bytes

  datatype Verdict = Going | Ended | Broken

  /** What a byte does to the state of the decoder, and the output it completes.  States
      are numbered in any way; nothing about the deflate format is looked into. */
  datatype Decoder = Decoder(start: nat, verdict: nat -> Verdict, next: (nat, byte) -> nat, output: (nat, byte) -> seq<byte>)

  datatype Inflated = BadStream | Inflated(data: seq<byte>)

  function Prepend(front: seq<byte>, r: Inflated): Inflated {
    match r
    case BadStream => BadStream
    case Inflated(data) => Inflated(front + data)
  }

  /** A whole stream: its output, if the stream ends within the bytes; what follows the
      end is ignored. */
  function Decode(z: Decoder, state: nat, bytes: seq<byte>): Inflated
    decreases |bytes|
  {
    match z.verdict(state)
    case Ended => Inflated([])
    case Broken => BadStream
    case Going =>
      if bytes == [] then BadStream
      else Prepend(z.output(state, bytes[0]), Decode(z, z.next(state, bytes[0]), bytes[1..]))
  }

  lemma PrependTwice(a: seq<byte>, b: seq<byte>, r: Inflated)
    ensures Prepend(a, Prepend(b, r)) == Prepend(a + b, r)
  {
    if r.Inflated? {
      assert a + (b + r.data) == a + b + r.data;
    }
  }

  lemma PrependNothing(r: Inflated)
    ensures Prepend([], r) == r
  {
    if r.Inflated? {
      assert [] + r.data == r.data;
    }
  }

  /** One byte of input moves from the stream to what is pending. */
  lemma DecodeStep(z: Decoder, state: nat, input: seq<byte>, rest: seq<byte>, front: seq<byte>)
    requires z.verdict(state) == Going && input != []
    ensures Prepend(front, Decode(z, state, input + rest)) ==
            Prepend(front + z.output(state, input[0]), Decode(z, z.next(state, input[0]), input[1..] + rest))
  {
    assert (input + rest)[0] == input[0] && (input + rest)[1..] == input[1..] + rest;
    PrependTwice(front, z.output(state, input[0]), Decode(z, z.next(state, input[0]), input[1..] + rest));
  }

  const Z_OK := 0
  const Z_STREAM_END := 1
  const Z_DATA_ERROR := -3
  const Z_BUF_ERROR := -5

  /** z_stream: next_in and avail_in are `input`; `pending` is decoded and not yet given out.
      `ahead` says how far each call reads on when the output is already full. */
  class Stream {
    const z: Decoder
    var state: nat
    var input: seq<byte>
    var pending: seq<byte>
    var ahead: seq<nat>

    /** inflateInit2 */
    constructor (z: Decoder, ahead: seq<nat>, ghost payload: seq<byte>)
      ensures this.z == z && state == z.start && input == [] && pending == []
      ensures Remaining(payload) == Decode(z, z.start, payload)
    {
      this.z, state, input, pending, this.ahead := z, z.start, [], [], ahead;
      new;
      assert [] + payload == payload;
      PrependNothing(Decode(z, z.start, payload));
    }

    /** Everything the payload decodes to, as the stream stands: what the bytes not yet
        taken in will give, after what is pending. */
    ghost function Remaining(rest: seq<byte>): Inflated
      reads this
    {
      Prepend(pending, Decode(z, state, input + rest))
    }

    /** next_in and avail_in are set. */
    method Supply(bytes: seq<byte>, ghost rest: seq<byte>)
      requires input == []
      modifies this
      ensures input == bytes && pending == old(pending) && state == old(state)
      ensures Remaining(rest) == old(Remaining(bytes + rest))
    {
      input := bytes;
      assert [] + (bytes + rest) == bytes + rest;
    }

    /** One byte is taken in. */
    method Take(ghost rest: seq<byte>)
      requires input != [] && z.verdict(state) == Going
      modifies this`state, this`input, this`pending
      ensures input == old(input)[1..] && Remaining(rest) == old(Remaining(rest))
      ensures pending == old(pending) + z.output(old(state), old(input)[0])
    {
      DecodeStep(z, state, input, rest, pending);
      pending := pending + z.output(state, input[0]);
      state := z.next(state, input[0]);
      input := input[1..];
    }

    /** What is pending goes out, as far as there is room. */
    method Give(buffer: array<byte>, from: nat, ghost rest: seq<byte>) returns (to: nat)
      requires from <= buffer.Length
      modifies this`pending, buffer
      ensures from <= to <= buffer.Length && (to == buffer.Length || pending == [])
      ensures buffer[..from] == old(buffer[..from]) && old(pending) == buffer[from..to] + pending
      ensures old(Remaining(rest)) == Prepend(buffer[from..to], Remaining(rest))
    {
      var n := if |pending| <= buffer.Length - from then |pending| else buffer.Length - from;
      forall i | 0 <= i < n {
        buffer[from + i] := pending[i];
      }
      to := from + n;
      assert buffer[from..to] == pending[..n] && pending == pending[..n] + pending[n..];
      PrependTwice(pending[..n], pending[n..], Decode(z, state, input + rest));
      pending := pending[n..];
    }

    /** The output is full, or there is nothing more to give before new input. */
    predicate Satisfied(produced: nat, room: nat)
      reads this
    {
      produced == room || (pending == [] && (input == [] || z.verdict(state) != Going))
    }

    /** As much as there is room for. */
    method Fill(buffer: array<byte>, ghost rest: seq<byte>) returns (produced: nat)
      modifies this`state, this`input, this`pending, buffer
      ensures produced <= buffer.Length && Satisfied(produced, buffer.Length)
      ensures |input| <= |old(input)| && input == old(input)[|old(input)| - |input|..]
      ensures old(Remaining(rest)) == Prepend(buffer[..produced], Remaining(rest))
      ensures input == old(input) ==> old(pending) == buffer[..produced] + pending
    {
      produced := Give(buffer, 0, rest);
      while !(produced == buffer.Length || pending != [] || input == [] || z.verdict(state) != Going)
        invariant produced <= buffer.Length && (produced == buffer.Length || pending == [])
        invariant |input| <= |old(input)| && input == old(input)[|old(input)| - |input|..]
        invariant old(Remaining(rest)) == Prepend(buffer[..produced], Remaining(rest))
        invariant input == old(input) ==> old(pending) == buffer[..produced] + pending
        decreases |input|
      {
        ghost var out := buffer[..produced];
        Take(rest);
        var to := Give(buffer, produced, rest);
        PrependTwice(out, buffer[produced..to], Remaining(rest));
        assert buffer[..to] == out + buffer[produced..to];
        produced := to;
      }
    }

    /** Some calls take in more than they had to. */
    method ReadOn(ghost rest: seq<byte>)
      modifies this
      ensures |input| <= |old(input)| && input == old(input)[|old(input)| - |input|..]
      ensures Remaining(rest) == old(Remaining(rest))
      ensures input == old(input) ==> pending == old(pending)
    {
      var n := 0;
      if ahead != [] {
        n, ahead := ahead[0], ahead[1..];
      }
      while n > 0 && input != [] && z.verdict(state) == Going
        invariant |input| <= |old(input)| && input == old(input)[|old(input)| - |input|..]
        invariant Remaining(rest) == old(Remaining(rest))
        invariant input == old(input) ==> pending == old(pending)
      {
        Take(rest);
        n := n - 1;
      }
    }

    /** inflate with Z_NO_FLUSH; next_out and avail_out are the whole buffer. */
    method Inflate(buffer: array<byte>, ghost rest: seq<byte>) returns (code: int, produced: nat)
      requires buffer.Length > 0
      modifies this, buffer
      ensures produced <= buffer.Length
      ensures |input| <= |old(input)| && input == old(input)[|old(input)| - |input|..]
      ensures old(Remaining(rest)) == Prepend(buffer[..produced], Remaining(rest))
      ensures code == Z_OK || code == Z_STREAM_END || code == Z_DATA_ERROR || code == Z_BUF_ERROR
      ensures code == Z_STREAM_END ==> Remaining(rest) == Inflated([])
      ensures code == Z_DATA_ERROR ==> Remaining(rest) == BadStream
      ensures code == Z_BUF_ERROR ==> old(input) == [] && pending == [] && z.verdict(state) == Going && input == []
      ensures code == Z_OK ==> (|input| < |old(input)|) || (input == old(input) && |pending| < |old(pending)|)
      ensures code == Z_OK && produced == 0 ==> input == [] && pending == [] && z.verdict(state) == Going
    {
      var had := |input|;
      produced := Fill(buffer, rest);
      if produced == buffer.Length {
        ReadOn(rest);
      }
      if z.verdict(state) == Ended && pending == [] {
        PrependNothing(Decode(z, state, input + rest));
        code := Z_STREAM_END;
      } else if z.verdict(state) == Broken {
        code := Z_DATA_ERROR;
      } else if |input| == had && produced == 0 {
        code := Z_BUF_ERROR;
      } else {
        code := Z_OK;
      }
    }
  }

  /** When the input is used up before the stream ends, the stream is bad. */
  lemma CutShort(z: Decoder, state: nat, front: seq<byte>)
    requires z.verdict(state) == Going
    ensures Prepend(front, Decode(z, state, [] + [])) == BadStream
  {
    var none: seq<byte> := [];
    assert none + none == none;
  }
}
