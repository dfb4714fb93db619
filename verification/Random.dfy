// The source of random bytes behind session identifiers, states and verifiers: an io.Reader read
// through io.ReadFull.

module Random {
  import opened Wrappers
  import opened Text
  import Base64Url

  const TOKEN_BYTES: nat := 32

  // The unpadded URL-safe encoding of 32 bytes of a random stream: a session identifier, a state or a
  // verifier.
  function Token(stream: string, position: nat): string
    requires IsBytes(stream) && position + TOKEN_BYTES <= |stream|
  {
    Base64Url.Encode(stream[position..position + TOKEN_BYTES])
  }

  // The first n tokens from a position on.
  function Tokens(stream: string, start: nat, n: nat): seq<string>
    requires IsBytes(stream) && start + n * TOKEN_BYTES <= |stream|
  {
    if n == 0 then [] else Tokens(stream, start, n - 1) + [Token(stream, start + (n - 1) * TOKEN_BYTES)]
  }

  lemma {:induction false} TokensAt(stream: string, start: nat, n: nat)
    requires IsBytes(stream) && start + n * TOKEN_BYTES <= |stream|
    ensures |Tokens(stream, start, n)| == n
    ensures forall i :: 0 <= i < n ==> Tokens(stream, start, n)[i] == Token(stream, start + i * TOKEN_BYTES)
  {
    if n > 0 {
      TokensAt(stream, start, n - 1);
    }
  }

  // A token has 43 characters, all allowed in a verifier, and different bytes give different tokens.
  lemma TokenShape(stream: string, p: nat, q: nat)
    requires IsBytes(stream) && p + TOKEN_BYTES <= |stream| && q + TOKEN_BYTES <= |stream|
    ensures |Token(stream, p)| == 43
    ensures forall i :: 0 <= i < 43 ==> Base64Url.Unreserved(Token(stream, p)[i])
    ensures Token(stream, p) == Token(stream, q) <==> stream[p..p + TOKEN_BYTES] == stream[q..q + TOKEN_BYTES]
  {
    Base64Url.EncodingShape(stream[p..p + TOKEN_BYTES]);
    if Token(stream, p) == Token(stream, q) {
      Base64Url.EncodeIsInjective(stream[p..p + TOKEN_BYTES], stream[q..q + TOKEN_BYTES]);
    }
  }

  // A read either fills its buffer or fails after having used up some of the stream.
  class Reader {
    const stream: string // every byte the reader will ever deliver
    var position: nat
    var failures: seq<Option<nat>> // per read: None to succeed, Some(n) to fail after n bytes

    constructor (stream: string, failures: seq<Option<nat>>)
      requires IsBytes(stream)
      ensures Valid() && position == 0 && this.stream == stream && this.failures == failures
    {
      this.stream := stream;
      this.failures := failures;
      position := 0;
    }

    ghost predicate Valid()
      reads this
    {
      IsBytes(stream) && position <= |stream|
    }

    // No read fails before this many bytes are used up.
    predicate Healthy(size: nat)
      reads this
    {
      failures == [] && position + size <= |stream|
    }

    method ReadFull(size: nat) returns (bytes: Option<string>)
      requires Valid()
      modifies this
      ensures Valid()
      ensures bytes.Some? ==>
                position == old(position) + size && bytes.value == stream[old(position)..position] && IsBytes(bytes.value)
      ensures bytes.None? ==> old(position) <= position <= old(position) + size
      ensures |stream| - old(position) >= size && (old(failures) == [] || old(failures)[0].None?) ==> bytes.Some?
      ensures failures == if old(failures) == [] then [] else old(failures)[1..]
    {
      var failure := if failures == [] then None else failures[0];
      failures := if failures == [] then [] else failures[1..];
      if failure.None? && position + size <= |stream| {
        bytes := Some(stream[position..position + size]);
        position := position + size;
      } else {
        var used := if failure.Some? && failure.value < size then failure.value else size;
        position := if position + used <= |stream| then position + used else |stream|;
        bytes := None;
      }
    }

    method ReadToken() returns (token: Option<string>)
      requires Valid()
      modifies this
      ensures Valid()
      ensures token.Some? ==>
                position == old(position) + TOKEN_BYTES && token.value == Token(stream, old(position))
      ensures token.None? ==> old(position) <= position <= old(position) + TOKEN_BYTES
      ensures old(Healthy(TOKEN_BYTES)) ==> token.Some? && failures == []
    {
      var buffer := ReadFull(TOKEN_BYTES);
      token := match buffer
               case Some(bytes) => Some(Base64Url.Encode(bytes))
               case None => None;
    }
  }
}
