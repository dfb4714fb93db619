// The bounded response reader and the JSON fetcher built on it (oauth2provider/transport.go).

module Transport {
  import opened Wrappers
  import opened Errors
  import opened Contexts

  newtype int64 = x: int | -0x8000_0000_0000_0000 <= x < 0x8000_0000_0000_0000

  const MAX_INT64: int64 := 0x7fff_ffff_ffff_ffff
  const DEFAULT_MAX_RESPONSE_SIZE: int64 := 0x10_0000

  // The response limit New derives from its configuration, if it accepts it.
  function ResponseLimit(configured: int64): (limit: Option<int64>)
    ensures limit.None? <==> configured < 0 || configured == MAX_INT64
    ensures limit.Some? ==> 1 <= limit.value < MAX_INT64 && (configured != 0 ==> limit.value == configured)
    ensures configured == 0 ==> limit == Some(1024 * 1024)
  {
    var max := if configured == 0 then DEFAULT_MAX_RESPONSE_SIZE else configured;
    if max < 1 || max == MAX_INT64 then None else Some(max)
  }

  // How a body ends, and what a bounded reader reports.
  datatype Ending = EOF | Failed(cause: GoError)

  datatype ReadError = TooLarge | Ended(ending: Ending)

  // One decision of the connection: how many bytes to hand over at most, and whether to report the
  // end together with the last bytes.
  datatype Chunk = Chunk(size: nat, eager: bool)

  // The response body of the underlying transport: it hands over its bytes in any chunks whatever,
  // empty ones included, and then ends. When the script is used up it hands over what it is asked
  // for.
  class Body {
    var pending: string
    var script: seq<Chunk>
    const ending: Ending
    var closed: bool

    constructor (bytes: string, script: seq<Chunk>, ending: Ending)
      ensures pending == bytes && this.script == script && this.ending == ending && !closed
    {
      pending, this.script, this.ending, closed := bytes, script, ending, false;
    }

    // How many more reads can come without an error.
    ghost function Patience(): nat
      reads this
    {
      |script| + |pending|
    }

    // Read(buffer[:length]).
    method Read(buffer: array<char>, length: int) returns (count: int, end: Option<Ending>)
      requires 0 < length <= buffer.Length
      modifies this`pending, this`script, buffer
      ensures 0 <= count <= length && count <= |old(pending)|
      ensures buffer[..count] == old(pending)[..count] && pending == old(pending)[count..]
      ensures end.Some? ==> end.value == ending && pending == ""
      ensures end.None? ==> Patience() < old(Patience())
    {
      var chunk := if script == [] then Chunk(length, false) else script[0];
      count := length;
      if chunk.size < count { count := chunk.size; }
      if |pending| < count { count := |pending|; }
      end := if count == |pending| && (chunk.eager || (script == [] && pending == "")) then Some(ending) else None;
      script := if script == [] then [] else script[1..];
      forall i | 0 <= i < count {
        buffer[i] := pending[i];
      }
      pending := pending[count..];
    }

    method Close()
      modifies this`closed
      ensures closed
    {
      closed := true;
    }
  }

  function Report(end: Option<Ending>): Option<ReadError> {
    match end
    case Some(ending) => Some(Ended(ending))
    case None => None
  }

  class BoundedReadCloser {
    const body: Body
    var remaining: int64
    // The limit it was made with, and what it has handed on.
    ghost const limit: int64
    ghost var delivered: string

    constructor (body: Body, limit: int64)
      requires 0 <= limit < MAX_INT64
      ensures Valid() && this.body == body && remaining == this.limit == limit && delivered == ""
    {
      this.body := body;
      remaining := limit;
      this.limit := limit;
      delivered := "";
    }

    // Holds throughout, after an error too. That remaining + 1 fits an int64 follows.
    ghost predicate Valid()
      reads this
    {
      0 <= remaining <= limit < MAX_INT64 && |delivered| + remaining as int == limit as int
    }

    // Read(buffer[:length]): bytes pass through in order as long as they are within the remaining
    // allowance; an error that is not the body's own means that there is at least one byte more.
    method Read(buffer: array<char>, length: int) returns (count: int, error: Option<ReadError>)
      requires Valid() && 0 <= length <= buffer.Length
      modifies this`remaining, this`delivered, body`pending, body`script, buffer
      ensures Valid() && 0 <= count <= length && count <= |old(body.pending)|
      ensures buffer[..count] == old(body.pending)[..count] && delivered == old(delivered) + buffer[..count]
      ensures error != Some(TooLarge) ==> body.pending == old(body.pending)[count..]
      ensures error.None? ==> body.Patience() < old(body.Patience()) || (length == 0 == count && body.Patience() == old(body.Patience()))
      ensures error == Some(TooLarge) ==>
                && count == old(remaining) as int < |old(body.pending)|
                && body.pending == old(body.pending)[count + 1..]
      ensures error.Some? && error != Some(TooLarge) ==> error == Some(Ended(body.ending)) && body.pending == ""
    {
      if length == 0 {
        assert buffer[..0] == "";
        return 0, None;
      }
      if remaining == 0 {
        var extra := new char[1];
        var n, end := body.Read(extra, 1);
        assert buffer[..0] == "";
        if n > 0 {
          return 0, Some(TooLarge);
        }
        return 0, Report(end);
      }
      var size := length;
      if size > (remaining + 1) as int {
        size := (remaining + 1) as int;
      }
      var n, end := body.Read(buffer, size);
      if n > remaining as int {
        count := remaining as int;
        delivered := delivered + buffer[..count];
        remaining := 0;
        return count, Some(TooLarge);
      }
      delivered := delivered + buffer[..n];
      remaining := remaining - n as int64;
      return n, Report(end);
    }

    method Close()
      modifies body`closed
      ensures body.closed
    {
      body.Close();
    }
  }

  // What draining a body under a limit comes to.
  function Drained(whole: string, limit: int64, ending: Ending): (string, ReadError)
    requires limit >= 0
  {
    if |whole| > limit as int then (whole[..limit], TooLarge) else (whole, Ended(ending))
  }

  // Reading with nonempty buffers of any sizes until the first error: the bytes are the first
  // min(limit, n) of the body in order, and the error says whether there were more.
  method Drain(reader: BoundedReadCloser, sizes: seq<nat>) returns (data: string, error: ReadError)
    requires reader.Valid() && reader.delivered == ""
    modifies reader`remaining, reader`delivered, reader.body`pending, reader.body`script
    ensures var (bytes, first) := Drained(old(reader.body.pending), reader.limit, reader.body.ending);
            data == bytes && error == first
    ensures reader.Valid() && reader.delivered == data
    ensures reader.body.pending == old(reader.body.pending)[if error == TooLarge then |data| + 1 else |data|..]
  {
    ghost var whole := reader.body.pending;
    data := "";
    var turn := 0;
    while true
      invariant reader.Valid() && reader.delivered == data
      invariant whole == data + reader.body.pending
      decreases reader.body.Patience()
    {
      var size := if turn < |sizes| then sizes[turn] + 1 else 512;
      var buffer := new char[size];
      var count, first := reader.Read(buffer, size);
      data := data + buffer[..count];
      turn := turn + 1;
      if first.Some? {
        return data, first.value;
      }
    }
  }

  // The error is not sticky: the byte that betrayed a body of one byte too many is gone, so the next
  // read delivers nothing and reports the body's own end, if anything.
  method TooLargeIsNotSticky(reader: BoundedReadCloser, sizes: seq<nat>)
    returns (first: ReadError, count: int, second: Option<ReadError>)
    requires reader.Valid() && reader.delivered == "" && |reader.body.pending| == reader.limit as int + 1
    modifies reader`remaining, reader`delivered, reader.body`pending, reader.body`script
    ensures first == TooLarge && count == 0 && second in {None, Some(Ended(reader.body.ending))}
  {
    var data;
    data, first := Drain(reader, sizes);
    var buffer := new char[512];
    count, second := reader.Read(buffer, 512);
  }

  // io.LimitedReader over the bounded reader.
  class LimitedReader {
    const reader: BoundedReadCloser
    var n: int64

    constructor (reader: BoundedReadCloser, n: int64)
      ensures this.reader == reader && this.n == n
    {
      this.reader, this.n := reader, n;
    }

    method Read(buffer: array<char>, length: int) returns (count: int, error: Option<ReadError>)
      requires reader.Valid() && 0 < length <= buffer.Length
      modifies this`n, reader`remaining, reader`delivered, reader.body`pending, reader.body`script, buffer
      ensures old(n) <= 0 ==> (count, error) == (0, Some(Ended(EOF)))
      ensures old(n) > 0 ==>
                && reader.Valid() && 0 <= count <= length && count <= |old(reader.body.pending)|
                && n as int == old(n) as int - count
                && buffer[..count] == old(reader.body.pending)[..count] && reader.delivered == old(reader.delivered) + buffer[..count]
                && (error != Some(TooLarge) ==> reader.body.pending == old(reader.body.pending)[count..])
                && (error.None? ==> reader.body.Patience() < old(reader.body.Patience()))
                && (error == Some(TooLarge) ==> count == old(reader.remaining) as int < |old(reader.body.pending)|)
                && (error.Some? && error != Some(TooLarge) ==> error == Some(Ended(reader.body.ending)) && reader.body.pending == "")
    {
      if n <= 0 {
        return 0, Some(Ended(EOF));
      }
      var size := length;
      if size > n as int {
        size := n as int;
      }
      count, error := reader.Read(buffer, size);
      n := n - count as int64;
    }
  }

  // io.ReadAll over the limited reader: with a limit one above the bounded reader's, the limited
  // reader never stops first, and at most that limit of bytes is collected.
  method ReadAll(limited: LimitedReader, sizes: seq<nat>) returns (data: string, error: Option<ReadError>)
    requires limited.reader.Valid() && limited.reader.delivered == ""
    requires limited.n as int == limited.reader.limit as int + 1
    modifies limited`n, limited.reader`remaining, limited.reader`delivered, limited.reader.body`pending, limited.reader.body`script
    ensures var (bytes, first) := Drained(old(limited.reader.body.pending), limited.reader.limit, limited.reader.body.ending);
            data == bytes && error == if first == Ended(EOF) then None else Some(first)
    ensures limited.n > 0
  {
    ghost var whole := limited.reader.body.pending;
    data := "";
    var turn := 0;
    while true
      invariant limited.reader.Valid() && limited.reader.delivered == data
      invariant whole == data + limited.reader.body.pending
      invariant limited.n as int == limited.reader.remaining as int + 1
      decreases limited.reader.body.Patience()
    {
      var size := if turn < |sizes| then sizes[turn] + 1 else 512;
      var buffer := new char[size];
      var count, first := limited.Read(buffer, size);
      data := data + buffer[..count];
      turn := turn + 1;
      if first.Some? {
        return data, if first.value == Ended(EOF) then None else first;
      }
    }
  }

  // What the transport below the bounded one makes of a request, as seen by GetJSON: no request at
  // all, no response, or a response.
  datatype Exchange =
    | Malformed
    | Unreachable(error: GoError)
    | Responds(status: int, contentLength: int64, body: Body, sizes: seq<nat>)

  datatype Response = Response(status: int, body: BoundedReadCloser)

  // The unexported errResponseTooLarge, and the *url.Error client.Do wraps transport errors in.
  function TooLargeError(): GoError {
    Foreign({BodyTooLarge}, "response too large", {}, None, None, [])
  }

  function URLError(cause: GoError): GoError {
    Foreign({Network}, "url error", {}, None, None, [cause])
  }

  // boundedTransport.RoundTrip.
  method RoundTrip(limit: int64, exchange: Exchange) returns (result: Result<Response, GoError>)
    requires 0 <= limit < MAX_INT64 && !exchange.Malformed?
    modifies if exchange.Responds? then {exchange.body} else {}
    ensures exchange.Unreachable? ==> result == Err(exchange.error)
    ensures exchange.Responds? && exchange.contentLength > limit ==> result == Err(TooLargeError()) && exchange.body.closed
    ensures exchange.Responds? && exchange.contentLength <= limit ==>
              && result.Ok? && result.value.status == exchange.status
              && result.value.body.body == exchange.body && fresh(result.value.body)
              && result.value.body.Valid() && result.value.body.delivered == "" && result.value.body.limit == limit
    ensures exchange.Responds? ==> exchange.body.pending == old(exchange.body.pending)
    ensures exchange.Responds? && result.Ok? ==> unchanged(exchange.body)
  {
    match exchange
    case Unreachable(error) => result := Err(error);
    case Responds(status, contentLength, body, _) =>
      if contentLength > limit {
        body.Close();
        return Err(TooLargeError());
      }
      var bounded := new BoundedReadCloser(body, limit);
      result := Ok(Response(status, bounded));
  }

  // The content of an exchange.
  datatype Reply =
    | NoRequest
    | NoResponse(error: GoError)
    | Reply(status: int, contentLength: int64, bytes: string, ending: Ending)

  ghost function Content(exchange: Exchange): Reply
    reads if exchange.Responds? then {exchange.body} else {}
  {
    match exchange
    case Malformed => NoRequest
    case Unreachable(error) => NoResponse(error)
    case Responds(status, contentLength, body, _) => Reply(status, contentLength, body.pending, body.ending)
  }

  // The error of GetJSON when the request got no response: the context's cause comes first.
  function RequestError(name: string, error: GoError, cancelled: Option<GoError>): GoError {
    if cancelled.Some? then NewError(TRANSPORT, name, "request provider user", cancelled)
    else if HasKind(error, {BodyTooLarge}) then NewError(RESPONSE_TOO_LARGE, name, "request provider user", None)
    else NewError(TRANSPORT, name, "request provider user", Some(error))
  }

  // ... and when the body could not be read: here the size comes first.
  function ReadFailure(name: string, error: ReadError, cancelled: Option<GoError>): GoError {
    if error == TooLarge || (error.Ended? && error.ending.Failed? && HasKind(error.ending.cause, {BodyTooLarge}))
    then NewError(RESPONSE_TOO_LARGE, name, "read provider user", None)
    else NewError(TRANSPORT, name, "read provider user", cancelled)
  }

  // What GetJSON comes to, in terms of the whole reply: the document, or an error. cancelled is what
  // the context would answer.
  function Fetched(name: string, limit: int64, reply: Reply, cancelled: Option<GoError>, decodes: string -> bool): Result<string, GoError>
    requires limit >= 0
  {
    match reply
    case NoRequest => Err(NewError(INVALID_CONFIGURATION, name, "create provider user request", None))
    case NoResponse(error) => Err(RequestError(name, URLError(error), cancelled))
    case Reply(status, contentLength, bytes, ending) =>
      if contentLength > limit then Err(RequestError(name, URLError(TooLargeError()), cancelled))
      else if !(200 <= status < 300) then Err(NewError(PROVIDER_RESPONSE, name, "request provider user", None))
      else
        var (data, error) := Drained(bytes, limit, ending);
        if error != Ended(EOF) then Err(ReadFailure(name, error, cancelled))
        else if !decodes(data) then Err(NewError(DECODING, name, "decode provider user", None))
        else Ok(data)
  }

  // How often GetJSON looks at the context: once, when the request or the body fails for a reason
  // other than its size.
  function Looks(limit: int64, reply: Reply): nat
    requires limit >= 0
  {
    match reply
    case NoRequest => 0
    case NoResponse(_) => 1
    case Reply(status, contentLength, bytes, ending) =>
      if contentLength > limit then 1
      else if !(200 <= status < 300) then 0
      else
        match Drained(bytes, limit, ending).1
        case Ended(Failed(cause)) => if HasKind(cause, {BodyTooLarge}) then 0 else 1
        case _ => 0
  }

  class Fetcher {
    const providerName: string
    const transportLimit: int64
    const maxResponseSize: int64

    // New gives the same limit to both.
    constructor (providerName: string, configured: int64)
      requires ResponseLimit(configured).Some?
      ensures Valid() && this.providerName == providerName && maxResponseSize == ResponseLimit(configured).value
    {
      this.providerName := providerName;
      transportLimit := ResponseLimit(configured).value;
      maxResponseSize := ResponseLimit(configured).value;
    }

    ghost predicate Valid() {
      1 <= maxResponseSize == transportLimit < MAX_INT64
    }

    method GetJSON(ctx: Context, exchange: Exchange, decodes: string -> bool) returns (result: Result<string, GoError>)
      requires Valid()
      modifies ctx`observations
      modifies if exchange.Responds? then {exchange.body} else {}
      ensures ctx.observations == old(ctx.observations) + Looks(maxResponseSize, old(Content(exchange)))
      ensures result == Fetched(providerName, maxResponseSize, old(Content(exchange)), ctx.Seen(old(ctx.observations)), decodes)
    {
      if exchange.Malformed? {
        return Err(NewError(INVALID_CONFIGURATION, providerName, "create provider user request", None));
      }
      var done := RoundTrip(transportLimit, exchange);
      if done.Err? {
        var err := URLError(done.error);
        var ctxErr := ctx.Err();
        if ctxErr.Some? {
          return Err(NewError(TRANSPORT, providerName, "request provider user", ctxErr));
        }
        if HasKind(err, {BodyTooLarge}) {
          return Err(NewError(RESPONSE_TOO_LARGE, providerName, "request provider user", None));
        }
        return Err(NewError(TRANSPORT, providerName, "request provider user", Some(err)));
      }
      var response := done.value;
      if response.status < 200 || response.status >= 300 {
        response.body.Close();
        return Err(NewError(PROVIDER_RESPONSE, providerName, "request provider user", None));
      }
      var limited := new LimitedReader(response.body, maxResponseSize + 1);
      var body, err := ReadAll(limited, exchange.sizes);
      response.body.Close();
      if err.Some? {
        if err.value == TooLarge || (err.value.ending.Failed? && HasKind(err.value.ending.cause, {BodyTooLarge})) {
          return Err(NewError(RESPONSE_TOO_LARGE, providerName, "read provider user", None));
        }
        var ctxErr := ctx.Err();
        if ctxErr.Some? {
          return Err(NewError(TRANSPORT, providerName, "read provider user", ctxErr));
        }
        return Err(NewError(TRANSPORT, providerName, "read provider user", None));
      }
      if |body| > maxResponseSize as int {
        assert false; // the bounded reader reported the excess already
      }
      if !decodes(body) {
        return Err(NewError(DECODING, providerName, "decode provider user", None));
      }
      result := Ok(body);
    }
  }

  // GetJSON succeeds on exactly the replies that fit, and then hands over the entire body.
  lemma SuccessIsTheWholeBody(name: string, limit: int64, reply: Reply, cancelled: Option<GoError>, decodes: string -> bool)
    requires limit >= 0
    ensures Fetched(name, limit, reply, cancelled, decodes).Ok? <==>
              && reply.Reply? && reply.contentLength <= limit && 200 <= reply.status < 300
              && |reply.bytes| <= limit as int && reply.ending == EOF && decodes(reply.bytes)
    ensures Fetched(name, limit, reply, cancelled, decodes).Ok? ==>
              Fetched(name, limit, reply, cancelled, decodes).value == reply.bytes
  {}

  // RoundTrip's rejection by declared length agrees with draining the body when the length is exact.
  // For GetJSON as a whole the declared length makes no difference exactly when the body fits, or
  // else the status is a success and the context is live: the length check comes before the status
  // check, and its error after the context's.
  lemma DeclaredLengthVerdict(name: string, limit: int64, status: int, bytes: string, ending: Ending,
                              cancelled: Option<GoError>, decodes: string -> bool)
    requires limit >= 0 && |bytes| <= MAX_INT64 as int
    ensures |bytes| as int64 > limit <==> Drained(bytes, limit, ending).1 == TooLarge
    ensures var declared := Fetched(name, limit, Reply(status, |bytes| as int64, bytes, ending), cancelled, decodes);
            var chunked := Fetched(name, limit, Reply(status, -1, bytes, ending), cancelled, decodes);
            && (|bytes| as int64 <= limit ==> declared == chunked)
            && (|bytes| as int64 > limit ==>
                 && declared.Err? && chunked.Err?
                 && (ErrorCodeOf(declared.error) == ErrorCodeOf(chunked.error) <==> 200 <= status < 300 && cancelled.None?)
                 && (200 <= status < 300 && cancelled.None? ==> IsErrorCode(declared.error, RESPONSE_TOO_LARGE)))
  {
    var oversized := URLError(TooLargeError());
    assert oversized.wrapped[0] == TooLargeError();
    assert HasKind(TooLargeError(), {BodyTooLarge});
    assert HasKind(oversized, {BodyTooLarge});
  }

  // Whether a body's failure is the bounded transport's error in disguise.
  predicate ReportsSize(ending: Ending) {
    ending.Failed? && HasKind(ending.cause, {BodyTooLarge})
  }

  // What each reply that is not handed over is reported as. The declared length comes before the
  // status, the status before the body, the body's size before its end, and that before decoding.
  lemma FailuresByReply(name: string, limit: int64, reply: Reply, cancelled: Option<GoError>, decodes: string -> bool)
    requires limit >= 0 && Fetched(name, limit, reply, cancelled, decodes).Err?
    ensures var code := ErrorCodeOf(Fetched(name, limit, reply, cancelled, decodes).error);
            match reply
            case NoRequest => code == Some(INVALID_CONFIGURATION)
            case NoResponse(error) =>
              code == Some(if cancelled.None? && HasKind(error, {BodyTooLarge}) then RESPONSE_TOO_LARGE else TRANSPORT)
            case Reply(status, contentLength, bytes, ending) =>
              code == Some(
                if contentLength > limit then (if cancelled.Some? then TRANSPORT else RESPONSE_TOO_LARGE)
                else if status < 200 || status > 299 then PROVIDER_RESPONSE
                else if |bytes| > limit as int || ReportsSize(ending) then RESPONSE_TOO_LARGE
                else if ending.Failed? then TRANSPORT
                else DECODING)
  {
    WrappedKind(TooLargeError());
    assert HasKind(TooLargeError(), {BodyTooLarge});
    if reply.NoResponse? {
      WrappedKind(reply.error);
    }
  }

  lemma WrappedKind(cause: GoError)
    ensures HasKind(URLError(cause), {BodyTooLarge}) == HasKind(cause, {BodyTooLarge})
  {
    var wrapped := [cause];
    assert wrapped[0] == cause && wrapped[1..] == [];
    assert HasKindIn(wrapped, {BodyTooLarge}) == (HasKind(cause, {BodyTooLarge}) || HasKindIn([], {BodyTooLarge}));
  }
}
