/** The size-capping reader (networkLimitedReader): a wrapper around a response
    body that ends the stream once the wire-level byte counter has advanced by
    `limit` bytes since the probe's start snapshot. */
module LimitedReader {
  import opened Words

  /** A stream error as seen by io.Reader callers: io.EOF or any other error. */
  datatype IoError = EOF | Failure(reason: string)

  /** What one call of Read does before touching the wrapped body. */
  datatype Decision = EndOfStream | Forward(len: nat)

  /** The per-call rule of networkLimitedReader.Read: from the counter value
      (absent when the pointer is nil), the start snapshot, the limit and
      len(p), either end the stream or forward a buffer of some length.
      A nil counter is dereferenced whenever the limit is non-zero, so the
      rule needs a counter then. */
  function Decide(counter: Option<u64>, startBytes: u64, limit: u64, bufLen: nat): (d: Decision)
    requires limit > 0 ==> counter.Some?
    ensures limit == 0 ==> d == Forward(bufLen)
    ensures limit > 0 ==> (d == EndOfStream <==> SubU64(counter.value, startBytes) >= limit)
    ensures limit > 0 && d.Forward? ==>
              d.len == Min(bufLen, limit - SubU64(counter.value, startBytes))
    ensures limit > 0 && d.Forward? ==> SubU64(counter.value, startBytes) + d.len <= limit
    ensures d.Forward? ==> d.len <= bufLen && (bufLen >= 1 ==> d.len >= 1)
  {
    if limit > 0 then
      var networkRead := SubU64(counter.value, startBytes);
      if networkRead >= limit then EndOfStream
      else
        var remaining := limit - networkRead;
        if remaining < bufLen then Forward(remaining) else Forward(bufLen)
    else
      Forward(bufLen)
  }

  /** The response body together with the instrumented connection under it,
      as a value: `left` decoded bytes remain, after which every read returns
      `end` (io.EOF, or the error that cut the transfer short); read number i
      makes the transport land `wire[i]` bytes on the shared counter (0 once
      `wire` is used up); `next` reads have been served; `counter` is the
      shared counter's value. */
  datatype Upstream = Upstream(left: nat, end: IoError, wire: seq<nat>, next: nat, counter: int)

  function WireAt(w: seq<nat>, i: nat): nat {
    if i < |w| then w[i] else 0
  }

  /** Wire bytes landed by reads number from .. to-1 of the script w. */
  function WireSum(w: seq<nat>, from: nat, to: nat): nat
    decreases to
  {
    if to <= from then 0 else WireSum(w, from, to - 1) + WireAt(w, to - 1)
  }

  /** The counter stays a uint64 through every read still to come. */
  predicate Fits(u: Upstream) {
    0 <= u.counter && u.counter + WireSum(u.wire, u.next, |u.wire|) < U64_MODULUS
  }

  /** One read's outcome: the byte count, the error (if any), the state after. */
  datatype Reply = Reply(n: nat, err: Option<IoError>, after: Upstream)

  /** The wire bytes of a run of reads are its first read's and the rest's. */
  lemma {:induction false} WireSumFirst(w: seq<nat>, from: nat, to: nat)
    requires from < to
    ensures WireSum(w, from, to) == WireAt(w, from) + WireSum(w, from + 1, to)
  {
    if to > from + 1 {
      WireSumFirst(w, from, to - 1);
    }
  }

  /** A read takes its own wire bytes off those still to come. */
  lemma PendingStep(u: Upstream)
    ensures WireSum(u.wire, u.next, |u.wire|)
         == WireAt(u.wire, u.next) + WireSum(u.wire, u.next + 1, |u.wire|)
  {
    if u.next < |u.wire| {
      WireSumFirst(u.wire, u.next, |u.wire|);
    }
  }

  /** A read of the wrapped body with a buffer of length m. */
  function UpstreamRead(u: Upstream, m: nat): (r: Reply)
    requires Fits(u)
    ensures Fits(r.after)
    ensures r.n <= m && r.n + r.after.left == u.left
    ensures u.left > 0 ==> r.n == Min(m, u.left) && r.err == None
    ensures u.left == 0 ==> r.n == 0 && r.err == Some(u.end)
    ensures r.after.next == u.next + 1 && r.after.counter == u.counter + WireAt(u.wire, u.next)
    ensures r.after.end == u.end && r.after.wire == u.wire
  {
    PendingStep(u);
    var n := Min(m, u.left);
    var after := u.(left := u.left - n, next := u.next + 1, counter := u.counter + WireAt(u.wire, u.next));
    Reply(n, if u.left == 0 then Some(u.end) else None, after)
  }

  /** What the reader was built with: whether the counter pointer is non-nil,
      the start snapshot, and the limit (0 = uncapped). */
  datatype Cap = Cap(present: bool, startBytes: u64, limit: u64)

  /** A well-formed pairing of a body and a reader configuration: the counter
      fits in a uint64, never lies below the snapshot (it only grows), and is
      present whenever a limit is set (Go would dereference nil otherwise). */
  predicate Wired(u: Upstream, cap: Cap) {
    Fits(u) && u.counter >= cap.startBytes && (cap.limit > 0 ==> cap.present)
  }

  /** Network bytes consumed since the snapshot. */
  function Delta(u: Upstream, cap: Cap): int {
    u.counter - cap.startBytes
  }

  function CounterSeen(u: Upstream, cap: Cap): Option<u64>
    requires Fits(u)
  {
    if cap.present then Some(u.counter as u64) else None
  }

  /** networkLimitedReader.Read over the value model. */
  function LimitedRead(u: Upstream, cap: Cap, m: nat): (r: Reply)
    requires Wired(u, cap)
    ensures Wired(r.after, cap)
    ensures cap.limit == 0 ==> r == UpstreamRead(u, m)
    ensures cap.limit > 0 && Delta(u, cap) >= cap.limit ==> r == Reply(0, Some(EOF), u)
    ensures cap.limit > 0 && Delta(u, cap) < cap.limit ==>
              r == UpstreamRead(u, Min(m, cap.limit - Delta(u, cap)))
    ensures m >= 1 && r.err == None ==> r.after.left < u.left
  {
    match Decide(CounterSeen(u, cap), cap.startBytes, cap.limit, m)
    case EndOfStream => Reply(0, Some(EOF), u)
    case Forward(k) => UpstreamRead(u, k)
  }

  /** The shared counter of network-layer bytes. */
  class WireCounter {
    var value: u64

    constructor (value: u64)
      ensures this.value == value
    {
      this.value := value;
    }
  }

  /** A fake response body over an instrumented connection: each read hands
      back decoded bytes and makes the transport bump the shared counter by
      that read's wire bytes. */
  class ResponseBody {
    var left: nat
    var end: IoError
    const wire: seq<nat>
    var next: nat
    const tap: WireCounter

    ghost function State(): Upstream
      reads this, tap
    {
      Upstream(left, end, wire, next, tap.value)
    }

    ghost predicate Valid()
      reads this, tap
    {
      Fits(State())
    }

    constructor (left: nat, end: IoError, wire: seq<nat>, tap: WireCounter)
      requires Fits(Upstream(left, end, wire, 0, tap.value))
      ensures Valid() && this.tap == tap
      ensures State() == Upstream(left, end, wire, 0, tap.value)
    {
      this.left := left;
      this.end := end;
      this.wire := wire;
      this.next := 0;
      this.tap := tap;
    }

    /** Bytes the transport counts outside any body read (the request and the
        response headers). */
    method Arrive(bytes: nat)
      requires Valid() && Fits(State().(counter := State().counter + bytes))
      modifies tap
      ensures Valid()
      ensures State() == old(State()).(counter := old(State()).counter + bytes)
    {
      tap.value := tap.value + bytes;
    }

    method Read(m: nat) returns (n: nat, err: Option<IoError>)
      requires Valid()
      modifies this, tap
      ensures Valid()
      ensures Reply(n, err, State()) == UpstreamRead(old(State()), m)
    {
      PendingStep(State());
      var w := if next < |wire| then wire[next] else 0;
      n := if m <= left then m else left;
      err := if left == 0 then Some(end) else None;
      left := left - n;
      next := next + 1;
      tap.value := tap.value + w;
    }
  }

  /** networkLimitedReader: the wrapped body, the (possibly nil) shared
      counter, the start snapshot and the limit. */
  class NetworkLimitedReader {
    var reader: ResponseBody
    var bytesCounter: WireCounter?
    var startBytes: u64
    var limit: u64

    constructor (reader: ResponseBody, bytesCounter: WireCounter?, startBytes: u64, limit: u64)
      ensures this.reader == reader && this.bytesCounter == bytesCounter
      ensures this.startBytes == startBytes && this.limit == limit
    {
      this.reader := reader;
      this.bytesCounter := bytesCounter;
      this.startBytes := startBytes;
      this.limit := limit;
    }

    ghost function Config(): Cap
      reads this
    {
      Cap(bytesCounter != null, startBytes, limit)
    }

    /** The counter the reader loads is the one the body's transport bumps. */
    ghost predicate Valid()
      reads this, reader, reader.tap
    {
      reader.Valid()
      && (bytesCounter != null ==> bytesCounter == reader.tap)
      && Wired(reader.State(), Config())
    }

    /** Read only loads the counter; its one effect is the delegated read,
        made with a buffer shrunk to the bytes still allowed. */
    method Read(m: nat) returns (n: nat, err: Option<IoError>)
      requires Valid()
      modifies reader, reader.tap
      ensures Valid()
      ensures Reply(n, err, reader.State()) == LimitedRead(old(reader.State()), Config(), m)
    {
      var p := m;
      if limit > 0 {
        var currentBytes := bytesCounter.value;
        var networkRead := SubU64(currentBytes, startBytes);
        if networkRead >= limit {
          return 0, Some(EOF);
        }
        var remaining := limit - networkRead;
        if remaining < p {
          p := remaining;
        }
      }
      n, err := reader.Read(p);
    }
  }
}
