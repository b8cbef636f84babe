/** CheckSpeed: one download probe through a caller-supplied transport.  The
    request and the transport are parameters (the exchange either fails or
    yields a body whose transport bumps the shared counter); what is modelled
    is how the probe derives its size cap, drains the capped body, decides
    whether the drain failed, replaces a zero elapsed time with 1 ms and
    measures the bytes that crossed the network. */
module SpeedCheck {
  import opened Words
  import opened LimitedReader
  import opened Drain

  /** Bytes in one of the megabytes the size cap is configured in. */
  const MIB: nat := 1024 * 1024

  /** 2^44: multiplying by MIB takes any larger megabyte count past 2^64. */
  const MB_WRAP: nat := 0x1000_0000_0000

  /** Megabytes to bytes modulo 2^64: only the megabyte count modulo 2^44
      survives. */
  lemma MulWrap(x: nat)
    ensures (x * MIB) % U64_MODULUS == (x % MB_WRAP) * MIB
  {
    var q := x / MB_WRAP;
    var r := x % MB_WRAP;
    assert x * MIB == q * U64_MODULUS + r * MIB;
    assert 0 <= r * MIB < U64_MODULUS;
  }

  /** The network-layer size cap: the configured megabytes in bytes, computed
      in uint64 (and so modulo 2^64), or 0 (no cap) when the setting is not
      positive. */
  function LimitSize(downloadMB: i64): (limit: u64)
    ensures downloadMB <= 0 ==> limit == 0
    ensures 0 < downloadMB < MB_WRAP ==> limit == downloadMB * MIB
    ensures downloadMB > 0 ==> limit == (downloadMB % MB_WRAP) * MIB
    ensures limit % MIB == 0
  {
    if downloadMB > 0 then
      MulWrap(downloadMB);
      (downloadMB * MIB) % U64_MODULUS
    else 0
  }

  /** The cap is off exactly when the setting is not positive or is a
      multiple of 2^44 megabytes, where the uint64 product wraps to 0. */
  lemma LimitSizeOff(downloadMB: i64)
    ensures LimitSize(downloadMB) == 0 <==> downloadMB <= 0 || downloadMB % MB_WRAP == 0
  {
    if downloadMB > 0 {
      MulWrap(downloadMB);
    }
  }

  /** The divisor the speed is computed with: the elapsed milliseconds, with
      0 (a probe that took under a millisecond) replaced by 1. */
  function Divisor(elapsedMs: i64): (d: i64)
    ensures d != 0
    ensures elapsedMs == 0 ==> d == 1
    ensures elapsedMs != 0 ==> d == elapsedMs
    ensures elapsedMs >= 0 ==> d >= 1
  {
    if elapsedMs == 0 then 1 else elapsedMs
  }

  /** Network bytes the probe reports: the counter's advance since the
      snapshot, as uint64 arithmetic reinterpreted as int64, or 0 without a
      counter. */
  function ActualBytes(counter: Option<u64>, startBytes: u64): (a: i64)
    ensures counter.None? ==> a == 0
    ensures counter.Some? && startBytes <= counter.value < startBytes + I64_BOUND ==>
              a == counter.value - startBytes
    ensures counter.Some? ==> (a - (counter.value - startBytes)) % U64_MODULUS == 0
  {
    if counter.Some? then ToI64(SubU64(counter.value, startBytes)) else 0
  }

  /** Whether the drain's outcome aborts the probe: only an error other than
      io.EOF with no byte read does. */
  function Fatal(err: Option<IoError>, total: nat): (fatal: bool)
    ensures err == None || err == Some(EOF) ==> !fatal
    ensures total > 0 ==> !fatal
    ensures err.Some? && err != Some(EOF) && total == 0 ==> fatal
  {
    err.Some? && err.value != EOF && total == 0
  }

  /** A drain is fatal exactly when the body was empty, ended in an error
      other than io.EOF, and the cap had not been reached before the first
      read: partial data, a capped stream and a clean end all go on to the
      speed result. */
  lemma FatalDrain(u0: Upstream, u: Upstream, cap: Cap, total: nat,
                      err: Option<IoError>, bufLen: nat)
    requires DrainDone(u0, u, cap, total, err, bufLen)
    ensures Fatal(err, total) <==>
              u0.left == 0 && u0.end != EOF && (cap.limit == 0 || Delta(u0, cap) < cap.limit)
  {
  }

  /** With the counter present and the drain's delta below 2^63, the reported
      bytes are exactly the network bytes consumed since the snapshot. */
  lemma ActualBytesIsDelta(u: Upstream, cap: Cap)
    requires Wired(u, cap) && cap.present && Delta(u, cap) < I64_BOUND
    ensures ActualBytes(CounterSeen(u, cap), cap.startBytes) == Delta(u, cap)
  {
  }

  /** What the transport does with the request: fail (building the request or
      sending it), or answer with a body after landing `landed` bytes of
      request and response headers on the counter. */
  datatype Exchange = Refused(reason: string) | Answered(landed: nat)

  /** The reader configuration a probe builds from the counter's state at the
      snapshot and the configured megabytes: the snapshot is the counter's
      value, or 0 when there is no counter. */
  function ProbeCap(present: bool, before: Upstream, downloadMB: i64): (cap: Cap)
    requires Fits(before)
    ensures cap.present == present && cap.limit == LimitSize(downloadMB)
    ensures present ==> cap.startBytes == before.counter
    ensures !present ==> cap.startBytes == 0
  {
    Cap(present, if present then before.counter as u64 else 0, LimitSize(downloadMB))
  }

  /** The probe once the response has arrived (lines 75-117): derive the
      cap, drain the capped body, apply the fatal rule, replace a zero
      duration with 1 ms and report the counter's advance since the snapshot
      startBytes. */
  method Measure(downloadMB: i64, bytesCounter: WireCounter?, startBytes: u64, body: ResponseBody,
                 elapsedMs: i64, speedOf: (i64, i64) -> int)
    returns (speed: int, bytes: i64, err: Option<IoError>, ghost drained: nat, ghost drainErr: Option<IoError>)
    requires body.Valid() && (bytesCounter != null ==> bytesCounter == body.tap)
    requires body.tap.value >= startBytes
    requires LimitSize(downloadMB) > 0 ==> bytesCounter != null
    modifies body, body.tap
    ensures body.Valid()
    ensures var cap := Cap(bytesCounter != null, startBytes, LimitSize(downloadMB));
            && DrainDone(old(body.State()), body.State(), cap, drained, drainErr, DISCARD_BUFFER)
            && (Fatal(drainErr, drained) ==> speed == 0 && bytes == 0 && err == drainErr)
            && (!Fatal(drainErr, drained) ==>
                  && err == None
                  && bytes == ActualBytes(CounterSeen(body.State(), cap), startBytes)
                  && speed == speedOf(bytes, Divisor(elapsedMs)))
  {
    var limitSize := LimitSize(downloadMB);
    var limitedReader := new NetworkLimitedReader(body, bytesCounter, startBytes, limitSize);
    var totalBytes, e := Copy(limitedReader, DISCARD_BUFFER);
    drained, drainErr := totalBytes, e;
    if e.Some? && e.value != EOF && totalBytes == 0 {
      return 0, 0, e, drained, drainErr;
    }
    var duration := Divisor(elapsedMs);
    var actualBytes: i64 := 0;
    if bytesCounter != null {
      actualBytes := ActualBytes(Some(bytesCounter.value), startBytes);
    }
    speed := speedOf(actualBytes, duration);
    bytes := actualBytes;
    err := None;
  }

  /** One probe.  bytesCounter is the shared counter (nil allowed), which the
      body's transport bumps; elapsedMs is the wall-clock time the probe
      took, and speedOf the float speed formula.  drained and drainErr expose
      what io.Copy returned. */
  method CheckSpeed(downloadMB: i64, bytesCounter: WireCounter?, exchange: Exchange,
                    body: ResponseBody, elapsedMs: i64, speedOf: (i64, i64) -> int)
    returns (speed: int, bytes: i64, err: Option<IoError>, ghost drained: nat, ghost drainErr: Option<IoError>)
    requires body.Valid() && (bytesCounter != null ==> bytesCounter == body.tap)
    requires exchange.Answered? ==> Fits(body.State().(counter := body.State().counter + exchange.landed))
    // a non-zero cap makes every read load the counter, which must then exist
    requires exchange.Answered? && LimitSize(downloadMB) > 0 ==> bytesCounter != null
    modifies body, body.tap
    ensures body.Valid()
    ensures exchange.Refused? ==>
              speed == 0 && bytes == 0 && err == Some(Failure(exchange.reason))
              && body.State() == old(body.State())
    ensures exchange.Answered? ==>
              var u0 := old(body.State()).(counter := old(body.State()).counter + exchange.landed);
              var cap := ProbeCap(bytesCounter != null, old(body.State()), downloadMB);
              && DrainDone(u0, body.State(), cap, drained, drainErr, DISCARD_BUFFER)
              && (Fatal(drainErr, drained) ==> speed == 0 && bytes == 0 && err == drainErr)
              && (!Fatal(drainErr, drained) ==>
                    && err == None
                    && bytes == ActualBytes(CounterSeen(body.State(), cap), cap.startBytes)
                    && speed == speedOf(bytes, Divisor(elapsedMs)))
  {
    var startBytes: u64 := 0;
    if bytesCounter != null {
      startBytes := bytesCounter.value;
    }
    if exchange.Refused? {
      return 0, 0, Some(Failure(exchange.reason)), 0, None;
    }
    ghost var before := body.State();
    body.Arrive(exchange.landed);
    assert ProbeCap(bytesCounter != null, before, downloadMB)
        == Cap(bytesCounter != null, startBytes, LimitSize(downloadMB));
    speed, bytes, err, drained, drainErr := Measure(downloadMB, bytesCounter, startBytes, body,
                                                    elapsedMs, speedOf);
  }
}
