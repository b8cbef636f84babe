/** Probes over fixed bodies and transports, each stating the result that
    CheckSpeed's contract pins down for it. */
module Scenarios {
  import opened Words
  import opened LimitedReader
  import opened Drain
  import opened SpeedCheck

  /** The first k reads of a script landing c wire bytes each land k * c. */
  lemma {:induction false} WireSumUniform(w: seq<nat>, c: nat, k: nat)
    requires k <= |w| && forall i :: 0 <= i < |w| ==> w[i] == c
    ensures WireSum(w, 0, k) == Times(k, c)
  {
    if k > 0 {
      WireSumUniform(w, c, k - 1);
    }
  }

  /** Reads past the end of a script land nothing more. */
  lemma {:induction false} WireSumBeyond(w: seq<nat>, k: nat)
    requires k >= |w|
    ensures WireSum(w, 0, k) == WireSum(w, 0, |w|)
  {
    if k > |w| {
      WireSumBeyond(w, k - 1);
    }
  }

  /** Reads added to a prefix of a script can only add wire bytes. */
  lemma {:induction false} WireSumMono(w: seq<nat>, a: nat, b: nat)
    requires a <= b
    ensures WireSum(w, 0, a) <= WireSum(w, 0, b)
  {
    if a < b {
      WireSumMono(w, a, b - 1);
    }
  }

  /** A 10-byte cap whose first read lands 10 wire bytes: that read takes the
      delta to the limit, so the next Read ends the stream and the body is
      read exactly once, however much of it is left. */
  lemma StopsAtLimit(u0: Upstream, u: Upstream, total: nat, err: Option<IoError>)
    requires u0 == Upstream(100_000, EOF, [10, 1, 1, 1], 0, 0)
    requires DrainDone(u0, u, Cap(true, 0, 10), total, err, DISCARD_BUFFER)
    ensures u.next == 1 && u.counter == 10 && err == None
  {
    if u.next >= 2 {
      WireSumMono(u0.wire, 1, u.next - 1);
    }
  }

  /** The counting behind CappedProbe: with 64 KiB landed per read after 512
      header bytes, the delta first reaches 1 MiB after read 16, and at most
      16 * 8192 decoded bytes are read, far from the body's end. */
  lemma {:induction false} CappedDrain(u0: Upstream, u: Upstream, total: nat, err: Option<IoError>)
    requires u0 == Upstream(10_000_000, EOF, seq(10_000_001, _ => 65536), 0, 512)
    requires DrainDone(u0, u, Cap(true, 0, MIB), total, err, DISCARD_BUFFER)
    ensures u.next == 16 && u.counter == MIB + 512 && err == None
  {
    var k := u.next;
    if k > 0 {
      WireSumUniform(u0.wire, 65536, k - 1);
      TimesIsProduct(k - 1, 65536);
      TimesIsProduct(k, DISCARD_BUFFER);
    }
    WireSumUniform(u0.wire, 65536, k);
    TimesIsProduct(k, 65536);
  }

  /** The counting behind UncappedWithCounter: without a cap, 200,000 bytes
      in 8,192-byte buffers take 25 data reads and the read that meets
      io.EOF, each landing 8,000 wire bytes after a counter at 5,000. */
  lemma {:induction false} UncappedDrain(u0: Upstream, u: Upstream, total: nat, err: Option<IoError>)
    requires u0 == Upstream(200_000, EOF, seq(40, _ => 8_000), 0, 5_000)
    requires DrainDone(u0, u, Cap(true, 5_000, 0), total, err, DISCARD_BUFFER)
    ensures u.next == 26 && u.counter == 213_000 && total == 200_000 && err == None
  {
    var k := u.next;
    ForwardedFull(u0, Cap(true, 5_000, 0), DISCARD_BUFFER, k - 1);
    TimesIsProduct(k - 1, DISCARD_BUFFER);
    if k >= 2 {
      ForwardedFull(u0, Cap(true, 5_000, 0), DISCARD_BUFFER, k - 2);
      TimesIsProduct(k - 2, DISCARD_BUFFER);
    }
    WireSumUniform(u0.wire, 8_000, k);
    TimesIsProduct(k, 8_000);
  }

  /** A script landing 1 wire byte per read lands one byte for each read
      it covers. */
  lemma OnesPrefix(w: seq<nat>, i: nat)
    requires forall j :: 0 <= j < |w| ==> w[j] == 1
    ensures WireSum(w, 0, i) == Min(i, |w|)
  {
    if i <= |w| {
      WireSumUniform(w, 1, i);
      TimesIsProduct(i, 1);
    } else {
      WireSumBeyond(w, i);
      WireSumUniform(w, 1, |w|);
      TimesIsProduct(|w|, 1);
    }
  }

  /** The counting behind SmallBodyUnderCap: a 10 MiB cap that the 200,000-byte
      body never comes near, with 1 wire byte landed per read for 100 reads.
      Every read forwards the whole 8,192-byte buffer, so the drain makes 25
      data reads and one that meets io.EOF, and the counter ends at 26. */
  lemma {:induction false} BodyEndsBelowCap(u0: Upstream, u: Upstream, total: nat, err: Option<IoError>)
    requires u0 == Upstream(200_000, EOF, seq(100, _ => 1), 0, 0)
    requires DrainDone(u0, u, Cap(true, 0, 10 * MIB), total, err, DISCARD_BUFFER)
    ensures u.next == 26 && u.counter == 26 && total == 200_000 && err == None
  {
    var cap := Cap(true, 0, 10 * MIB);
    var k := u.next;
    forall i | 0 <= i < k
      ensures Room(u0, cap, DISCARD_BUFFER, i) == DISCARD_BUFFER
    {
      OnesPrefix(u0.wire, i);
    }
    OnesPrefix(u0.wire, k);
    ForwardedFull(u0, cap, DISCARD_BUFFER, k - 1);
    TimesIsProduct(k - 1, DISCARD_BUFFER);
    if k >= 2 {
      ForwardedFull(u0, cap, DISCARD_BUFFER, k - 2);
      TimesIsProduct(k - 2, DISCARD_BUFFER);
    }
  }

  /** A 1 MiB cap over a 10 MB body whose transport lands 64 KiB of wire bytes
      per read, after 512 bytes of headers: the 17th Read finds the cap
      reached, so the body is read exactly 16 times and the probe reports
      1 MiB + 512 network bytes, with no error. */
  method CappedProbe(speedOf: (i64, i64) -> int)
    returns (speed: int, bytes: i64, err: Option<IoError>, ghost nreads: nat)
    ensures err == None
    ensures bytes == MIB + 512 && nreads == 16
    ensures speed == speedOf(bytes, 1000)
  {
    var counter := new WireCounter(0);
    var wire: seq<nat> := seq(10_000_001, _ => 65536);
    WireSumUniform(wire, 65536, |wire|);
    TimesIsProduct(|wire|, 65536);
    var body := new ResponseBody(10_000_000, EOF, wire, counter);
    ghost var drained, drainErr;
    speed, bytes, err, drained, drainErr := CheckSpeed(1, counter, Answered(512), body, 1000, speedOf);
    CappedDrain(Upstream(10_000_000, EOF, wire, 0, 512), body.State(), drained, drainErr);
    nreads := body.next;
    assert !Fatal(drainErr, drained);
  }

  /** No cap, with a counter at 5,000: a 200,000-byte body whose transport
      lands 8,000 wire bytes with every read, for longer than the drain
      reads.  The drain takes 25 reads of 8,192-byte buffers to empty the
      body and a 26th to meet io.EOF, so the probe reports 26 * 8,000 bytes. */
  method UncappedWithCounter(speedOf: (i64, i64) -> int)
    returns (speed: int, bytes: i64, err: Option<IoError>, ghost drained: nat, ghost nreads: nat)
    ensures err == None && drained == 200_000 && nreads == 26
    ensures bytes == 208_000 && speed == speedOf(208_000, 40)
  {
    var counter := new WireCounter(5_000);
    var wire: seq<nat> := seq(40, _ => 8_000);
    WireSumUniform(wire, 8_000, |wire|);
    TimesIsProduct(|wire|, 8_000);
    var body := new ResponseBody(200_000, EOF, wire, counter);
    ghost var drainErr;
    speed, bytes, err, drained, drainErr := CheckSpeed(0, counter, Answered(0), body, 40, speedOf);
    UncappedDrain(Upstream(200_000, EOF, wire, 0, 5_000), body.State(), drained, drainErr);
    nreads := body.next;
  }

  /** A 10 MiB cap over a 200,000-byte body whose transport lands 1 wire byte
      per read: the body ends long before the cap, after 25 full reads and
      the read that meets io.EOF, and the probe reports the 26 network bytes
      those reads landed. */
  method SmallBodyUnderCap(speedOf: (i64, i64) -> int)
    returns (speed: int, bytes: i64, err: Option<IoError>, ghost drained: nat, ghost nreads: nat)
    ensures err == None && drained == 200_000 && nreads == 26
    ensures bytes == 26 && speed == speedOf(26, 100)
  {
    var counter := new WireCounter(0);
    var wire: seq<nat> := seq(100, _ => 1);
    OnesPrefix(wire, |wire|);
    var body := new ResponseBody(200_000, EOF, wire, counter);
    ghost var drainErr;
    speed, bytes, err, drained, drainErr := CheckSpeed(10, counter, Answered(0), body, 100, speedOf);
    BodyEndsBelowCap(Upstream(200_000, EOF, wire, 0, 0), body.State(), drained, drainErr);
    nreads := body.next;
  }

  /** No cap and no counter: the whole 500,000-byte body is drained, yet the
      probe reports 0 network bytes, since it has nothing to measure them
      with. */
  method UncappedWithoutCounter(speedOf: (i64, i64) -> int)
    returns (speed: int, bytes: i64, err: Option<IoError>, ghost drained: nat)
    ensures err == None && bytes == 0 && drained == 500_000
    ensures speed == speedOf(0, 250)
  {
    var tap := new WireCounter(0);
    var body := new ResponseBody(500_000, EOF, [], tap);
    ghost var drainErr;
    speed, bytes, err, drained, drainErr := CheckSpeed(0, null, Answered(0), body, 250, speedOf);
  }

  /** A body that times out before its first byte fails the probe with that
      error and zero speed and bytes. */
  method TimeoutBeforeData(speedOf: (i64, i64) -> int) returns (speed: int, bytes: i64, err: Option<IoError>)
    ensures speed == 0 && bytes == 0 && err == Some(Failure("i/o timeout"))
  {
    var counter := new WireCounter(7_000);
    var body := new ResponseBody(0, Failure("i/o timeout"), [], counter);
    ghost var drained, drainErr;
    ghost var u0 := body.State().(counter := 7_300);
    speed, bytes, err, drained, drainErr := CheckSpeed(10, counter, Answered(300), body, 30_000, speedOf);
    FatalDrain(u0, body.State(), ProbeCap(true, u0.(counter := 7_000), 10), drained, drainErr,
               DISCARD_BUFFER);
  }

  /** A connection reset after a 200,000-byte body whose transport landed
      150,000 wire bytes (a compressed transfer) with the first read, after
      300 bytes of headers: not a failed probe; the error is dropped and the
      probe reports the 150,300 bytes that crossed the network. */
  method ResetAfterData(speedOf: (i64, i64) -> int) returns (speed: int, bytes: i64, err: Option<IoError>)
    ensures err == None && bytes == 150_300
    ensures speed == speedOf(bytes, 2_000)
  {
    var counter := new WireCounter(0);
    var wire: seq<nat> := [150_000];
    var body := new ResponseBody(200_000, Failure("connection reset"), wire, counter);
    ghost var drained, drainErr;
    ghost var u0 := body.State().(counter := 300);
    speed, bytes, err, drained, drainErr := CheckSpeed(10, counter, Answered(300), body, 2_000, speedOf);
    FatalDrain(u0, body.State(), ProbeCap(true, u0.(counter := 0), 10), drained, drainErr,
               DISCARD_BUFFER);
    if body.next > 0 {
      WireSumBeyond(wire, body.next);
    }
  }

  /** A request the transport refuses fails the probe with the transport's
      error and leaves the counter alone. */
  method RefusedRequest(speedOf: (i64, i64) -> int) returns (speed: int, bytes: i64, err: Option<IoError>, ghost seen: u64)
    ensures speed == 0 && bytes == 0 && err == Some(Failure("connection refused"))
    ensures seen == 42
  {
    var counter := new WireCounter(42);
    var body := new ResponseBody(1_000, EOF, [], counter);
    ghost var drained, drainErr;
    speed, bytes, err, drained, drainErr := CheckSpeed(10, counter, Refused("connection refused"), body, 5, speedOf);
    seen := counter.value;
  }
}
