# Network-capped speed probe (subs-check, `check/platform/speed.go`)

subs-check measures the download speed of each proxy node with `CheckSpeed`.
It fetches a test URL through the node's transport and drains the response
body. The size of a probe is capped at the network layer, not on decoded
bytes. The transport bumps a shared `uint64` counter as bytes arrive, and
`networkLimitedReader` wraps the body. On each `Read`, the reader compares the
counter's advance since a start snapshot with the configured limit. It ends
the stream once the limit is reached. Otherwise it shrinks the caller's buffer
to the bytes still allowed. After the drain, `CheckSpeed` decides whether the
drain failed, replaces an elapsed time of 0 ms with 1 ms and reports the
counter's advance as the probe's byte count.

The model has five modules:

- `Words` (words.dfy): Go's `uint64` and `int64`, the wrapping `uint64`
  subtraction and the `int64(uint64)` conversion.
- `LimitedReader` (reader.dfy) holds the reader's rule:
  - the per-call decision `Decide`, and `LimitedRead`, one read over a value
    model of the body and its counter (`Upstream`);
  - the objects themselves as classes: the counter cell `WireCounter`, the
    body `ResponseBody`, and `NetworkLimitedReader`. Its `Read` follows the Go
    method line by line and is proved equal to `LimitedRead`.
- `Drain` (drain.dfy): `io.Copy(io.Discard, r)` as a loop that reads with
  io.Discard's 8192-byte buffer until the first error. io.EOF counts as
  success. The loop is proved to end in a `DrainDone` state.
- `SpeedCheck` (speed_check.dfy): the limit derivation, the fatal rule, the
  zero-duration rule and the byte count. `Measure` puts them together around the
  drain once the response has arrived. `CheckSpeed` adds the snapshot and the
  request that may fail.
- `Scenarios` (scenarios.dfy): what the contract of `CheckSpeed` fixes for a
  few concrete bodies and transports.

## Model

| member | source | states |
|---|---|---|
| Words.SubU64 | check/platform/speed.go:28 | `a - b` on uint64: the plain difference when b ≤ a, otherwise 2^64 minus the shortfall |
| Words.ToI64 | check/platform/speed.go:108 | `int64(x)` keeps x below 2^63, is negative exactly when x ≥ 2^63, and is congruent to x modulo 2^64 |
| LimitedReader.Decide | check/platform/speed.go:25-38 | with limit 0, the caller's buffer passes unchanged; with a limit, the stream ends exactly when counter − snapshot (mod 2^64) ≥ limit; otherwise the forwarded length is min(len(p), limit − delta), never takes delta past the limit, and is ≥ 1 when len(p) ≥ 1 |
| LimitedReader.UpstreamRead | check/platform/speed.go:39 | the wrapped body's read: min(len, left) bytes while data remains, its terminal error once it is exhausted; the counter grows by that read's wire bytes and stays a uint64 |
| LimitedReader.LimitedRead | check/platform/speed.go:25-40 | limit 0: exactly the wrapped read; delta ≥ limit: (0, io.EOF) with the body and counter untouched; delta < limit: the wrapped read with buffer min(len(p), limit − delta); a read without error consumes ≥ 1 byte; the counter never falls below the snapshot |
| LimitedReader.NetworkLimitedReader.Read | check/platform/speed.go:25-40 | the Go method (load the counter, subtract, compare, reslice, delegate) returns exactly what LimitedRead says, and changes only the wrapped body and its counter (never startBytes, limit or the counter pointer) |
| LimitedReader.NetworkLimitedReader.constructor | check/platform/speed.go:84-89 | the reader holds the body, the counter pointer, the snapshot and the limit it was given |
| LimitedReader.ResponseBody.Read | check/platform/speed.go:39 | the fake body's read, step by step, equals UpstreamRead on its state |
| LimitedReader.ResponseBody.Arrive | check/platform/speed.go:68 | bytes the transport counts before the body is read (headers) raise only the counter |
| Drain.EndError | check/platform/speed.go:92 | io.Copy reports io.EOF as no error and returns any other terminal error unchanged |
| Drain.BodyReads | check/platform/speed.go:92 | the number of full-or-final reads of bufLen bytes that take a body of `left` bytes to its end: the least r with r × bufLen ≥ left |
| Drain.BodyReadsExact | check/platform/speed.go:92 | BodyReads is the only r ≥ 1 with (r − 1) × bufLen < left ≤ r × bufLen |
| Drain.Room | check/platform/speed.go:25-38 | the buffer the reader forwards on the i-th read of a drain: all of len(p) without a limit; with a limit, non-empty exactly when the delta before that read (start delta + wire bytes of the i earlier reads) is under the limit; never more than len(p) |
| Drain.ForwardedFull | check/platform/speed.go:92 | while every read forwards the whole buffer, k reads may return exactly k full buffers |
| Drain.KeptStep | check/platform/speed.go:25-40 | every read of the drain keeps its counts: bytes counted = decoded bytes consumed; the counter = its start value + the wire bytes of the reads made; every body read starts below the limit (the delta before it, start delta + wire bytes of the earlier reads, is under the limit); a read returns at most bufLen bytes; reads ≤ bytes consumed + 1 |
| Drain.FullStep | check/platform/speed.go:25-40 | a read without error returns its whole forwarded buffer (Room for that read), or the rest of the body when less is left, and consumes exactly that |
| Drain.InvStep | check/platform/speed.go:92 | a read without error also consumed at least one decoded byte and, while body remains, its whole forwarded buffer, so the loop's invariant holds again: the bytes counted equal the sum of the forwarded buffers while body remains |
| Drain.DrainStart | check/platform/speed.go:92 | before the first read the loop's invariant holds: nothing counted, nothing read |
| Drain.EndStep | check/platform/speed.go:25-40 | a read that returns an error either finds delta ≥ limit, returning (0, io.EOF) and changing nothing, or meets the exhausted body's own end below the limit |
| Drain.DrainFinish | check/platform/speed.go:92 | the read that returns an error leaves the drain in a DrainDone state |
| Drain.Copy | check/platform/speed.go:92 | the drain loop ends in DrainDone: never io.EOF; uncapped, it reads the whole body; the number of reads is fixed by the forwarded buffers (Room): either the last read met the body's end and the bytes counted exceed the buffers of all reads but the last two and are within those of all but the last, or the delta reached the limit, the stream ended there without error, and the bytes counted exceed the buffers of all reads but the last and equal the sum of all of them while body remains; every body read started below the limit; below the limit it reaches the body's end; a returned error is the body's own; at or over the limit from the start, nothing is read; the counter ends at its start value plus the wire bytes of the reads made |
| Drain.DrainBodyReads | check/platform/speed.go:92 | an uncapped drain reads the body exactly BodyReads(body size, bufLen) + 1 times |
| Drain.WireSumAtLeast | check/platform/speed.go:92 | when every read lands at least lo wire bytes, k reads land at least k × lo |
| Drain.DrainOvershoot | check/platform/speed.go:25-40 | a capped drain that starts below the limit ends with the delta below limit + hi when no read lands more than hi wire bytes |
| Drain.DrainReads | check/platform/speed.go:25-40 | when every read lands at least lo wire bytes: reads × lo ≤ the delta's growth, and (reads − 1) × lo < limit − start delta |
| SpeedCheck.MulWrap | check/platform/speed.go:78 | megabytes × 2^20 modulo 2^64 keeps only the megabyte count modulo 2^44 |
| SpeedCheck.LimitSize | check/platform/speed.go:76-81 | limit 0 when DownloadMB ≤ 0; otherwise exactly (DownloadMB mod 2^44) × 1024 × 1024, the uint64 product, which is DownloadMB × 1024 × 1024 when that fits; always a whole number of MiB |
| SpeedCheck.LimitSizeOff | check/platform/speed.go:76-81 | the cap is off exactly when DownloadMB ≤ 0 or DownloadMB is a multiple of 2^44, where the uint64 product wraps to 0 |
| SpeedCheck.Divisor | check/platform/speed.go:100-103 | the duration divisor is exactly 1 when the elapsed time is 0, the elapsed time otherwise, and so never 0 (≥ 1 for non-negative time) |
| SpeedCheck.ActualBytes | check/platform/speed.go:106-112 | 0 without a counter; counter − snapshot when that lies in [0, 2^63); always congruent to counter − snapshot modulo 2^64 |
| SpeedCheck.ActualBytesIsDelta | check/platform/speed.go:106-112 | with a counter and a delta below 2^63, the reported bytes are the network bytes consumed since the snapshot |
| SpeedCheck.Fatal | check/platform/speed.go:94 | the abort condition: no error, io.EOF, or any byte read is never fatal; an error other than io.EOF with no byte read always is |
| SpeedCheck.FatalDrain | check/platform/speed.go:92-97 | a finished drain aborts the probe exactly when the body was empty, its end was an error other than io.EOF, and the cap had not been reached before the first read; partial data, a capped stream or a clean end go on to the result |
| SpeedCheck.ProbeCap | check/platform/speed.go:61-89 | the reader's configuration: the start snapshot is the counter's value when there is a counter and 0 otherwise (lines 62-65), and the limit is LimitSize |
| SpeedCheck.Measure | check/platform/speed.go:75-117 | after the response: the drain of the capped body ends in DrainDone; a fatal drain gives (0, 0, err); any other gives no error, bytes = ActualBytes of the counter after the drain, and speed from those bytes and the duration (0 ms replaced by 1 ms) |
| SpeedCheck.CheckSpeed | check/platform/speed.go:42-118 | a failed request gives (0, 0, err) and reads nothing; otherwise the drain ends in DrainDone; a fatal drain gives (0, 0, err); any other drain gives no error, bytes = ActualBytes of the counter after the drain, and speed from those bytes and the duration (0 ms replaced by 1 ms) |
| Scenarios.StopsAtLimit | check/platform/speed.go:25-40 | a 10-byte cap whose first read lands 10 wire bytes: the body is read exactly once, however much is left, and the counter ends at 10, without error |
| Scenarios.CappedDrain | check/platform/speed.go:92 | with a 1 MiB cap, 64 KiB landed per read and 512 header bytes, the drain reads the body exactly 16 times and ends with the counter at 1 MiB + 512, without error |
| Scenarios.CappedProbe | check/platform/speed.go:76-118 | 1 MiB cap, 64 KiB of wire bytes per read, 512 header bytes: no error, exactly 16 reads of the body, and 1 MiB + 512 bytes reported |
| Scenarios.UncappedDrain | check/platform/speed.go:92 | uncapped, 200,000 bytes in 8,192-byte buffers with 8,000 wire bytes per read: 25 data reads and one that meets io.EOF, the counter up by 208,000 |
| Scenarios.BodyEndsBelowCap | check/platform/speed.go:25-92 | a 10 MiB cap, a 200,000-byte body and 1 wire byte landed per read: every read forwards the whole 8,192-byte buffer, so the drain makes 25 data reads and one that meets io.EOF, with the counter at 26 and no error |
| Scenarios.SmallBodyUnderCap | check/platform/speed.go:76-112 | a 10 MiB cap the 200,000-byte body never nears, 1 wire byte per read: no error, the whole body drained in 26 reads, and 26 bytes reported |
| Scenarios.UncappedWithCounter | check/platform/speed.go:76-112 | no cap, a counter, a 200,000-byte body and a transport that lands 8,000 wire bytes per read for longer than the drain reads: all of it is drained in 26 reads, and the probe reports exactly 208,000 bytes and no error |
| Scenarios.UncappedWithoutCounter | check/platform/speed.go:76-81 | no cap and no counter: the whole 500,000-byte body is drained, and the probe reports 0 bytes and no error |
| Scenarios.TimeoutBeforeData | check/platform/speed.go:92-97 | a timeout before the first byte gives (0, 0, timeout) |
| Scenarios.ResetAfterData | check/platform/speed.go:92-117 | a reset after the body's data is not an error, and the probe reports exactly the 150,300 bytes (headers plus wire bytes) that crossed the network |
| Scenarios.RefusedRequest | check/platform/speed.go:68-72 | a refused request gives (0, 0, err) and leaves the counter unchanged |

## Left out

- HTTP client construction, the request, the random User-Agent and `speedClient.Do` (lines 48-72) are not modelled. The `Exchange` parameter stands for them: the transport either refuses, or answers after landing some header bytes on the counter. Request-building and send failures share the `Refused` case, and a refused exchange lands nothing on the counter.
- `config.GlobalConfig` is not part of this model. DownloadMB is a parameter, taken to be a 64-bit Go `int`. The timeout and the URL only affect the HTTP layer.
- The `ratelimit.Bucket` argument is not modelled, because the file never uses it.
- Atomic loads and concurrent probes sharing the counter are not modelled. The counter is a plain cell that only this body's transport advances.
- Wall-clock time is not modelled: the elapsed milliseconds are a parameter.
- SpeedCheck.CheckSpeed: the float speed formula `int(float64(actualBytes) / 1024 * 1000 / float64(duration))` is the parameter `speedOf`. The contract only says which arguments it gets, not its float rounding.
- `slog.Debug` logging and the deferred `resp.Body.Close` have no effect on the result, so they are not modelled.
- Drain.Copy: the byte total is an unbounded `nat`, so io.Copy's `int64` overflow is not modelled.
- Drain.Copy: io.Copy's own dispatch is not modelled. With io.Discard as the destination, it always reads through io.Discard's 8192-byte buffer, which is the only path modelled.
- LimitedReader.UpstreamRead: the body returns data or an error, never both in one call. It returns (0, nil) only for an empty buffer, and the drain never forwards an empty one. io.Reader also permits data together with an error, and (0, nil) for a non-empty buffer; the model does not cover either. The body always returns min(len(p), bytes left), so short reads while data remains are not covered either.
- LimitedReader.Decide: a nil counter with a non-zero limit makes Go panic. The model requires a counter whenever the limit is non-zero, and `CheckSpeed` requires one whenever LimitSize is non-zero.
- LimitedReader.Wired: the counter is assumed never to wrap past 2^64 and never to fall below the snapshot. Under that assumption, the wrapping subtraction at line 28 always gives the true delta.
