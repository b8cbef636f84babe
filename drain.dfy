/** The drain `io.Copy(io.Discard, limitedReader)`: io.Discard reads the
    source into a fixed buffer until the first error, adds up the byte counts
    and turns io.EOF into success. */
module Drain {
  import opened Words
  import opened LimitedReader

  /** Size of the buffer io.Discard reads into. */
  const DISCARD_BUFFER: nat := 8192

  /** What the drain reports once the body's own terminal error is reached:
      nothing for io.EOF, the error otherwise. */
  function EndError(e: IoError): (r: Option<IoError>)
    ensures r != Some(EOF)
    ensures r == None <==> e == EOF
    ensures e != EOF ==> r == Some(e)
  {
    if e == EOF then None else Some(e)
  }

  /** Data reads an uncapped drain with a bufLen-byte buffer makes to take
      `left` bytes of body to its end: the least r with r * bufLen >= left. */
  function BodyReads(left: nat, bufLen: nat): (r: nat)
    requires bufLen >= 1
    ensures Times(r, bufLen) >= left
    ensures r > 0 ==> Times(r - 1, bufLen) < left
    decreases left
  {
    if left == 0 then 0 else 1 + BodyReads(left - Min(bufLen, left), bufLen)
  }

  lemma {:induction false} TimesMono(a: nat, b: nat, j: nat)
    requires a <= b
    ensures Times(a, j) <= Times(b, j)
    decreases b
  {
    if a < b {
      TimesMono(a, b - 1, j);
    }
  }

  /** BodyReads is the only count r of bufLen-byte reads that covers left
      bytes while r - 1 of them would not. */
  lemma BodyReadsExact(left: nat, bufLen: nat, r: nat)
    requires bufLen >= 1 && r >= 1
    requires Times(r - 1, bufLen) < left <= Times(r, bufLen)
    ensures BodyReads(left, bufLen) == r
  {
    var b := BodyReads(left, bufLen);
    if b < r {
      TimesMono(b, r - 1, bufLen);
    } else if b > r {
      TimesMono(r, b - 1, bufLen);
    }
  }

  /** The buffer the reader forwards on read number i of a drain from u0
      (speed.go:33-37): all of bufLen without a limit; below the limit, bufLen
      shrunk to the room left, where the delta before that read is the start
      delta plus the wire bytes of the i reads before it; at or over the
      limit, nothing. */
  function Room(u0: Upstream, cap: Cap, bufLen: nat, i: nat): (m: nat)
    ensures m <= bufLen
    ensures cap.limit == 0 ==> m == bufLen
    ensures cap.limit > 0 ==>
              (m > 0 <==> bufLen > 0 && Delta(u0, cap) + WireSum(u0.wire, u0.next, u0.next + i) < cap.limit)
  {
    var delta := Delta(u0, cap) + WireSum(u0.wire, u0.next, u0.next + i);
    if cap.limit == 0 then bufLen
    else if delta < cap.limit then Min(bufLen, cap.limit - delta)
    else 0
  }

  /** Bytes the first k reads of a drain from u0 may return: the sum of the
      buffers they forward. */
  function Forwarded(u0: Upstream, cap: Cap, bufLen: nat, k: nat): nat {
    if k == 0 then 0 else Forwarded(u0, cap, bufLen, k - 1) + Room(u0, cap, bufLen, k - 1)
  }

  /** While every read forwards the whole buffer, k reads may return k full
      buffers. */
  lemma {:induction false} ForwardedFull(u0: Upstream, cap: Cap, bufLen: nat, k: nat)
    requires forall i :: 0 <= i < k ==> Room(u0, cap, bufLen, i) == bufLen
    ensures Forwarded(u0, cap, bufLen, k) == Times(k, bufLen)
  {
    if k > 0 {
      ForwardedFull(u0, cap, bufLen, k - 1);
    }
  }

  /** What a drain that started from u0, with `total` bytes counted so far
      and the body now at u, keeps through every read. */
  ghost predicate DrainKept(u0: Upstream, u: Upstream, cap: Cap, total: nat, bufLen: nat) {
    && u.end == u0.end && u.wire == u0.wire && u.next >= u0.next
    && u.left <= u0.left && total == u0.left - u.left
    // the counter advanced by exactly the wire bytes of the reads made
    && u.counter == u0.counter + WireSum(u0.wire, u0.next, u.next)
    // every body read started below the limit: the delta before the latest one was under it
    && (cap.limit > 0 && u.next > u0.next ==>
          Delta(u0, cap) + WireSum(u0.wire, u0.next, u.next - 1) < cap.limit)
    && (u.next == u0.next ==> u == u0)
    && total <= Times(u.next - u0.next, bufLen)
    // every read but the last consumed at least one decoded byte
    && u.next - u0.next <= total + 1
  }

  /** Between two reads of the drain, besides DrainKept: every read so far
      consumed at least one decoded byte and at most its forwarded buffer;
      while body remains every read returned its whole forwarded buffer, and
      the latest one returned something. */
  ghost predicate DrainInv(u0: Upstream, u: Upstream, cap: Cap, total: nat, bufLen: nat) {
    && DrainKept(u0, u, cap, total, bufLen) && u.next - u0.next <= u0.left - u.left
    && total <= Forwarded(u0, cap, bufLen, u.next - u0.next)
    && (u.left > 0 ==> total == Forwarded(u0, cap, bufLen, u.next - u0.next))
    && (u.next > u0.next ==> Forwarded(u0, cap, bufLen, u.next - u0.next - 1) < total)
  }

  /** Every read of the drain keeps DrainKept: the counter grows by that
      read's wire bytes, a body read is made only below the limit, and the
      read returns at most bufLen bytes. */
  lemma KeptStep(u0: Upstream, u: Upstream, cap: Cap, total: nat, bufLen: nat)
    requires Wired(u, cap) && bufLen >= 1
    requires DrainInv(u0, u, cap, total, bufLen)
    ensures var rep := LimitedRead(u, cap, bufLen);
            DrainKept(u0, rep.after, cap, total + rep.n, bufLen)
  {
    var rep := LimitedRead(u, cap, bufLen);
    if !(cap.limit > 0 && Delta(u, cap) >= cap.limit) {
      var count := u.next - u0.next;
      assert rep.after.next - u0.next == count + 1;
      assert Times(count + 1, bufLen) == Times(count, bufLen) + bufLen;
      assert WireSum(u0.wire, u0.next, u.next + 1)
          == WireSum(u0.wire, u0.next, u.next) + WireAt(u.wire, u.next);
    }
  }

  /** An error-free read forwards the buffer Room gives for it and returns
      all of it, or the rest of the body when less is left. */
  lemma FullStep(u0: Upstream, u: Upstream, cap: Cap, total: nat, bufLen: nat)
    requires Wired(u, cap) && bufLen >= 1
    requires DrainInv(u0, u, cap, total, bufLen)
    ensures var rep := LimitedRead(u, cap, bufLen);
            var k := u.next - u0.next;
            rep.err.None? ==>
              rep.n == Min(Room(u0, cap, bufLen, k), u.left) && rep.after.left == u.left - rep.n
  {
    assert u0.next + (u.next - u0.next) == u.next;
  }

  /** An error-free read keeps DrainInv: it consumed at least one byte, and
      its whole forwarded buffer unless that emptied the body. */
  lemma InvStep(u0: Upstream, u: Upstream, cap: Cap, total: nat, bufLen: nat)
    requires Wired(u, cap) && bufLen >= 1
    requires DrainInv(u0, u, cap, total, bufLen)
    ensures var rep := LimitedRead(u, cap, bufLen);
            rep.err.None? ==> DrainInv(u0, rep.after, cap, total + rep.n, bufLen)
  {
    KeptStep(u0, u, cap, total, bufLen);
    FullStep(u0, u, cap, total, bufLen);
  }

  /** A read that returns an error ends the drain either at the cap (delta at
      or over the limit, nothing read, nothing changed) or at the body's own
      end. */
  lemma EndStep(u: Upstream, cap: Cap, bufLen: nat)
    requires Wired(u, cap) && bufLen >= 1
    ensures var rep := LimitedRead(u, cap, bufLen);
            rep.err.Some? ==>
              || (cap.limit > 0 && Delta(u, cap) >= cap.limit && rep == Reply(0, Some(EOF), u))
              || (u.left == 0 && rep.n == 0 && rep.err == Some(u.end) && rep.after.left == 0
                  && (cap.limit > 0 ==> Delta(u, cap) < cap.limit))
  {
  }

  /** How many reads a finished drain made: either the last one met the
      body's end, after reads that each returned their whole forwarded buffer
      but the last data read; or the stream ended at the cap, after reads that
      each returned their whole forwarded buffer while body remained.  The
      stop rule of DrainKept makes the two exclusive. */
  ghost predicate DrainCount(u0: Upstream, u: Upstream, cap: Cap, total: nat, err: Option<IoError>, bufLen: nat) {
    && u.next >= u0.next
    && var count := u.next - u0.next;
       || (&& count >= 1 && u.left == 0 && err == EndError(u.end)
           && total <= Forwarded(u0, cap, bufLen, count - 1)
           && (count >= 2 ==> Forwarded(u0, cap, bufLen, count - 2) < total))
       || (&& cap.limit > 0 && Delta(u, cap) >= cap.limit && err == None
           && total <= Forwarded(u0, cap, bufLen, count)
           && (count >= 1 ==> Forwarded(u0, cap, bufLen, count - 1) < total)
           && (u.left > 0 ==> total == Forwarded(u0, cap, bufLen, count)))
  }

  /** What a finished drain from u0 guarantees, with the body left at u,
      `total` bytes counted and `err` returned. */
  ghost predicate DrainDone(u0: Upstream, u: Upstream, cap: Cap, total: nat, err: Option<IoError>, bufLen: nat) {
    // the counts of DrainKept: bytes, the counter, no body read at or over the limit
    && DrainKept(u0, u, cap, total, bufLen)
    // io.EOF is success to io.Copy
    && err != Some(EOF)
    // without a limit the reader is transparent: the whole body, then its own end
    && (cap.limit == 0 ==> u.left == 0 && err == EndError(u.end))
    // how many reads the drain made
    && DrainCount(u0, u, cap, total, err, bufLen)
    // the stream ends early only once the delta reaches the limit, and that is no error
    && (u.left > 0 ==> cap.limit > 0 && Delta(u, cap) >= cap.limit && err == None)
    && (cap.limit > 0 && Delta(u, cap) < cap.limit ==> u.left == 0 && err == EndError(u.end))
    // an error the drain returns is the body's own, met at its end
    && (err.Some? ==> u.left == 0 && err == Some(u.end))
    // at or over the limit from the start: nothing is read at all
    && (cap.limit > 0 && Delta(u0, cap) >= cap.limit ==> u == u0 && total == 0 && err == None)
    // an empty body under the limit: the first read meets the body's end
    && (u0.left == 0 && (cap.limit == 0 || Delta(u0, cap) < cap.limit) ==> err == EndError(u0.end))
  }

  /** Before the first read the invariant holds trivially. */
  lemma DrainStart(u0: Upstream, cap: Cap, bufLen: nat)
    ensures DrainInv(u0, u0, cap, 0, bufLen)
  {
  }

  /** The read that returns an error ends the drain in a DrainDone state. */
  lemma DrainFinish(u0: Upstream, u: Upstream, cap: Cap, total: nat, bufLen: nat)
    requires Wired(u, cap) && bufLen >= 1
    requires DrainInv(u0, u, cap, total, bufLen)
    requires LimitedRead(u, cap, bufLen).err.Some?
    ensures var rep := LimitedRead(u, cap, bufLen);
            DrainDone(u0, rep.after, cap, total + rep.n, EndError(rep.err.value), bufLen)
  {
    KeptStep(u0, u, cap, total, bufLen);
    EndStep(u, cap, bufLen);
  }

  /** An uncapped drain reads the body BodyReads times, then once more to
      meet its end. */
  lemma DrainBodyReads(u0: Upstream, u: Upstream, cap: Cap, total: nat, err: Option<IoError>, bufLen: nat)
    requires DrainDone(u0, u, cap, total, err, bufLen)
    requires cap.limit == 0 && bufLen >= 1
    ensures u.next - u0.next == BodyReads(u0.left, bufLen) + 1
  {
    var count := u.next - u0.next;
    ForwardedFull(u0, cap, bufLen, count - 1);
    if count >= 2 {
      ForwardedFull(u0, cap, bufLen, count - 2);
    }
    if u0.left > 0 {
      BodyReadsExact(u0.left, bufLen, count - 1);
    }
  }

  /** The wire bytes of reads from .. to-1 are at least lo each. */
  lemma {:induction false} WireSumAtLeast(w: seq<nat>, from: nat, to: nat, lo: nat)
    requires from <= to && forall i :: from <= i < to ==> lo <= WireAt(w, i)
    ensures Times(to - from, lo) <= WireSum(w, from, to)
  {
    if to > from {
      WireSumAtLeast(w, from, to - 1, lo);
      assert Times(to - from, lo) == Times(to - 1 - from, lo) + lo;
    }
  }

  /** The overshoot of a capped drain: a drain that starts below the limit
      ends with the delta below limit + hi when no read lands more than hi
      wire bytes, since only the last body read can cross the limit. */
  lemma DrainOvershoot(u0: Upstream, u: Upstream, cap: Cap, total: nat, err: Option<IoError>,
                       bufLen: nat, hi: nat)
    requires DrainDone(u0, u, cap, total, err, bufLen)
    requires forall i :: u0.next <= i < |u0.wire| ==> u0.wire[i] <= hi
    requires cap.limit > 0 && Delta(u0, cap) < cap.limit
    ensures Delta(u, cap) < cap.limit + hi
  {
    if u.next > u0.next {
      assert WireAt(u0.wire, u.next - 1) <= hi;
    }
  }

  /** The read count of a capped drain when every read lands at least lo
      wire bytes: reads × lo never exceeds the delta's growth, and the reads
      before the last one stayed under the limit. */
  lemma DrainReads(u0: Upstream, u: Upstream, cap: Cap, total: nat, err: Option<IoError>,
                   bufLen: nat, lo: nat)
    requires DrainDone(u0, u, cap, total, err, bufLen)
    requires forall i :: u0.next <= i < u.next ==> lo <= WireAt(u0.wire, i)
    ensures Times(u.next - u0.next, lo) <= Delta(u, cap) - Delta(u0, cap)
    ensures cap.limit > 0 && u.next > u0.next ==>
              Times(u.next - u0.next - 1, lo) < cap.limit - Delta(u0, cap)
  {
    WireSumAtLeast(u0.wire, u0.next, u.next, lo);
    if u.next > u0.next {
      WireSumAtLeast(u0.wire, u0.next, u.next - 1, lo);
    }
  }

  /** io.Copy(io.Discard, r): reads with a bufLen-byte buffer until the first
      error, counting bytes, and reports io.EOF as success. */
  method Copy(r: NetworkLimitedReader, bufLen: nat) returns (total: nat, err: Option<IoError>)
    requires r.Valid() && bufLen >= 1
    modifies r.reader, r.reader.tap
    ensures r.Valid()
    ensures DrainDone(old(r.reader.State()), r.reader.State(), r.Config(), total, err, bufLen)
  {
    ghost var u0 := r.reader.State();
    ghost var cap := r.Config();
    total := 0;
    DrainStart(u0, cap, bufLen);
    while true
      invariant r.Valid() && r.Config() == cap
      invariant DrainInv(u0, r.reader.State(), cap, total, bufLen)
      decreases r.reader.left
    {
      ghost var before := r.reader.State();
      ghost var counted := total;
      InvStep(u0, before, cap, total, bufLen);
      var readSize, e := r.Read(bufLen);
      total := total + readSize;
      if e.Some? {
        DrainFinish(u0, before, cap, counted, bufLen);
        err := EndError(e.value);
        return;
      }
    }
  }
}
