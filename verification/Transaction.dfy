/**
 Request and response in src/discovery/lib.rs: transaction ids, retries with a doubling timeout, and
 why an accepted reply answers the request it is taken for.
 */
module Transaction {
  import opened Prelude
  import opened MadLayout
  import opened Simulator
  import opened RoundTrip
  import Bitfield
  import opened Search

  // ---- Transaction ids ----

  const TIDS: nat := 0xffff_ffff

  /** The id a counter value stands for: its lower half, with 0 read as 1. */
  function Normal(t: u64): (n: nat)
    ensures 1 <= n <= TIDS
  {
    if t % 0x1_0000_0000 == 0 then 1 else t % 0x1_0000_0000
  }

  /** The k-th id drawn from a counter that starts at `t`. */
  function TidAt(t: u64, k: nat): (n: nat)
    ensures 1 <= n <= TIDS
  {
    (Normal(t) - 1 + k) % TIDS + 1
  }

  /** Ids repeat after exactly 2^32 - 1 draws and not before. */
  lemma TidsDistinct(t: u64, i: nat, j: nat)
    requires i <= j < i + TIDS && TidAt(t, i) == TidAt(t, j)
    ensures i == j
  {
    var a, b := Normal(t) - 1 + i, Normal(t) - 1 + j;
    assert a == a / TIDS * TIDS + a % TIDS && b == b / TIDS * TIDS + b % TIDS;
  }

  lemma TidsRepeat(t: u64, k: nat)
    ensures TidAt(t, k + TIDS) == TidAt(t, k)
  {
    assert (Normal(t) - 1 + k + TIDS) % TIDS == (Normal(t) - 1 + k) % TIDS;
  }

  /** Drawing one id moves the counter to the next. */
  lemma TidStep(t: u64, next: nat, k: nat)
    requires next == if Normal(t) == TIDS then 1 else Normal(t) + 1
    ensures TidAt(t, 0) == Normal(t) && TidAt(next, k) == TidAt(t, k + 1)
  {
    if Normal(t) == TIDS {
      assert (TIDS - 1 + (k + 1)) % TIDS == k % TIDS by { TidsWrap(k); }
    }
  }

  lemma TidsWrap(k: nat)
    ensures (TIDS + k) % TIDS == k % TIDS
  {
  }

  // ---- What a receiver sees of a request's id ----

  lemma BuiltTid(q: Query, hopCnt: byte, tid: u64, agentId: u32, timeout: u32, retries: u32)
    ensures GetTid(BuildDrSmpUmad(q, hopCnt, tid, agentId, timeout, retries)) == tid % 0x1_0000_0000
  {
    ParsedRequest(q, hopCnt, tid, agentId, timeout, retries);
    TidOnWire(tid % 0x1_0000_0000);
  }

  /** The lower half of the id is in bytes 12..16. */
  lemma LowTid(s: seq<byte>)
    requires |s| == 8
    ensures Bitfield.BigEndian(s) % 0x1_0000_0000 == Bitfield.BigEndian(s[4..8])
  {
    var p, t := s[..4], s[4..8];
    assert p + [s[4]] + [s[5]] + [s[6]] + [s[7]] == s;
    assert [] + [s[4]] + [s[5]] + [s[6]] + [s[7]] == t;
    PushFour(p, s[4], s[5], s[6], s[7]);
    PushFour([], s[4], s[5], s[6], s[7]);
    DivModUnique(Bitfield.BigEndian(p), 0x1_0000_0000, Bitfield.BigEndian(t));
  }

  lemma PushFour(p: seq<byte>, a: byte, b: byte, c: byte, d: byte)
    ensures var low := 0x100 * (0x100 * (0x100 * (a as int) + b) + c) + d;
            && 0 <= low < 0x1_0000_0000
            && Bitfield.BigEndian(p + [a] + [b] + [c] + [d]) == Bitfield.BigEndian(p) * 0x1_0000_0000 + low
  {
    hide Bitfield.BigEndian;
    BigEndianPush(p, a);
    BigEndianPush(p + [a], b);
    BigEndianPush(p + [a] + [b], c);
    BigEndianPush(p + [a] + [b] + [c], d);
    FourPushes(Bitfield.BigEndian(p), a, b, c, d);
  }

  lemma FourPushes(h: nat, a: byte, b: byte, c: byte, d: byte)
    ensures var low := 0x100 * (0x100 * (0x100 * (a as int) + b) + c) + d;
            && 0 <= low < 0x1_0000_0000
            && 0x100 * (0x100 * (0x100 * (0x100 * h + a) + b) + c) + d == h * 0x1_0000_0000 + low
  {
  }

  lemma BigEndianPush(s: seq<byte>, b: byte)
    ensures Bitfield.BigEndian(s + [b]) == 0x100 * Bitfield.BigEndian(s) + b
  {
    assert (s + [b])[..|s|] == s;
  }

  // ---- Genuine replies ----

  /** A reply the fabric makes to a request, with the upper half of its id rewritten at will. */
  ghost predicate ReplyTo(f: Image, request: IbUserMad, reply: IbUserMad)
    requires f.Valid() && request.Valid() && reply.Valid()
  {
    var sent := Respond(f, request.ToBytes());
    sent.Some? &&
      var data := IbUserMadFromBytes(sent.value).value.data;
      reply.data[..8] == data[..8] && reply.data[12..] == data[12..]
  }

  /** A reply to the request for `q`, known by its id, carries the true answer and that id. */
  lemma ReplyCarriesAnswer(f: Image, q: Query, hopCnt: byte, tid: u64, agentId: u32, timeout: u32, retries: u32,
                           reply: IbUserMad)
    requires f.Valid() && reply.Valid()
    requires ReplyTo(f, BuildDrSmpUmad(q, hopCnt, tid, agentId, timeout, retries), reply)
    ensures Answer(f, q) == Ok(AttrArea(reply))
    ensures GetTid(reply) % 0x1_0000_0000 == tid % 0x1_0000_0000
  {
    hide Respond, Answer, BuildDrSmpUmad;
    var u := BuildDrSmpUmad(q, hopCnt, tid, agentId, timeout, retries);
    QueryRoundTrip(f, q, hopCnt, tid, agentId, timeout, retries);
    var data := IbUserMadFromBytes(Respond(f, u.ToBytes()).value).value.data;
    SameFrom12(reply.data, data);
    LowTid(reply.data[8..16]);
    LowTid(data[8..16]);
  }

  lemma SameFrom12(x: seq<byte>, y: seq<byte>)
    requires |x| == |y| == 256 && x[12..] == y[12..]
    ensures x[64..128] == y[64..128] && x[8..16][4..8] == y[8..16][4..8]
  {
    assert forall k :: 12 <= k < 256 ==> x[k] == x[12..][k - 12] && y[k] == y[12..][k - 12];
    assert forall k :: 0 <= k < 4 ==> x[8..16][4..8][k] == x[12 + k] && y[8..16][4..8][k] == y[12 + k];
  }

  // ---- Backoff ----

  /** The timeout after `n` doublings in 32-bit arithmetic that wraps. */
  function Backoff(t: u32, n: nat): u32 {
    if n == 0 then t else Doubled(Backoff(t, n - 1))
  }

  /** `t * 2` in 32 bits. */
  function Doubled(t: u32): u32 {
    var wide: int := t;
    2 * wide % 0x1_0000_0000
  }

  lemma {:induction false} BackoffIsShift(t: u32, n: nat)
    ensures Backoff(t, n) == Bitfield.Shl(t, n) % 0x1_0000_0000
  {
    if n > 0 {
      BackoffIsShift(t, n - 1);
      DoubleMod(Bitfield.Shl(t, n - 1));
    }
  }

  lemma DoubleMod(v: nat)
    ensures 2 * (v % 0x1_0000_0000) % 0x1_0000_0000 == 2 * v % 0x1_0000_0000
  {
    var q, r := v / 0x1_0000_0000, v % 0x1_0000_0000;
    DivModUnique(2 * q + (if 2 * r < 0x1_0000_0000 then 0 else 1), 0x1_0000_0000,
                 if 2 * r < 0x1_0000_0000 then 2 * r else 2 * r - 0x1_0000_0000);
  }

  /** The backoff is a plain doubling exactly as long as it fits 32 bits. */
  lemma BackoffExact(t: u32, n: nat)
    ensures Backoff(t, n) == Bitfield.Shl(t, n) <==> Bitfield.Shl(t, n) < 0x1_0000_0000
  {
    BackoffIsShift(t, n);
  }

  lemma {:induction false} ShiftGrows(t: nat, m: nat, n: nat)
    requires m <= n
    ensures Bitfield.Shl(t, m) <= Bitfield.Shl(t, n)
  {
    if m < n { ShiftGrows(t, m, n - 1); }
  }

  lemma BackoffStarts(t: u32)
    ensures Backoff(t, 0) == t == Bitfield.Shl(t, 0)
  {
  }

  lemma BackoffNext(t: u32, n: nat)
    ensures Backoff(t, n + 1) == Doubled(Backoff(t, n))
  {
  }

  const NANOS: nat := 1_000_000

  /** Waiting out one more timeout keeps the total below the next power of two. */
  lemma WaitMore(t: u32, n: nat, last: nat, waited: nat, wait: nat)
    requires n < last && Bitfield.Shl(t, last) < 0x1_0000_0000
    requires waited + NANOS * t <= NANOS * Bitfield.Shl(t, n) && wait <= NANOS * Backoff(t, n)
    ensures waited + wait + NANOS * t <= NANOS * Bitfield.Shl(t, n + 1) <= NANOS * Bitfield.Shl(t, last)
  {
    BackoffExact(t, n);
    ShiftGrows(t, n, last);
    ShiftGrows(t, n + 1, last);
  }

  /** Without overflow the next power is reached by adding the timeout waited out. */
  lemma NextShift(t: u32, n: nat, last: nat)
    requires n < last && Bitfield.Shl(t, last) < 0x1_0000_0000
    ensures Bitfield.Shl(t, n) + Backoff(t, n) == Bitfield.Shl(t, n + 1)
  {
    BackoffExact(t, n);
    ShiftGrows(t, n, last);
  }

  /** One wait for a reply: how long it took, and whether it was counted as a timeout. */
  datatype Wait = Wait(took: nat, counted: bool)

  function TotalWait(waits: seq<Wait>): nat {
    if waits == [] then 0 else TotalWait(waits[..|waits| - 1]) + waits[|waits| - 1].took
  }

  function CountedWaits(waits: seq<Wait>): nat {
    if waits == [] then 0 else CountedWaits(waits[..|waits| - 1]) + if waits[|waits| - 1].counted then 1 else 0
  }

  /** A wait that was counted lasted at least its timeout; a punctual one at most that. */
  ghost predicate WaitsFit(waits: seq<Wait>, timeout: u32, punctual: bool) {
    forall j :: 0 <= j < |waits| ==>
      && (waits[j].counted ==> waits[j].took >= NANOS * Backoff(timeout, j))
      && (punctual ==> waits[j].took <= NANOS * Backoff(timeout, j))
  }

  lemma NoWaits(timeout: u32)
    ensures WaitsFit([], timeout, true) && TotalWait([]) == 0 && CountedWaits([]) == 0
  {
  }

  lemma WaitAdded(waits: seq<Wait>, w: Wait, timeout: u32, punctual: bool, inTime: bool)
    requires WaitsFit(waits, timeout, punctual)
    requires w.counted ==> w.took >= NANOS * Backoff(timeout, |waits|)
    requires inTime ==> w.took <= NANOS * Backoff(timeout, |waits|)
    ensures WaitsFit(waits + [w], timeout, punctual && inTime)
    ensures TotalWait(waits + [w]) == TotalWait(waits) + w.took
    ensures CountedWaits(waits + [w]) == CountedWaits(waits) + if w.counted then 1 else 0
  {
    hide Backoff;
    assert (waits + [w])[..|waits|] == waits;
  }

  // ---- The port ----

  type UserMad = u: IbUserMad | u.Valid() witness BuildUmad(0, 0, 0)

  type Fault = e: ErrorKind | e != TimedOut witness Other

  /** What one `recv` gives. */
  datatype Event = Delivered(reply: UserMad) | NoData | Broken(error: Fault)

  /** ... and how long it takes, in nanoseconds: every receive advances the clock. */
  datatype Receive = Receive(event: Event, extra: nat)
  {
    function Took(): nat { extra + 1 }
  }

  /** The replies delivered in receives [lo, hi) are genuine, and none is out of date. */
  ghost predicate Genuine(f: Image, port: nat -> Receive, lo: nat, hi: nat, issued: seq<UserMad>)
    requires f.Valid()
  {
    forall k: nat :: lo <= k < hi && port(k).event.Delivered? ==> Expected(f, issued, port(k).event.reply)
  }

  /** The reply answers one of the last 2^32 - 1 requests issued. */
  ghost predicate Expected(f: Image, issued: seq<UserMad>, reply: UserMad)
    requires f.Valid()
  {
    exists i :: 0 <= i < |issued| && |issued| - i <= TIDS && ReplyTo(f, issued[i], reply)
  }

  /** Some reply delivered in receives [lo, hi) has the request's id. */
  ghost predicate SomeMatch(request: UserMad, port: nat -> Receive, lo: nat, hi: nat) {
    exists k: nat :: lo <= k < hi && port(k).event.Delivered? && IsTidEqual(request, port(k).event.reply)
  }

  lemma NotBoth(request: UserMad, port: nat -> Receive, lo: nat, hi: nat)
    requires NoMatch(request, port, lo, hi)
    ensures !SomeMatch(request, port, lo, hi)
  {
  }

  /** How many of the receives [lo, hi) failed. */
  function Faults(port: nat -> Receive, lo: nat, hi: nat): nat
    requires lo <= hi
  {
    if lo == hi then 0 else Faults(port, lo, hi - 1) + if port(hi - 1).event.Broken? then 1 else 0
  }

  lemma {:induction false} FaultsAdd(port: nat -> Receive, lo: nat, mid: nat, hi: nat)
    requires lo <= mid <= hi
    ensures Faults(port, lo, hi) == Faults(port, lo, mid) + Faults(port, mid, hi)
  {
    if mid < hi { FaultsAdd(port, lo, mid, hi - 1); }
  }

  /** How many of the receives [lo, hi) had nothing to give. */
  function Silences(port: nat -> Receive, lo: nat, hi: nat): nat
    requires lo <= hi
  {
    if lo == hi then 0 else Silences(port, lo, hi - 1) + if port(hi - 1).event.NoData? then 1 else 0
  }

  lemma {:induction false} SilencesAdd(port: nat -> Receive, lo: nat, mid: nat, hi: nat)
    requires lo <= mid <= hi
    ensures Silences(port, lo, hi) == Silences(port, lo, mid) + Silences(port, mid, hi)
  {
    if mid < hi { SilencesAdd(port, lo, mid, hi - 1); }
  }

  /** No reply delivered in receives [lo, hi) has the request's id. */
  ghost predicate NoMatch(request: UserMad, port: nat -> Receive, lo: nat, hi: nat) {
    forall k: nat :: lo <= k < hi && port(k).event.Delivered? ==> !IsTidEqual(request, port(k).event.reply)
  }

  lemma NoneYet(request: UserMad, port: nat -> Receive, lo: nat)
    ensures NoMatch(request, port, lo, lo) && Faults(port, lo, lo) == 0 && Silences(port, lo, lo) == 0
  {
  }

  lemma NoMatchAdd(request: UserMad, port: nat -> Receive, lo: nat, mid: nat, hi: nat)
    requires lo <= mid <= hi && NoMatch(request, port, lo, mid) && NoMatch(request, port, mid, hi)
    ensures NoMatch(request, port, lo, hi)
  {
  }

  /** How many of these sends failed. */
  function SendFaults(sends: nat -> Option<ErrorKind>, lo: nat, hi: nat): nat
    requires lo <= hi
  {
    if lo == hi then 0 else SendFaults(sends, lo, hi - 1) + if sends(hi - 1).Some? then 1 else 0
  }

  /** With all but the last of them out. */
  lemma {:induction false} SendFaultsAdd(sends: nat -> Option<ErrorKind>, mid: nat, hi: nat)
    requires mid < hi && forall k :: mid <= k < hi - 1 ==> sends(k).None?
    ensures SendFaults(sends, 0, hi) == SendFaults(sends, 0, mid) + if sends(hi - 1).Some? then 1 else 0
  {
    if mid < hi - 1 { SendFaultsAdd(sends, mid, hi - 1); }
  }

  function Got<T>(r: Option<T>): nat {
    if r.Some? then 1 else 0
  }

  /** The fields of the client that requests use. */
  class Requester {
    const agentId: u32
    const timeout: u32
    const retries: u32
    /** The outcome of the k-th send and of the k-th receive. */
    const sends: nat -> Option<ErrorKind>
    const port: nat -> Receive
    /** The fabric behind the port, and the counter's value at the start, for stating what replies mean. */
    ghost const truth: Image
    ghost const firstTid: u64

    var tid: u64
    var madsSent: nat
    var madTimeouts: nat
    var madErrors: nat
    /** Nanoseconds since the start, and how many sends and receives there have been. */
    var clock: nat
    var sendCount: nat
    var receiveCount: nat

    /** Every request issued, what it asked, and what its sender took the answer to be. */
    ghost var issued: seq<UserMad>
    ghost var history: seq<Exchange>
    /** So far every reply delivered answered one of the last 2^32 - 1 requests. */
    ghost var genuine: bool
    /** So far no send failed, and every query with an answer had a reply delivered during its call. */
    ghost var prompt: bool

    constructor (agentId: u32, timeout: u32, retries: u32, tid: u64,
                 sends: nat -> Option<ErrorKind>, port: nat -> Receive,
                 ghost truth: Image)
      requires truth.Valid()
      ensures this.tid == tid && this.port == port && this.sends == sends && this.timeout == timeout
      ensures this.retries == retries
      ensures this.truth == truth && Tracked() && history == [] && genuine && prompt
    {
      this.agentId, this.timeout, this.retries, this.tid := agentId, timeout, retries, tid;
      this.sends, this.port, this.truth, this.firstTid := sends, port, truth, tid;
      madsSent, madTimeouts, madErrors, clock, sendCount, receiveCount := 0, 0, 0, 0, 0, 0;
      issued, history, genuine, prompt := [], [], true, true;
    }

    /** The k-th request carries the k-th id; and as long as replies are genuine, every answer taken is the true one. */
    ghost predicate Tracked()
      reads this`tid, this`issued, this`history, this`genuine, this`prompt
    {
      && truth.Valid() && |issued| == |history|
      && (forall k: nat :: TidAt(tid, k) == TidAt(firstTid, |issued| + k))
      && Logged(issued, history)
      && (genuine ==> Truthful(history, truth))
      && (genuine && prompt ==> Lossless(history, truth))
    }

    /** How many requests have gone out, less the receives that had nothing to give. */
    ghost function Out(): int
      reads this`sendCount, this`receiveCount
    {
      sendCount - SendFaults(sends, 0, sendCount) - Silences(port, 0, receiveCount)
    }

    /** How many sends and receives have failed. */
    ghost function Faulted(): int
      reads this`sendCount, this`receiveCount
    {
      SendFaults(sends, 0, sendCount) + Faults(port, 0, receiveCount)
    }

    /** The former that no timeout was counted for. */
    ghost function Open(): int
      reads this`sendCount, this`receiveCount, this`madTimeouts
    {
      Out() - madTimeouts
    }

    /** The errors counted beyond the latter. */
    ghost function Slips(): int
      reads this`sendCount, this`receiveCount, this`madErrors
    {
      madErrors - Faulted()
    }

    /** The requests are those for the queries of the history, each under its id. */
    ghost predicate Logged(issued: seq<UserMad>, history: seq<Exchange>) {
      && |history| <= |issued|
      && forall i :: 0 <= i < |history| ==> issued[i] == RequestOf(history[i].query, history[i].hopCnt, i)
    }

    lemma LogRequest(issued: seq<UserMad>, history: seq<Exchange>, request: UserMad)
      requires Logged(issued, history)
      ensures Logged(issued + [request], history)
    {
      hide RequestOf;
    }

    lemma LogAnswer(issued: seq<UserMad>, history: seq<Exchange>, x: Exchange)
      requires Logged(issued, history) && |issued| == |history| + 1
      requires issued[|history|] == RequestOf(x.query, x.hopCnt, |history|)
      ensures Logged(issued, history + [x])
    {
      hide RequestOf;
    }

    ghost function RequestOf(q: Query, hopCnt: byte, i: nat): UserMad {
      BuildDrSmpUmad(q, hopCnt, TidAt(firstTid, i), agentId, timeout, retries)
    }

    /** `next_tid` */
    method NextTid() returns (current: u64)
      modifies this`tid
      ensures current == TidAt(old(tid), 0)
      ensures forall k: nat :: TidAt(tid, k) == TidAt(old(tid), k + 1)
    {
      current := tid % 0x1_0000_0000;
      if current == 0 { current := 1; }
      var next := (current + 1) % 0x1_0000_0000;
      if next == 0 { next := 1; }
      forall k: nat ensures TidAt(next, k) == TidAt(tid, k + 1) { TidStep(tid, next, k); }
      TidStep(tid, next, 0);
      tid := next;
    }

    /**
     The inner loop of `send_and_match_with_retries`: receives until the id matches, the time is up or nothing
     comes.
     */
    method AwaitReply(request: UserMad, currentTimeout: u32) returns (r: Option<UserMad>, ghost punctual: bool)
      modifies this`madTimeouts, this`madErrors, this`clock, this`receiveCount
      ensures receiveCount >= old(receiveCount) && clock >= old(clock)
      ensures r.Some? ==> IsTidEqual(request, r.value)
      ensures r.Some? ==> receiveCount > old(receiveCount) && port(receiveCount - 1).event == Delivered(r.value)
      ensures NoMatch(request, port, old(receiveCount), receiveCount - (if r.Some? then 1 else 0))
      ensures punctual ==> clock <= old(clock) + NANOS * currentTimeout
      ensures currentTimeout > 0 ==> receiveCount > old(receiveCount)
      // no reply: the time was up, which is counted, or a receive had nothing to give, which is not
      ensures madTimeouts + Silences(port, old(receiveCount), receiveCount) + Got(r) == old(madTimeouts) + 1
      ensures madTimeouts >= old(madTimeouts)
      ensures madTimeouts > old(madTimeouts) ==> clock >= old(clock) + NANOS * currentTimeout
      ensures madErrors == old(madErrors) + Faults(port, old(receiveCount), receiveCount)
    {
      var deadline := clock + NANOS * currentTimeout;
      punctual := true;
      while true
        invariant receiveCount >= old(receiveCount) && clock >= old(clock)
        invariant NoMatch(request, port, old(receiveCount), receiveCount)
        invariant punctual ==> clock <= deadline
        invariant receiveCount == old(receiveCount) ==> clock == old(clock)
        invariant madTimeouts == old(madTimeouts) && Silences(port, old(receiveCount), receiveCount) == 0
        invariant madErrors == old(madErrors) + Faults(port, old(receiveCount), receiveCount)
        decreases deadline - clock
      {
        if clock >= deadline {
          madTimeouts := madTimeouts + 1;
          return None, punctual;
        }
        var got := port(receiveCount);
        punctual := punctual && got.Took() <= deadline - clock;
        receiveCount, clock := receiveCount + 1, clock + got.Took();
        match got.event {
          case Delivered(reply) =>
            if IsTidEqual(request, reply) { return Some(reply), punctual; }
          case NoData =>
            return None, punctual;
          case Broken(error) =>
            madErrors := madErrors + 1;
        }
      }
    }

    /** One attempt: the send, and the wait for its reply unless the send failed. */
    method Attempt(request: UserMad, currentTimeout: u32, first: bool)
      returns (failure: Option<ErrorKind>, r: Option<UserMad>, ghost punctual: bool)
      modifies this`madTimeouts, this`madErrors, this`madsSent, this`clock, this`receiveCount, this`sendCount
      ensures sendCount == old(sendCount) + 1 && failure == sends(old(sendCount))
      ensures receiveCount >= old(receiveCount) && clock >= old(clock)
      ensures madTimeouts + Silences(port, old(receiveCount), receiveCount) + Got(r)
           == old(madTimeouts) + if failure.Some? then 0 else 1
      ensures failure.Some? ==>
        r.None? && receiveCount == old(receiveCount) && clock == old(clock) && madsSent == old(madsSent)
      ensures failure.None? ==> madsSent == old(madsSent) + if first then 1 else 0
      ensures madErrors == old(madErrors) + Faults(port, old(receiveCount), receiveCount)
                             + if failure.Some? then 1 else 0
      ensures r.Some? ==> IsTidEqual(request, r.value)
      ensures r.Some? ==> receiveCount > old(receiveCount) && port(receiveCount - 1).event == Delivered(r.value)
      ensures NoMatch(request, port, old(receiveCount), receiveCount - (if r.Some? then 1 else 0))
      ensures punctual ==> clock <= old(clock) + NANOS * currentTimeout
      ensures madTimeouts >= old(madTimeouts)
      ensures madTimeouts > old(madTimeouts) ==> clock >= old(clock) + NANOS * currentTimeout
      ensures failure.None? && currentTimeout > 0 ==> receiveCount > old(receiveCount)
    {
      failure, r, punctual := sends(sendCount), None, true;
      sendCount := sendCount + 1;
      if failure.Some? {
        madErrors := madErrors + 1;
        return;
      }
      if first { madsSent := madsSent + 1; }
      r, punctual := AwaitReply(request, currentTimeout);
    }

    /** `send_and_match_with_retries` */
    method SendAndMatchWithRetries(request: UserMad)
      returns (r: Result<UserMad>, ghost punctual: bool, ghost waits: seq<Wait>)
      modifies this`madTimeouts, this`madErrors, this`madsSent, this`clock, this`receiveCount, this`sendCount
      // a reply accepted is the first one delivered in this call whose id matches
      ensures r.Ok? ==> IsTidEqual(request, r.value)
      ensures r.Ok? ==> receiveCount > old(receiveCount) && port(receiveCount - 1).event == Delivered(r.value)
      ensures NoMatch(request, port, old(receiveCount), receiveCount - (if r.Ok? then 1 else 0))
      ensures timeout > 0 && sends(old(sendCount)).None? ==> receiveCount > old(receiveCount)
      // at least one send, at most retries + 1, all but the last successful; one request counted once it is out
      ensures old(sendCount) < sendCount <= old(sendCount) + retries + 1 && receiveCount >= old(receiveCount)
      ensures forall k :: old(sendCount) <= k < sendCount - 1 ==> sends(k).None?
      ensures madsSent == old(madsSent) + (if sends(old(sendCount)).None? then 1 else 0)
      ensures r.Ok? ==> sends(sendCount - 1).None?
      ensures r.Err? ==> match sends(sendCount - 1)
                         case Some(e) => r.error == e
                         case None => r.error == TimedOut && sendCount == old(sendCount) + retries + 1
      // each request that went out ended in a reply, in a receive with nothing to give, or in a timeout counted
      ensures madTimeouts + Silences(port, old(receiveCount), receiveCount) + (if r.Ok? then 1 else 0)
           == old(madTimeouts) + (sendCount - old(sendCount)) - if sends(sendCount - 1).Some? then 1 else 0
      ensures madErrors == old(madErrors) + Faults(port, old(receiveCount), receiveCount)
                             + (if sends(sendCount - 1).Some? then 1 else 0)
      // each request that went out was waited for: a wait that ended in a counted timeout lasted at least its timeout,
      // doubled from wait to wait, and no wait lasted longer if receives respect their deadline
      ensures |waits| == sendCount - old(sendCount) - if sends(sendCount - 1).Some? then 1 else 0
      ensures clock == old(clock) + TotalWait(waits) && madTimeouts == old(madTimeouts) + CountedWaits(waits)
      ensures WaitsFit(waits, timeout, punctual)
      // without overflow, if no receive had nothing to give: at least timeout * (2^n - 1) for n waits without a reply
      ensures Silences(port, old(receiveCount), receiveCount) == 0 ==>
              Bitfield.Shl(timeout, retries + 1) < 0x1_0000_0000 ==>
        clock - old(clock) + NANOS * timeout >= NANOS * Bitfield.Shl(timeout, |waits| - if r.Ok? then 1 else 0)
      // without overflow and with receives that respect their deadline: at most timeout * (2^(retries+1) - 1) waiting
      ensures punctual && Bitfield.Shl(timeout, retries + 1) < 0x1_0000_0000 ==>
        clock - old(clock) + NANOS * timeout <= NANOS * Bitfield.Shl(timeout, retries + 1)
    {
      hide NoMatch, Faults, Silences, WaitsFit, TotalWait, CountedWaits, Backoff, Bitfield.Shl, Doubled, IsTidEqual;
      NoneYet(request, port, receiveCount);
      BackoffStarts(timeout);
      var currentTimeout := timeout;
      punctual, waits := true, [];
      NoWaits(timeout);
      var attempt := 0;
      while attempt <= retries
        invariant 0 <= attempt <= retries + 1
        invariant sendCount == old(sendCount) + attempt && receiveCount >= old(receiveCount)
        invariant forall k :: old(sendCount) <= k < sendCount ==> sends(k).None?
        invariant madsSent == old(madsSent) + (if attempt == 0 then 0 else 1) && clock >= old(clock)
        invariant NoMatch(request, port, old(receiveCount), receiveCount)
        invariant currentTimeout == Backoff(timeout, attempt)
        invariant attempt == 0 || timeout == 0 || receiveCount > old(receiveCount)
        invariant madTimeouts + Silences(port, old(receiveCount), receiveCount) == old(madTimeouts) + attempt
        invariant madErrors == old(madErrors) + Faults(port, old(receiveCount), receiveCount)
        invariant |waits| == attempt && WaitsFit(waits, timeout, punctual)
        invariant clock == old(clock) + TotalWait(waits) && madTimeouts == old(madTimeouts) + CountedWaits(waits)
        invariant Silences(port, old(receiveCount), receiveCount) == 0 ==>
                  Bitfield.Shl(timeout, retries + 1) < 0x1_0000_0000 ==>
          clock - old(clock) + NANOS * timeout >= NANOS * Bitfield.Shl(timeout, attempt)
        invariant punctual && Bitfield.Shl(timeout, retries + 1) < 0x1_0000_0000 ==>
          clock - old(clock) + NANOS * timeout <= NANOS * Bitfield.Shl(timeout, attempt)
      {
        ghost var before, seen, counted := clock, receiveCount, madTimeouts;
        var failure, reply, inTime := Attempt(request, currentTimeout, attempt == 0);
        ShiftGrows(timeout, attempt, retries + 1);
        NoneYet(request, port, seen);
        if failure.Some? { return Err(failure.value), punctual, waits; }
        WaitAdded(waits, Wait(clock - before, madTimeouts > counted), timeout, punctual, inTime);
        waits := waits + [Wait(clock - before, madTimeouts > counted)];
        FaultsAdd(port, old(receiveCount), seen, receiveCount);
        SilencesAdd(port, old(receiveCount), seen, receiveCount);
        NoMatchAdd(request, port, old(receiveCount), seen, receiveCount - (if reply.Some? then 1 else 0));
        punctual := punctual && inTime;
        if punctual && Bitfield.Shl(timeout, retries + 1) < 0x1_0000_0000 {
          WaitMore(timeout, attempt, retries + 1, before - old(clock), clock - before);
        }
        if reply.Some? { return Ok(reply.value), punctual, waits; }
        if Bitfield.Shl(timeout, retries + 1) < 0x1_0000_0000 { NextShift(timeout, attempt, retries + 1); }
        BackoffNext(timeout, attempt);
        currentTimeout := Doubled(currentTimeout);
        attempt := attempt + 1;
      }
      r := Err(TimedOut);
    }

    /** No send [s0, s1) failed, and if the query has an answer a reply came in receives [lo, hi). */
    ghost predicate Prompt(q: Query, request: UserMad, lo: nat, hi: nat, s0: nat, s1: nat)
      requires truth.Valid()
    {
      && (forall k :: s0 <= k < s1 ==> sends(k).None?)
      && (Answer(truth, q).Ok? ==> SomeMatch(request, port, lo, hi))
    }

    function Heard(got: Result<UserMad>): (r: Result<Attr64>)
      ensures r.Ok? <==> got.Ok?
      ensures r.Ok? ==> r.value == AttrArea(got.value)
      ensures r.Err? ==> r.error == got.error
    {
      match got
      case Ok(reply) => Ok(AttrArea(reply))
      case Err(e) => Err(e)
    }

    /** What one call hears is true if the replies were genuine, and all there is to hear if they were prompt. */
    lemma ResultIsTrue(q: Query, hopCnt: byte, c: nat, lo: nat, s0: nat, got: Result<UserMad>)
      requires truth.Valid() && |issued| == c + 1 && |history| == c && issued[c] == RequestOf(q, hopCnt, c)
      requires Logged(issued, history)
      requires s0 < sendCount && Concluded(issued[c], lo, got) && Genuine(truth, port, lo, receiveCount, issued)
      ensures TrueOrMissing(truth, Exchange(q, hopCnt, Heard(got)))
      ensures Heard(got).Ok? || Prompt(q, issued[c], lo, receiveCount, s0, sendCount) ==> Heard(got) == Answer(truth, q)
    {
      hide Genuine, Answer, NoMatch, Prompt, RequestOf, IsTidEqual;
      if got.Ok? {
        AcceptedIsCurrent(q, hopCnt, c, lo, got.value);
      } else if Prompt(q, issued[c], lo, receiveCount, s0, sendCount) {
        Silenced(q, issued[c], lo, receiveCount, s0, sendCount);
      }
    }

    /** The last receive delivered the reply, or there was none with the id. */
    ghost predicate Concluded(request: UserMad, lo: nat, got: Result<UserMad>)
      reads this`receiveCount, this`sendCount
      requires sendCount > 0
    {
      match got
      case Ok(reply) =>
        IsTidEqual(request, reply) && receiveCount > lo && port(receiveCount - 1).event == Delivered(reply)
      case Err(e) => NoMatch(request, port, lo, receiveCount) && e == Cause(sends(sendCount - 1))
    }

    /** A prompt channel leaves a query open only if nobody has an answer. */
    lemma Silenced(q: Query, request: UserMad, lo: nat, hi: nat, s0: nat, s1: nat)
      requires truth.Valid() && s0 < s1 && Prompt(q, request, lo, hi, s0, s1) && NoMatch(request, port, lo, hi)
      ensures sends(s1 - 1).None? && Answer(truth, q).Err?
    {
      hide NoMatch, SomeMatch, Answer;
      NotBoth(request, port, lo, hi);
    }

    /** The next request, under a fresh id. */
    method Compose(q: Query, hopCnt: byte) returns (request: UserMad)
      requires forall k: nat :: TidAt(tid, k) == TidAt(firstTid, |issued| + k)
      modifies this`tid, this`issued
      ensures issued == old(issued) + [request] && request == RequestOf(q, hopCnt, |old(issued)|)
      ensures forall k: nat :: TidAt(tid, k) == TidAt(firstTid, |issued| + k)
    {
      hide TidAt, BuildDrSmpUmad;
      var id := NextTid();
      request := BuildDrSmpUmad(q, hopCnt, id, agentId, timeout, retries);
      issued := issued + [request];
    }

    /** The answer is the attribute area of a reply with the request's id. */
    predicate TakenFrom(request: UserMad, event: Event, answer: Attr64) {
      event.Delivered? && IsTidEqual(request, event.reply) && answer == AttrArea(event.reply)
    }

    /** Why a call fails: its last send did, or the time was up. */
    function Cause(send: Option<ErrorKind>): ErrorKind {
      match send
      case Some(e) => e
      case None => TimedOut
    }

    /** One query: a fresh id, the request, and its reply's attribute area. */
    method Transact(q: Query, hopCnt: byte) returns (r: Result<Attr64>)
      requires Tracked()
      modifies this
      ensures Tracked()
      ensures issued == old(issued) + [RequestOf(q, hopCnt, |old(issued)|)]
      ensures history == old(history) + [Exchange(q, hopCnt, r)]
      ensures genuine == (old(genuine) && Genuine(truth, port, old(receiveCount), receiveCount, issued))
      ensures prompt == (old(prompt) && Prompt(q, issued[|old(issued)|], old(receiveCount), receiveCount,
                                               old(sendCount), sendCount))
      // it waits for the first reply with its id, for one receive at least if the request goes out and there is time
      ensures r.Ok? || (timeout > 0 && sends(old(sendCount)).None?) ==> receiveCount > old(receiveCount)
      ensures NoMatch(issued[|old(issued)|], port, old(receiveCount), receiveCount - (if r.Ok? then 1 else 0))
      ensures r.Ok? ==> TakenFrom(issued[|old(issued)|], port(receiveCount - 1).event, r.value)
      ensures sendCount > old(sendCount) && (r.Err? ==> r.error == Cause(sends(sendCount - 1)))
      ensures madsSent == old(madsSent) + if sends(old(sendCount)).None? then 1 else 0
      // a request that went out and is not counted as timed out, nor met a silence, has been answered
      ensures Open() == old(Open()) + (if r.Ok? then 1 else 0) && Slips() == old(Slips())
      // a reply accepted is the answer to this very query
      ensures Genuine(truth, port, old(receiveCount), receiveCount, issued) && r.Ok? ==> r == Answer(truth, q)
    {
      hide Genuine, RequestOf, TidAt, Answer, IsTidEqual, NoMatch, Faults, Silences, Bitfield.Shl, Truthful, Lossless;
      hide Prompt, Heard, TrueOrMissing, Logged, WaitsFit, TotalWait, CountedWaits;
      ghost var c, lo, s0 := |issued|, receiveCount, sendCount;
      ghost var before := issued;
      var request := Compose(q, hopCnt);
      LogRequest(before, history, request);
      var got, punctual, waits := SendAndMatchWithRetries(request);
      r := Heard(got);
      FaultsAdd(port, 0, lo, receiveCount);
      SilencesAdd(port, 0, lo, receiveCount);
      SendFaultsAdd(sends, s0, sendCount);
      if Genuine(truth, port, lo, receiveCount, issued) { ResultIsTrue(q, hopCnt, c, lo, s0, got); }
      Note(q, hopCnt, r, lo, s0);
    }

    /** The record of a call just made. */
    ghost method Note(q: Query, hopCnt: byte, r: Result<Attr64>, lo: nat, s0: nat)
      requires truth.Valid() && |issued| == |history| + 1 && Logged(issued, history)
      requires forall k: nat :: TidAt(tid, k) == TidAt(firstTid, |issued| + k)
      requires issued[|history|] == RequestOf(q, hopCnt, |history|)
      requires (genuine ==> Truthful(history, truth)) && (genuine && prompt ==> Lossless(history, truth))
      requires Genuine(truth, port, lo, receiveCount, issued) ==> TrueOrMissing(truth, Exchange(q, hopCnt, r))
      requires Genuine(truth, port, lo, receiveCount, issued) ==>
               Prompt(q, issued[|history|], lo, receiveCount, s0, sendCount) ==> r == Answer(truth, q)
      modifies this`history, this`genuine, this`prompt
      ensures Tracked() && history == old(history) + [Exchange(q, hopCnt, r)]
      ensures genuine == (old(genuine) && Genuine(truth, port, lo, receiveCount, issued))
      ensures prompt == (old(prompt) && Prompt(q, issued[|old(history)|], lo, receiveCount, s0, sendCount))
    {
      hide Genuine, RequestOf, TidAt, Answer, Truthful, Lossless, Prompt, TrueOrMissing, Logged;
      OneMoreTold(history, Exchange(q, hopCnt, r), truth);
      LogAnswer(issued, history, Exchange(q, hopCnt, r));
      prompt := prompt && Prompt(q, issued[|history|], lo, receiveCount, s0, sendCount);
      genuine := genuine && Genuine(truth, port, lo, receiveCount, issued);
      history := history + [Exchange(q, hopCnt, r)];
    }

    /** The reply accepted answers the request just issued, because no other recent one has its id. */
    lemma AcceptedIsCurrent(q: Query, hopCnt: byte, c: nat, lo: nat, reply: UserMad)
      requires truth.Valid() && |issued| == c + 1 && |history| == c && issued[c] == RequestOf(q, hopCnt, c)
      requires Logged(issued, history)
      requires receiveCount > lo && port(receiveCount - 1).event == Delivered(reply)
      requires Genuine(truth, port, lo, receiveCount, issued) && IsTidEqual(issued[c], reply)
      ensures Answer(truth, q) == Ok(AttrArea(reply))
    {
      hide BuildDrSmpUmad, TidAt, Answer, GetTid, ReplyTo;
      assert Expected(truth, issued, reply);
      var i :| 0 <= i < |issued| && |issued| - i <= TIDS && ReplyTo(truth, issued[i], reply);
      var qi := if i == c then q else history[i].query;
      var hi := if i == c then hopCnt else history[i].hopCnt;
      ReplyCarriesAnswer(truth, qi, hi, TidAt(firstTid, i), agentId, timeout, retries, reply);
      BuiltTid(q, hopCnt, TidAt(firstTid, c), agentId, timeout, retries);
      SmallMod(TidAt(firstTid, i), 0x1_0000_0000);
      SmallMod(TidAt(firstTid, c), 0x1_0000_0000);
      TidsDistinct(firstTid, i, c);
    }
  }
}
