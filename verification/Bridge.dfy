/**
The transmit path of fstack-bridge/src/bridge.rs: async writers push commands
onto a ring, one driver thread drains the ring, writes to the F-Stack sockets,
parks what a socket does not take and retries it, and closes descriptors that
the stack later reuses for other connections.

The driver's globals are the fields of `Driver`. What the F-Stack library answers
is input: the answers to the writes and reads to come are listed ahead, so each
step is a function of them. A connection is named by its generation; its
`tx_pending` counter is `txPending[generation]`.
*/
module Bridge {
  import opened Wrappers

  type Buf = seq<bv8>

  const TX_CAP: nat := 65536
  const MAX_TX_BYTES: nat := 64 * 1024 * 1024
  const MAX_PENDING_SEND_BYTES: nat := 64 * 1024 * 1024
  const MAX_CONN_PENDING_BYTES: nat := 128 * 1024
  const MAX_EVENTS: nat := 512

  datatype Cmd =
    | Send(fd: int, generation: nat, buf: Buf)
    | Close(fd: int, generation: nat)

  datatype Poll = ReadyOk(written: nat) | ReadyErr | Pending

  datatype WorkerOp = Write(conn: nat, bytes: Buf) | Shutdown(conn: nat)

  datatype Readiness = Eof | Readable | Writable

  /** The answer of `ff_write`: bytes taken, EAGAIN (for more than ten seconds without progress), another error. */
  datatype Answer = Took(n: nat) | TryAgain(stalled: bool) | Broken

  /** What `ff_accept` returns, whether the accept filter lets it pass, and whether its event finds no room. */
  datatype Arrival = Arrival(fd: int, peer: int, admitted: bool, rxFull: bool)

  /** What the kqueue has to report: connections waiting on a listener, or a descriptor. */
  datatype Report = Waiting(arrivals: seq<Arrival>) | On(fd: int, what: Readiness)

  /**
  An entry of a batch. The program only sees the descriptor; `of` is the connection that was open on it when the
  batch was fetched.
  */
  datatype KEvent = Listener(arrivals: seq<Arrival>) | Ready(fd: int, of: nat, what: Readiness)

  /** Why the driver closed a connection. */
  datatype Cause = Requested | PeerGone | WriteFailed | Stalled | OverBudget | RxFull | Misdirected

  function Without<V>(m: map<int, V>, k: int): map<int, V> {
    m - {k}
  }

  function Disarm(s: set<int>, k: int): set<int> {
    s - {k}
  }

  function SatSub(a: nat, b: nat): nat {
    if a >= b then a - b else 0
  }

  // ---- Parked sends of one descriptor ----

  datatype PendingSend = PendingSend(generation: nat, queue: seq<Buf>, bytes: nat) {
    static function New(generation: nat, buf: Buf): PendingSend {
      PendingSend(generation, [buf], |buf|)
    }

    function PushBack(buf: Buf): PendingSend {
      this.(queue := queue + [buf], bytes := bytes + |buf|)
    }

    function PushFront(buf: Buf): PendingSend {
      this.(queue := [buf] + queue, bytes := bytes + |buf|)
    }

    function Pop(): PendingSend
      requires queue != []
    {
      this.(queue := queue[1..], bytes := SatSub(bytes, |queue[0]|))
    }

    ghost predicate Valid() {
      queue != [] && bytes == |Flatten(queue)| && forall i :: 0 <= i < |queue| ==> queue[i] != []
    }
  }

  function Flatten(queue: seq<Buf>): Buf {
    if queue == [] then [] else queue[0] + Flatten(queue[1..])
  }

  lemma {:induction false} FlattenBack(queue: seq<Buf>, buf: Buf)
    ensures Flatten(queue + [buf]) == Flatten(queue) + buf
  {
    if queue == [] {
      assert Flatten([buf]) == buf + Flatten([]) == buf;
      assert queue + [buf] == [buf];
    } else {
      FlattenBack(queue[1..], buf);
      assert (queue + [buf])[1..] == queue[1..] + [buf];
    }
  }

  lemma FlattenFront(queue: seq<Buf>, buf: Buf)
    ensures Flatten([buf] + queue) == buf + Flatten(queue)
  {
    assert ([buf] + queue)[1..] == queue;
  }

  // The sum of the parked bytes over all descriptors.
  ghost function TotalParked(m: map<int, PendingSend>): nat
    decreases |m|
  {
    if exists k :: k in m then
      var k :| k in m;
      m[k].bytes + TotalParked(m - {k})
    else 0
  }

  lemma {:induction false} TotalParkedSplit(m: map<int, PendingSend>, k: int)
    requires k in m
    ensures TotalParked(m) == m[k].bytes + TotalParked(m - {k})
    decreases |m|
  {
    var j :| j in m && TotalParked(m) == m[j].bytes + TotalParked(m - {j});
    if j != k {
      TotalParkedSplit(m - {j}, k);
      TotalParkedSplit(m - {k}, j);
      assert m - {j} - {k} == m - {k} - {j};
    }
  }

  lemma TotalParkedUpdate(m: map<int, PendingSend>, k: int, e: PendingSend)
    ensures TotalParked(m[k := e]) == e.bytes + TotalParked(m - {k})
  {
    TotalParkedSplit(m[k := e], k);
    assert m[k := e] - {k} == m - {k};
  }

  // ---- The command ring ----

  // The bytes of connection `g` still in the ring, in order.
  function RingStream(ring: seq<Cmd>, g: nat): Buf {
    if ring == [] then []
    else (if ring[0].Send? && ring[0].generation == g then ring[0].buf else []) + RingStream(ring[1..], g)
  }

  function RingBytes(ring: seq<Cmd>): nat {
    if ring == [] then 0
    else (if ring[0].Send? then |ring[0].buf| else 0) + RingBytes(ring[1..])
  }

  lemma {:induction false} RingStreamPush(ring: seq<Cmd>, c: Cmd, g: nat)
    ensures RingStream(ring + [c], g) ==
              RingStream(ring, g) + (if c.Send? && c.generation == g then c.buf else [])
  {
    var own := if c.Send? && c.generation == g then c.buf else [];
    if ring == [] {
      assert ring + [c] == [c];
      assert RingStream([c][1..], g) == [];
    } else {
      var first := if ring[0].Send? && ring[0].generation == g then ring[0].buf else [];
      RingStreamPush(ring[1..], c, g);
      assert (ring + [c])[1..] == ring[1..] + [c];
      assert first + (RingStream(ring[1..], g) + own) == first + RingStream(ring[1..], g) + own;
    }
  }

  lemma {:induction false} RingBytesPush(ring: seq<Cmd>, c: Cmd)
    ensures RingBytes(ring + [c]) == RingBytes(ring) + (if c.Send? then |c.buf| else 0)
  {
    if ring == [] {
      assert ring + [c] == [c];
      assert RingBytes([c][1..]) == 0;
    } else {
      RingBytesPush(ring[1..], c);
      assert (ring + [c])[1..] == ring[1..] + [c];
    }
  }

  predicate TxBudgetAvailable(current: nat, amount: nat) {
    amount <= MAX_TX_BYTES && amount <= SatSub(MAX_TX_BYTES, current)
  }

  // ---- Invariants, stated on values ----

  /** The worker's half of a connection: its descriptor and its `tx_pending` counter. */
  datatype Conn = Conn(fd: int, txPending: nat)

  /** What `ff_write` took from a connection and what `poll_write` accepted for it. */
  datatype History = History(wire: Buf, accepted: Buf)

  type Conns = map<nat, Conn>
  type Histories = map<nat, History>

  /** The driver's side of a step: nothing accepted is rewritten, and what was written stays written. */
  ghost predicate Delivers(h: Histories, h': Histories) {
    forall g :: g in h ==> g in h' && h'[g].accepted == h[g].accepted && h[g].wire <= h'[g].wire
  }

  /** The same for one connection, and nothing at all for the others. */
  ghost predicate DeliversFor(g: nat, h: Histories, h': Histories) {
    && h'.Keys == h.Keys
    && forall x :: x in h ==>
         if x == g then h'[x].accepted == h[x].accepted && h[x].wire <= h'[x].wire else h'[x] == h[x]
  }

  /** The workers' side: what was accepted stays accepted, and nothing is written. */
  ghost predicate Accepts(h: Histories, h': Histories) {
    forall g :: g in h ==> g in h' && h[g].accepted <= h'[g].accepted && h'[g].wire == h[g].wire
  }

  /** Both sides together: the accepted and the written bytes of every connection only grow. */
  ghost predicate Grows(h: Histories, h': Histories) {
    forall g :: g in h ==> g in h' && h[g].accepted <= h'[g].accepted && h[g].wire <= h'[g].wire
  }

  lemma GrowsOn(a: Histories, b: Histories, c: Histories)
    requires Grows(a, b) && (Delivers(b, c) || Accepts(b, c) || Grows(b, c))
    ensures Grows(a, c)
  {
  }

  lemma HistoryKept(g: nat, h: Histories)
    ensures DeliversFor(g, h, h)
  {
  }

  lemma DeliversAll(g: nat, a: Histories, b: Histories)
    requires DeliversFor(g, a, b)
    ensures Delivers(a, b)
  {
  }

  /** How often the stack was offered bytes for a descriptor. */
  ghost function TriesOf(tries: map<int, nat>, fd: int): nat {
    if fd in tries then tries[fd] else 0
  }

  ghost function Tried(tries: map<int, nat>, fd: int): map<int, nat> {
    tries[fd := TriesOf(tries, fd) + 1]
  }

  /** No more room to park `buf`. */
  predicate OverLimit(pendingBytes: nat, buf: Buf) {
    pendingBytes + |buf| > MAX_PENDING_SEND_BYTES
  }

  ghost predicate OthersSame<V(!new)>(fd: int, m: map<int, V>, m': map<int, V>) {
    forall f :: f != fd ==> (f in m' <==> f in m) && (f in m ==> m'[f] == m[f])
  }

  ghost predicate RingOk(ring: seq<Cmd>, ringBytes: nat) {
    ringBytes == RingBytes(ring) <= MAX_TX_BYTES && |ring| <= TX_CAP
  }

  ghost predicate ParkedOk(pending: map<int, PendingSend>, pendingBytes: nat) {
    && pendingBytes == TotalParked(pending) <= MAX_PENDING_SEND_BYTES
    && forall fd :: fd in pending ==> pending[fd].Valid()
  }

  /** Everything parked carries the current generation of its open descriptor. */
  ghost predicate ParkedCurrent(pending: map<int, PendingSend>, fdGen: map<int, nat>) {
    forall fd :: fd in pending ==> fd in fdGen && pending[fd].generation == fdGen[fd]
  }

  /** Generations are accept numbers, and an open descriptor belongs to the connection made for it. */
  ghost predicate OwnersOk(fdGen: map<int, nat>, conns: Conns, accepts: nat) {
    && (forall g :: g in conns ==> 1 <= g <= accepts)
    && (forall fd :: fd in fdGen ==> fdGen[fd] in conns && conns[fdGen[fd]].fd == fd)
  }

  /** Every command in the ring names a connection and its descriptor, and was really asked for. */
  ghost predicate CommandsOk(ring: seq<Cmd>, conns: Conns, grounds: set<(nat, Cause)>) {
    forall c :: c in ring ==>
      && c.generation in conns && conns[c.generation].fd == c.fd
      && (c.Send? ==> c.buf != [])
      && (c.Close? ==> (c.generation, Requested) in grounds)
  }

  /** A connection is either open on its descriptor or closed, for a reason of its own. */
  ghost predicate CausesOk(fdGen: map<int, nat>, conns: Conns, closed: map<nat, Cause>, grounds: set<(nat, Cause)>) {
    && (forall g :: g in conns && g !in closed ==> conns[g].fd in fdGen && fdGen[conns[g].fd] == g)
    && (forall fd :: fd in fdGen ==> fdGen[fd] !in closed)
    && (forall g :: g in closed ==> g in conns && (g, closed[g]) in grounds)
  }

  /** The buffers parked for a descriptor, oldest first. */
  ghost function Queued(pending: map<int, PendingSend>, fd: int): seq<Buf> {
    if fd in pending then pending[fd].queue else []
  }

  ghost function Parked(pending: map<int, PendingSend>, fd: int): Buf {
    if fd in pending then Flatten(pending[fd].queue) else []
  }

  /** What the stack took, then what is parked, then what is in the ring is what was accepted. */
  ghost predicate Intact(g: nat, parked: Buf, ring: seq<Cmd>, conns: Conns, hist: Histories) {
    && g in conns && g in hist
    && hist[g].wire + parked + RingStream(ring, g) == hist[g].accepted
    && conns[g].txPending == |parked| + |RingStream(ring, g)|
  }

  ghost predicate StreamsOk(but: set<int>, fdGen: map<int, nat>, pending: map<int, PendingSend>, ring: seq<Cmd>,
                            conns: Conns, hist: Histories)
  {
    forall fd :: fd in fdGen && fd !in but ==> Intact(fdGen[fd], Parked(pending, fd), ring, conns, hist)
  }

  /** Open or closed: the stack saw a prefix, and the counter covers what is still in the ring. */
  ghost predicate PrefixesOk(ring: seq<Cmd>, conns: Conns, hist: Histories) {
    && (forall g :: g in conns ==>
          g in hist && hist[g].wire <= hist[g].accepted && conns[g].txPending >= |RingStream(ring, g)|)
    && (forall g :: g in hist ==> g in conns)
  }

  // ---- What the steps keep ----

  // Connection `g` after `more` bytes of its own were accepted and pushed.
  function Counted(conns: Conns, g: nat, more: nat): Conns
    requires g in conns
  {
    conns[g := conns[g].(txPending := conns[g].txPending + more)]
  }

  ghost function Accepted(hist: Histories, g: nat, more: Buf): Histories
    requires g in hist
  {
    hist[g := hist[g].(accepted := hist[g].accepted + more)]
  }

  lemma GrowIntact(g: nat, parked: Buf, ring: seq<Cmd>, c: Cmd, more: Buf, conns: Conns, hist: Histories)
    requires c.generation in conns && c.generation in hist && more == (if c.Send? then c.buf else [])
    requires Intact(g, parked, ring, conns, hist)
    ensures Intact(g, parked, ring + [c], Counted(conns, c.generation, |more|), Accepted(hist, c.generation, more))
  {
    hide RingStream;
    RingStreamPush(ring, c, g);
  }

  lemma GrowPrefixes(ring: seq<Cmd>, c: Cmd, more: Buf, conns: Conns, hist: Histories)
    requires c.generation in conns && c.generation in hist && more == (if c.Send? then c.buf else [])
    requires PrefixesOk(ring, conns, hist)
    ensures PrefixesOk(ring + [c], Counted(conns, c.generation, |more|), Accepted(hist, c.generation, more))
  {
    hide RingStream;
    forall g: nat {
      RingStreamPush(ring, c, g);
    }
  }

  // The streams and prefixes survive a ring and a history that grew by the same bytes.
  lemma GrowKeeps(ring: seq<Cmd>, c: Cmd, more: Buf, fdGen: map<int, nat>, pending: map<int, PendingSend>,
                  conns: Conns, hist: Histories)
    requires c.generation in conns && c.generation in hist && more == (if c.Send? then c.buf else [])
    requires StreamsOk({}, fdGen, pending, ring, conns, hist) && PrefixesOk(ring, conns, hist)
    ensures var conns' := Counted(conns, c.generation, |more|);
            var hist' := Accepted(hist, c.generation, more);
            StreamsOk({}, fdGen, pending, ring + [c], conns', hist') && PrefixesOk(ring + [c], conns', hist')
  {
    hide Intact, PrefixesOk, RingStream, Parked, Counted, Accepted;
    GrowPrefixes(ring, c, more, conns, hist);
    forall fd | fd in fdGen
      ensures Intact(fdGen[fd], Parked(pending, fd), ring + [c],
                     Counted(conns, c.generation, |more|), Accepted(hist, c.generation, more))
    {
      GrowIntact(fdGen[fd], Parked(pending, fd), ring, c, more, conns, hist);
    }
  }

  lemma PushSendKeeps(conn: nat, buf: Buf, fdGen: map<int, nat>, pending: map<int, PendingSend>, ring: seq<Cmd>,
                      conns: Conns, hist: Histories, grounds: set<(nat, Cause)>)
    requires conn in conns && conn in hist && buf != []
    requires StreamsOk({}, fdGen, pending, ring, conns, hist) && PrefixesOk(ring, conns, hist)
    requires CommandsOk(ring, conns, grounds)
    ensures var ring' := ring + [Send(conns[conn].fd, conn, buf)];
            var conns' := Counted(conns, conn, |buf|);
            var hist' := Accepted(hist, conn, buf);
            && StreamsOk({}, fdGen, pending, ring', conns', hist') && PrefixesOk(ring', conns', hist')
            && CommandsOk(ring', conns', grounds)
  {
    hide StreamsOk, PrefixesOk, RingStream;
    GrowKeeps(ring, Send(conns[conn].fd, conn, buf), buf, fdGen, pending, conns, hist);
  }

  lemma PushCloseKeeps(conn: nat, fdGen: map<int, nat>, pending: map<int, PendingSend>, ring: seq<Cmd>,
                       conns: Conns, hist: Histories, grounds: set<(nat, Cause)>)
    requires conn in conns && conn in hist
    requires StreamsOk({}, fdGen, pending, ring, conns, hist) && PrefixesOk(ring, conns, hist)
    requires CommandsOk(ring, conns, grounds)
    ensures var ring' := ring + [Close(conns[conn].fd, conn)];
            && StreamsOk({}, fdGen, pending, ring', conns, hist) && PrefixesOk(ring', conns, hist)
            && CommandsOk(ring', conns, grounds + {(conn, Requested)})
  {
    hide StreamsOk, PrefixesOk, RingStream;
    assert Counted(conns, conn, 0) == conns;
    assert hist[conn].accepted + [] == hist[conn].accepted;
    assert Accepted(hist, conn, []) == hist;
    GrowKeeps(ring, Close(conns[conn].fd, conn), [], fdGen, pending, conns, hist);
  }

  // ---- Driver steps on one connection `g`, open on `fd` ----

  // Taking a command off the ring: the bytes of its connection are now in the driver's hands.
  lemma PopIntact(g: nat, parked: Buf, ring: seq<Cmd>, conns: Conns, hist: Histories)
    requires ring != [] && Intact(g, parked, ring, conns, hist)
    ensures ring[0].Send? && ring[0].generation == g ==> Intact(g, parked + ring[0].buf, ring[1..], conns, hist)
    ensures !(ring[0].Send? && ring[0].generation == g) ==> Intact(g, parked, ring[1..], conns, hist)
  {
    if ring[0].Send? && ring[0].generation == g {
      assert hist[g].wire + (parked + ring[0].buf) + RingStream(ring[1..], g)
          == hist[g].wire + parked + (ring[0].buf + RingStream(ring[1..], g));
    }
  }

  lemma PopKeeps(fdGen: map<int, nat>, pending: map<int, PendingSend>, ring: seq<Cmd>, conns: Conns, hist: Histories,
                 accepts: nat)
    requires ring != [] && ring[0].generation in conns && conns[ring[0].generation].fd == ring[0].fd
    requires OwnersOk(fdGen, conns, accepts)
    requires StreamsOk({}, fdGen, pending, ring, conns, hist)
    ensures StreamsOk({ring[0].fd}, fdGen, pending, ring[1..], conns, hist)
    ensures ring[0].fd in fdGen ==>
              Intact(fdGen[ring[0].fd],
                     Parked(pending, ring[0].fd) +
                       (if ring[0].Send? && fdGen[ring[0].fd] == ring[0].generation then ring[0].buf else []),
                     ring[1..], conns, hist)
  {
    hide Intact, RingStream, Parked;
    forall fd | fd in fdGen
      ensures Intact(fdGen[fd],
                     Parked(pending, fd) +
                       (if ring[0].Send? && fdGen[fd] == ring[0].generation then ring[0].buf else []),
                     ring[1..], conns, hist)
      ensures fd != ring[0].fd ==> Intact(fdGen[fd], Parked(pending, fd), ring[1..], conns, hist)
    {
      PopIntact(fdGen[fd], Parked(pending, fd), ring, conns, hist);
      assert Parked(pending, fd) + [] == Parked(pending, fd);
    }
  }

  lemma PopPrefixes(ring: seq<Cmd>, conns: Conns, hist: Histories)
    requires ring != [] && PrefixesOk(ring, conns, hist)
    ensures PrefixesOk(ring[1..], conns, hist)
    ensures ring[0].Send? && ring[0].generation in conns ==>
              conns[ring[0].generation].txPending >= |ring[0].buf| + |RingStream(ring[1..], ring[0].generation)|
  {
  }

  function Released(conns: Conns, g: nat, amount: nat): Conns
    requires g in conns && conns[g].txPending >= amount
  {
    conns[g := conns[g].(txPending := conns[g].txPending - amount)]
  }

  ghost function Wired(hist: Histories, g: nat, bytes: Buf): Histories
    requires g in hist
  {
    hist[g := hist[g].(wire := hist[g].wire + bytes)]
  }

  // The stack took the first `n` bytes of a buffer that is next in line.
  lemma WriteIntact(g: nat, buf: Buf, n: nat, parked: Buf, ring: seq<Cmd>, conns: Conns, hist: Histories)
    requires n <= |buf| && Intact(g, buf + parked, ring, conns, hist) && PrefixesOk(ring, conns, hist)
    ensures Intact(g, buf[n..] + parked, ring, Released(conns, g, n), Wired(hist, g, buf[..n]))
    ensures PrefixesOk(ring, Released(conns, g, n), Wired(hist, g, buf[..n]))
  {
    var rest := RingStream(ring, g);
    assert hist[g].wire + (buf + parked) + rest == (hist[g].wire + buf[..n]) + (buf[n..] + parked) + rest;
  }

  // What changes only for the connection open on `fd` keeps the streams of all others.
  lemma OthersKeep(fd: int, fdGen: map<int, nat>, pending: map<int, PendingSend>, ring: seq<Cmd>,
                   conns: Conns, hist: Histories, accepts: nat,
                   pending': map<int, PendingSend>, conns': Conns, hist': Histories)
    requires OwnersOk(fdGen, conns, accepts) && StreamsOk({fd}, fdGen, pending, ring, conns, hist)
    requires forall f :: f != fd ==> (f in pending <==> f in pending') && (f in pending ==> pending'[f] == pending[f])
    requires forall g :: g in conns && conns[g].fd != fd ==> g in conns' && conns'[g] == conns[g]
    requires forall g :: g in conns && g in hist && conns[g].fd != fd ==> g in hist' && hist'[g] == hist[g]
    ensures StreamsOk({fd}, fdGen, pending', ring, conns', hist')
  {
    hide RingStream, Flatten;
    forall f | f in fdGen && f != fd
      ensures Intact(fdGen[f], Parked(pending', f), ring, conns', hist')
    {
      assert Intact(fdGen[f], Parked(pending, f), ring, conns, hist);
    }
  }

  // Dropping what is parked on `fd` gives its bytes back to the counter of its connection.
  lemma DropParked(fd: int, fdGen: map<int, nat>, pending: map<int, PendingSend>, ring: seq<Cmd>,
                   conns: Conns, hist: Histories, accepts: nat, amount: nat)
    requires OwnersOk(fdGen, conns, accepts) && StreamsOk({fd}, fdGen, pending, ring, conns, hist)
    requires PrefixesOk(ring, conns, hist)
    requires fd in fdGen && conns[fdGen[fd]].txPending >= amount + |RingStream(ring, fdGen[fd])|
    ensures StreamsOk({fd}, fdGen, Without(pending, fd), ring, Released(conns, fdGen[fd], amount), hist)
    ensures PrefixesOk(ring, Released(conns, fdGen[fd], amount), hist)
  {
    hide RingStream, Intact, Parked;
    OthersKeep(fd, fdGen, pending, ring, conns, hist, accepts,
               Without(pending, fd), Released(conns, fdGen[fd], amount), hist);
  }

  // A stale send gives its bytes back to the counter of its own, closed connection.
  lemma DropStale(g: nat, amount: nat, fdGen: map<int, nat>, pending: map<int, PendingSend>, ring: seq<Cmd>,
                  conns: Conns, hist: Histories, accepts: nat, closed: map<nat, Cause>, grounds: set<(nat, Cause)>)
    requires g in conns && (forall fd :: fd in fdGen ==> fdGen[fd] != g)
    requires conns[g].txPending >= amount + |RingStream(ring, g)|
    requires OwnersOk(fdGen, conns, accepts) && CommandsOk(ring, conns, grounds)
    requires CausesOk(fdGen, conns, closed, grounds)
    requires StreamsOk({}, fdGen, pending, ring, conns, hist) && PrefixesOk(ring, conns, hist)
    ensures var conns' := Released(conns, g, amount);
            && OwnersOk(fdGen, conns', accepts) && CommandsOk(ring, conns', grounds)
            && CausesOk(fdGen, conns', closed, grounds)
            && StreamsOk({}, fdGen, pending, ring, conns', hist) && PrefixesOk(ring, conns', hist)
  {
    hide RingStream, Parked, OwnersOk, CommandsOk, CausesOk, Intact;
    CounterKeeps(fdGen, ring, conns, accepts, closed, grounds, g, conns[g].txPending - amount);
    forall fd | fd in fdGen
      ensures Intact(fdGen[fd], Parked(pending, fd), ring, Released(conns, g, amount), hist)
    {
      IntactElsewhere(fdGen[fd], Parked(pending, fd), ring, conns, hist, g, amount);
    }
  }

  lemma IntactElsewhere(g: nat, parked: Buf, ring: seq<Cmd>, conns: Conns, hist: Histories, other: nat, amount: nat)
    requires Intact(g, parked, ring, conns, hist) && g != other
    requires other in conns && conns[other].txPending >= amount
    ensures Intact(g, parked, ring, Released(conns, other, amount), hist)
  {
    hide RingStream;
  }

  lemma Settle(fd: int, fdGen: map<int, nat>, pending: map<int, PendingSend>, ring: seq<Cmd>,
               conns: Conns, hist: Histories)
    requires StreamsOk({fd}, fdGen, pending, ring, conns, hist)
    requires fd in fdGen ==> Intact(fdGen[fd], Parked(pending, fd), ring, conns, hist)
    ensures StreamsOk({}, fdGen, pending, ring, conns, hist)
  {
  }

  // ---- The parking lot ----

  function ParkBack(pending: map<int, PendingSend>, fd: int, generation: nat, buf: Buf): map<int, PendingSend> {
    pending[fd := if fd in pending then pending[fd].PushBack(buf) else PendingSend.New(generation, buf)]
  }

  function ParkFront(pending: map<int, PendingSend>, fd: int, generation: nat, buf: Buf): map<int, PendingSend> {
    pending[fd := if fd in pending then pending[fd].PushFront(buf) else PendingSend.New(generation, buf)]
  }

  function PopParked(pending: map<int, PendingSend>, fd: int): map<int, PendingSend>
    requires fd in pending && pending[fd].queue != []
  {
    if |pending[fd].queue| == 1 then Without(pending, fd) else pending[fd := pending[fd].Pop()]
  }

  lemma TotalParkedReplace(pending: map<int, PendingSend>, fd: int, e: PendingSend)
    ensures TotalParked(pending[fd := e]) + (if fd in pending then pending[fd].bytes else 0) ==
              TotalParked(pending) + e.bytes
  {
    TotalParkedUpdate(pending, fd, e);
    if fd in pending {
      TotalParkedSplit(pending, fd);
    } else {
      assert Without(pending, fd) == pending;
    }
  }

  lemma ParkBackKeeps(pending: map<int, PendingSend>, bytes: nat, fd: int, generation: nat, buf: Buf)
    requires ParkedOk(pending, bytes) && buf != [] && bytes + |buf| <= MAX_PENDING_SEND_BYTES
    ensures ParkedOk(ParkBack(pending, fd, generation, buf), bytes + |buf|)
    ensures Parked(ParkBack(pending, fd, generation, buf), fd) == Parked(pending, fd) + buf
  {
    hide TotalParked;
    TotalParkedReplace(pending, fd, ParkBack(pending, fd, generation, buf)[fd]);
    assert [] + [buf] == [buf] + [] == [buf];
    FlattenBack(if fd in pending then pending[fd].queue else [], buf);
  }

  lemma ParkFrontKeeps(pending: map<int, PendingSend>, bytes: nat, fd: int, generation: nat, buf: Buf)
    requires ParkedOk(pending, bytes) && buf != [] && bytes + |buf| <= MAX_PENDING_SEND_BYTES
    ensures ParkedOk(ParkFront(pending, fd, generation, buf), bytes + |buf|)
    ensures Parked(ParkFront(pending, fd, generation, buf), fd) == buf + Parked(pending, fd)
  {
    hide TotalParked;
    TotalParkedReplace(pending, fd, ParkFront(pending, fd, generation, buf)[fd]);
    assert [buf] + [] == [buf];
    FlattenFront(if fd in pending then pending[fd].queue else [], buf);
  }

  lemma PopParkedKeeps(pending: map<int, PendingSend>, bytes: nat, fd: int)
    requires ParkedOk(pending, bytes) && fd in pending
    ensures |pending[fd].queue[0]| <= bytes && |pending[fd].queue[0]| <= pending[fd].bytes && pending[fd].queue[0] != []
    ensures ParkedOk(PopParked(pending, fd), bytes - |pending[fd].queue[0]|)
    ensures Parked(pending, fd) == pending[fd].queue[0] + Parked(PopParked(pending, fd), fd)
  {
    hide TotalParked;
    var e := pending[fd];
    TotalParkedSplit(pending, fd);
    if |e.queue| == 1 {
      assert e.queue[1..] == [];
      assert Flatten(e.queue) == e.queue[0];
    } else {
      TotalParkedReplace(pending, fd, e.Pop());
    }
  }

  lemma ClearKeeps(pending: map<int, PendingSend>, bytes: nat, fd: int)
    requires ParkedOk(pending, bytes)
    ensures |Parked(pending, fd)| <= bytes && ParkedOk(Without(pending, fd), bytes - |Parked(pending, fd)|)
    ensures fd in pending ==> pending[fd].bytes == |Parked(pending, fd)|
  {
    hide TotalParked;
    if fd in pending {
      TotalParkedSplit(pending, fd);
    } else {
      assert Without(pending, fd) == pending;
    }
  }

  // ---- Ownership ----

  // Counters may change freely as far as descriptors, commands and causes are concerned.
  lemma CounterKeeps(fdGen: map<int, nat>, ring: seq<Cmd>, conns: Conns, accepts: nat, closed: map<nat, Cause>,
                     grounds: set<(nat, Cause)>, g: nat, amount: nat)
    requires g in conns
    requires OwnersOk(fdGen, conns, accepts) && CommandsOk(ring, conns, grounds)
    requires CausesOk(fdGen, conns, closed, grounds)
    ensures var conns' := conns[g := conns[g].(txPending := amount)];
            && OwnersOk(fdGen, conns', accepts) && CommandsOk(ring, conns', grounds)
            && CausesOk(fdGen, conns', closed, grounds)
  {
  }

  lemma GroundsGrow(fdGen: map<int, nat>, ring: seq<Cmd>, conns: Conns, closed: map<nat, Cause>,
                    grounds: set<(nat, Cause)>, more: set<(nat, Cause)>)
    requires CommandsOk(ring, conns, grounds) && CausesOk(fdGen, conns, closed, grounds)
    ensures CommandsOk(ring, conns, grounds + more) && CausesOk(fdGen, conns, closed, grounds + more)
  {
  }

  lemma CloseOwners(fd: int, fdGen: map<int, nat>, pending: map<int, PendingSend>, conns: Conns, accepts: nat,
                    closed: map<nat, Cause>, grounds: set<(nat, Cause)>, why: Cause)
    requires fd in fdGen && (fdGen[fd], why) in grounds
    requires OwnersOk(fdGen, conns, accepts) && CausesOk(fdGen, conns, closed, grounds)
    requires ParkedCurrent(pending, fdGen)
    ensures OwnersOk(Without(fdGen, fd), conns, accepts) && ParkedCurrent(Without(pending, fd), Without(fdGen, fd))
    ensures CausesOk(Without(fdGen, fd), conns, closed[fdGen[fd] := why], grounds)
  {
  }

  lemma CloseStreams(fd: int, fdGen: map<int, nat>, pending: map<int, PendingSend>, ring: seq<Cmd>,
                     conns: Conns, hist: Histories)
    requires StreamsOk({fd}, fdGen, pending, ring, conns, hist)
    ensures StreamsOk({}, Without(fdGen, fd), Without(pending, fd), ring, conns, hist)
  {
    hide Intact;
    forall f | f in Without(fdGen, fd)
      ensures Intact(fdGen[f], Parked(Without(pending, fd), f), ring, conns, hist)
    {
      assert Intact(fdGen[f], Parked(pending, f), ring, conns, hist);
    }
  }

  lemma AcceptOwners(fd: int, fdGen: map<int, nat>, pending: map<int, PendingSend>, ring: seq<Cmd>, conns: Conns,
                     accepts: nat, closed: map<nat, Cause>, grounds: set<(nat, Cause)>)
    requires fd !in fdGen
    requires OwnersOk(fdGen, conns, accepts) && CommandsOk(ring, conns, grounds) && ParkedCurrent(pending, fdGen)
    requires CausesOk(fdGen, conns, closed, grounds)
    ensures var g := accepts + 1;
            var fdGen' := fdGen[fd := g];
            var conns' := conns[g := Conn(fd, 0)];
            && OwnersOk(fdGen', conns', g) && CommandsOk(ring, conns', grounds) && ParkedCurrent(pending, fdGen')
            && CausesOk(fdGen', conns', closed, grounds)
  {
  }

  lemma AcceptStreams(fd: int, fdGen: map<int, nat>, pending: map<int, PendingSend>, ring: seq<Cmd>, conns: Conns,
                      hist: Histories, g: nat)
    requires fd !in fdGen && fd !in pending && g !in conns && RingStream(ring, g) == []
    requires StreamsOk({}, fdGen, pending, ring, conns, hist) && PrefixesOk(ring, conns, hist)
    ensures var conns' := conns[g := Conn(fd, 0)];
            var hist' := hist[g := History([], [])];
            StreamsOk({}, fdGen[fd := g], pending, ring, conns', hist') && PrefixesOk(ring, conns', hist')
  {
    hide RingStream, Flatten;
    forall f | f in fdGen
      ensures Intact(fdGen[f], Parked(pending, f), ring, conns[g := Conn(fd, 0)], hist[g := History([], [])])
    {
      assert Intact(fdGen[f], Parked(pending, f), ring, conns, hist);
    }
  }

  // Closing `fd`: the connection's parked bytes are dropped, everything else stays as it was.
  lemma CloseKeeps(fd: int, fdGen: map<int, nat>, pending: map<int, PendingSend>, ring: seq<Cmd>, conns: Conns,
                   hist: Histories, accepts: nat, closed: map<nat, Cause>, grounds: set<(nat, Cause)>,
                   why: Cause, dropped: nat)
    requires fd in fdGen && (fdGen[fd], why) in grounds && fdGen[fd] in conns
    requires conns[fdGen[fd]].txPending >= dropped + |RingStream(ring, fdGen[fd])|
    requires OwnersOk(fdGen, conns, accepts) && CommandsOk(ring, conns, grounds) && ParkedCurrent(pending, fdGen)
    requires CausesOk(fdGen, conns, closed, grounds)
    requires StreamsOk({fd}, fdGen, pending, ring, conns, hist) && PrefixesOk(ring, conns, hist)
    ensures var conns' := Released(conns, fdGen[fd], dropped);
            && OwnersOk(Without(fdGen, fd), conns', accepts) && CommandsOk(ring, conns', grounds)
            && ParkedCurrent(Without(pending, fd), Without(fdGen, fd))
            && CausesOk(Without(fdGen, fd), conns', closed[fdGen[fd] := why], grounds)
            && StreamsOk({}, Without(fdGen, fd), Without(pending, fd), ring, conns', hist)
            && PrefixesOk(ring, conns', hist)
  {
    hide CommandsOk, CausesOk, OwnersOk, ParkedCurrent, Intact, StreamsOk, PrefixesOk, RingStream, Parked;
    var g := fdGen[fd];
    DropParked(fd, fdGen, pending, ring, conns, hist, accepts, dropped);
    CounterKeeps(fdGen, ring, conns, accepts, closed, grounds, g, conns[g].txPending - dropped);
    CloseOwners(fd, fdGen, pending, Released(conns, g, dropped), accepts, closed, grounds, why);
    CloseStreams(fd, fdGen, Without(pending, fd), ring, Released(conns, g, dropped), hist);
    assert Without(Without(pending, fd), fd) == Without(pending, fd);
  }

  lemma WithoutKeys<V, W>(m: map<int, V>, m': map<int, W>, k: int)
    requires m.Keys == m'.Keys && k in m
    ensures Without(m, k).Keys == Without(m', k).Keys && |Without(m, k).Keys| == |m.Keys| - 1
  {
    assert Without(m, k).Keys == m.Keys - {k};
    assert Without(m', k).Keys == m'.Keys - {k};
  }

  // Deleting a write filter twice is deleting it once.
  lemma Disarmed(armed: set<int>, pending: map<int, PendingSend>, fd: int)
    requires armed - {fd} == pending.Keys - {fd}
    ensures Disarm(armed, fd) == Without(pending, fd).Keys
    ensures Disarm(Disarm(armed, fd), fd) == Without(pending, fd).Keys
  {
  }

  // A generation nobody holds has no bytes in the ring.
  lemma {:induction false} NoBytes(ring: seq<Cmd>, conns: Conns, grounds: set<(nat, Cause)>, g: nat)
    requires CommandsOk(ring, conns, grounds) && g !in conns
    ensures RingStream(ring, g) == []
  {
    if ring != [] {
      assert ring[0] in ring;
      assert CommandsOk(ring[1..], conns, grounds) by {
        forall c | c in ring[1..] ensures c in ring {}
      }
      NoBytes(ring[1..], conns, grounds, g);
    }
  }

  lemma HasHistory(g: nat, ring: seq<Cmd>, conns: Conns, hist: Histories)
    requires PrefixesOk(ring, conns, hist) && g in conns
    ensures g in hist
  {
  }

  /** Every admission is live, under the same generation on both sides, or was released. */
  ghost predicate Registered(owner: map<int, nat>, fdGen: map<int, nat>, peers: map<int, int>, released: nat,
                             accepts: nat)
  {
    owner == fdGen && peers.Keys == fdGen.Keys && released + |fdGen.Keys| == accepts
  }

  // ---- All of it together ----

  datatype State = State(
    ring: seq<Cmd>, ringBytes: nat, conns: Conns,
    pending: map<int, PendingSend>, pendingBytes: nat, fdGen: map<int, nat>, accepts: nat,
    hist: Histories, grounds: set<(nat, Cause)>, closed: map<nat, Cause>)

  /** The invariant, but for the byte streams of the descriptors in `but`. */
  ghost predicate Sound(s: State, but: set<int>) {
    && RingOk(s.ring, s.ringBytes)
    && ParkedOk(s.pending, s.pendingBytes) && ParkedCurrent(s.pending, s.fdGen)
    && OwnersOk(s.fdGen, s.conns, s.accepts) && CommandsOk(s.ring, s.conns, s.grounds)
    && CausesOk(s.fdGen, s.conns, s.closed, s.grounds)
    && StreamsOk(but, s.fdGen, s.pending, s.ring, s.conns, s.hist) && PrefixesOk(s.ring, s.conns, s.hist)
  }

  ghost predicate CanClose(s: State, fd: int, why: Cause) {
    && fd in s.fdGen && s.fdGen[fd] in s.conns && (s.fdGen[fd], why) in s.grounds
    && s.conns[s.fdGen[fd]].txPending >= |Parked(s.pending, fd)| + |RingStream(s.ring, s.fdGen[fd])|
  }

  ghost function Closed(s: State, fd: int, why: Cause): State
    requires CanClose(s, fd, why)
  {
    var g := s.fdGen[fd];
    s.(fdGen := Without(s.fdGen, fd), closed := s.closed[g := why],
       pending := Without(s.pending, fd), pendingBytes := SatSub(s.pendingBytes, |Parked(s.pending, fd)|),
       conns := Released(s.conns, g, |Parked(s.pending, fd)|))
  }

  lemma CloseSound(s: State, fd: int, why: Cause)
    requires Sound(s, {fd}) && CanClose(s, fd, why)
    ensures Sound(Closed(s, fd, why), {})
    ensures Closed(s, fd, why).conns.Keys == s.conns.Keys
    ensures ParkedOk(s.pending, s.pendingBytes) && (fd in s.pending ==> s.pending[fd].generation == s.fdGen[fd])
  {
    hide CommandsOk, CausesOk, OwnersOk, Intact, StreamsOk, PrefixesOk, RingStream, Parked;
    CloseKeeps(fd, s.fdGen, s.pending, s.ring, s.conns, s.hist, s.accepts, s.closed, s.grounds, why,
               |Parked(s.pending, fd)|);
    ClearKeeps(s.pending, s.pendingBytes, fd);
  }

  lemma CloseUnparked(s: State, fd: int, why: Cause)
    requires CanClose(s, fd, why) && fd !in s.pending
    ensures Closed(s, fd, why) ==
              s.(fdGen := Without(s.fdGen, fd), closed := s.closed[s.fdGen[fd] := why])
    ensures Without(s.pending, fd) == s.pending
  {
    assert Without(s.pending, fd) == s.pending;
    assert Released(s.conns, s.fdGen[fd], 0) == s.conns;
  }

  // ---- Bytes in the driver's hands ----

  // What remains of a buffer after `ff_write` answered.
  ghost function Left(buf: Buf, a: Answer): Buf
    requires a.Took? ==> a.n <= |buf|
  {
    if a.Took? then buf[a.n..] else buf
  }

  /**
  The driver is serving the connection open on `fd`: `line` is everything of it between the stack and
  the ring, in order, wherever the driver keeps it at the moment.
  */
  ghost predicate Holding(s: State, fd: int, line: Buf) {
    Sound(s, {fd}) && fd in s.fdGen && Intact(s.fdGen[fd], line, s.ring, s.conns, s.hist)
  }

  ghost function Popped(s: State): State
    requires s.ring != []
  {
    s.(ring := s.ring[1..], ringBytes := SatSub(s.ringBytes, if s.ring[0].Send? then |s.ring[0].buf| else 0))
  }

  predicate Live(c: Cmd, fdGen: map<int, nat>) {
    c.fd in fdGen && fdGen[c.fd] == c.generation
  }

  lemma LiveMeans(c: Cmd, fdGen: map<int, nat>)
    ensures Live(c, fdGen) <==> c.fd in fdGen && fdGen[c.fd] == c.generation
  {
  }

  // A command leaves the ring: a live send is now held, behind what is parked.
  lemma PopSound(s: State)
    requires s.ring != [] && Sound(s, {})
    ensures var c := s.ring[0];
            && c.generation in s.conns && (c.Send? ==> c.buf != [])
            && (c.Send? && Live(c, s.fdGen) ==> Holding(Popped(s), c.fd, Parked(s.pending, c.fd) + c.buf))
            && (!(c.Send? && Live(c, s.fdGen)) ==> Sound(Popped(s), {}))
            && (c.Close? ==> (c.generation, Requested) in s.grounds)
            && (c.Send? ==> s.conns[c.generation].txPending >= |c.buf| + |RingStream(Popped(s).ring, c.generation)|)
            && s.conns[c.generation].fd == c.fd
  {
    hide ParkedOk, ParkedCurrent, CausesOk, Intact, RingStream, Parked, PrefixesOk;
    var c := s.ring[0];
    assert c in s.ring;
    PopKeeps(s.fdGen, s.pending, s.ring, s.conns, s.hist, s.accepts);
    PopPrefixes(s.ring, s.conns, s.hist);
    assert CommandsOk(s.ring[1..], s.conns, s.grounds) by {
      forall d | d in s.ring[1..] ensures d in s.ring {}
    }
    if !(c.Send? && Live(c, s.fdGen)) {
      assert Parked(s.pending, c.fd) + [] == Parked(s.pending, c.fd);
      Settle(c.fd, s.fdGen, s.pending, s.ring[1..], s.conns, s.hist);
    }
  }

  ghost function TookFrom(s: State, fd: int, bytes: Buf): State
    requires fd in s.fdGen && s.fdGen[fd] in s.conns && s.fdGen[fd] in s.hist
    requires s.conns[s.fdGen[fd]].txPending >= |bytes|
  {
    s.(conns := Released(s.conns, s.fdGen[fd], |bytes|), hist := Wired(s.hist, s.fdGen[fd], bytes))
  }

  lemma TakeHolding(s: State, fd: int, buf: Buf, n: nat, rest: Buf)
    requires Holding(s, fd, buf + rest) && n <= |buf|
    ensures fd in s.fdGen && s.fdGen[fd] in s.conns && s.fdGen[fd] in s.hist
    ensures s.conns[s.fdGen[fd]].txPending >= n
    ensures Holding(TookFrom(s, fd, buf[..n]), fd, buf[n..] + rest)
    ensures TookFrom(s, fd, buf[..n]).conns.Keys == s.conns.Keys
  {
    hide RingOk, ParkedOk, ParkedCurrent, CommandsOk, CausesOk, StreamsOk, PrefixesOk, RingStream, Parked;
    var g := s.fdGen[fd];
    WriteIntact(g, buf, n, rest, s.ring, s.conns, s.hist);
    CounterKeeps(s.fdGen, s.ring, s.conns, s.accepts, s.closed, s.grounds, g, s.conns[g].txPending - n);
    OthersKeep(fd, s.fdGen, s.pending, s.ring, s.conns, s.hist, s.accepts,
               s.pending, Released(s.conns, g, n), Wired(s.hist, g, buf[..n]));
  }

  // Rearranging the parking lot of `fd` does not touch the line.
  lemma ParkHolding(s: State, fd: int, line: Buf, pending': map<int, PendingSend>, bytes': nat)
    requires Holding(s, fd, line)
    requires ParkedOk(pending', bytes') && ParkedCurrent(pending', s.fdGen)
    requires forall f :: f != fd ==>
               (f in s.pending <==> f in pending') && (f in s.pending ==> pending'[f] == s.pending[f])
    ensures Holding(s.(pending := pending', pendingBytes := bytes'), fd, line)
  {
    hide RingOk, ParkedOk, ParkedCurrent, CommandsOk, CausesOk, StreamsOk, PrefixesOk, RingStream, Parked;
    OthersKeep(fd, s.fdGen, s.pending, s.ring, s.conns, s.hist, s.accepts, pending', s.conns, s.hist);
  }

  lemma HoldParked(s: State, fd: int)
    requires Sound(s, {}) && fd in s.fdGen
    ensures Holding(s, fd, Parked(s.pending, fd))
  {
    hide RingOk, ParkedOk, ParkedCurrent, OwnersOk, CommandsOk, CausesOk, PrefixesOk, RingStream, Parked, Intact;
  }

  lemma SettleHolding(s: State, fd: int)
    requires Holding(s, fd, Parked(s.pending, fd))
    ensures Sound(s, {})
  {
    hide RingOk, ParkedOk, ParkedCurrent, OwnersOk, CommandsOk, CausesOk, PrefixesOk, RingStream, Parked;
    Settle(fd, s.fdGen, s.pending, s.ring, s.conns, s.hist);
  }

  // Whatever is held can be given up by closing.
  lemma HoldingCanClose(s: State, fd: int, line: Buf, why: Cause)
    requires Holding(s, fd, line) && |Parked(s.pending, fd)| <= |line| && (s.fdGen[fd], why) in s.grounds
    ensures Sound(s, {fd}) && CanClose(s, fd, why)
  {
    hide RingOk, ParkedOk, ParkedCurrent, OwnersOk, CommandsOk, CausesOk, StreamsOk, PrefixesOk, RingStream, Parked;
  }

  lemma SoundParts(s: State, fd: int)
    requires Sound(s, {})
    ensures ParkedOk(s.pending, s.pendingBytes) && ParkedCurrent(s.pending, s.fdGen)
    ensures fd in s.pending ==> fd in s.fdGen
    ensures fd in s.fdGen ==> s.fdGen[fd] in s.conns && s.fdGen[fd] <= s.accepts
  {
    hide RingOk, ParkedOk, CommandsOk, CausesOk, StreamsOk, PrefixesOk;
  }

  // An open connection can be closed for any reason that was observed.
  lemma OpenCanClose(s: State, fd: int, why: Cause)
    requires Sound(s, {}) && fd in s.fdGen && (s.fdGen[fd], why) in s.grounds
    ensures Sound(s, {fd}) && CanClose(s, fd, why)
  {
    hide Sound, Holding, CanClose, RingStream, Parked;
    HoldParked(s, fd);
    HoldingCanClose(s, fd, Parked(s.pending, fd), why);
  }

  lemma ObserveSound(s: State, more: set<(nat, Cause)>)
    requires Sound(s, {})
    ensures Sound(s.(grounds := s.grounds + more), {})
  {
    hide RingOk, ParkedOk, ParkedCurrent, OwnersOk, CommandsOk, CausesOk, StreamsOk, PrefixesOk;
    GroundsGrow(s.fdGen, s.ring, s.conns, s.closed, s.grounds, more);
  }

  lemma HoldingParts(s: State, fd: int, line: Buf)
    requires Holding(s, fd, line)
    ensures ParkedOk(s.pending, s.pendingBytes) && ParkedCurrent(s.pending, s.fdGen)
    ensures fd in s.fdGen && s.fdGen[fd] in s.conns && s.fdGen[fd] in s.hist && s.conns[s.fdGen[fd]].fd == fd
  {
    hide RingOk, ParkedOk, ParkedCurrent, CommandsOk, CausesOk, StreamsOk, PrefixesOk, RingStream, Parked;
  }

  // A buffer in hand is lost with its connection.
  lemma LoseHolding(s: State, fd: int, buf: Buf, why: Cause)
    requires Holding(s, fd, buf + Parked(s.pending, fd)) && (s.fdGen[fd], why) in s.grounds
    ensures s.fdGen[fd] in s.conns && s.conns[s.fdGen[fd]].txPending >= |buf|
    ensures var s' := s.(conns := Released(s.conns, s.fdGen[fd], |buf|));
            Sound(s', {fd}) && CanClose(s', fd, why) && s'.conns.Keys == s.conns.Keys
  {
    hide RingOk, ParkedOk, ParkedCurrent, CommandsOk, CausesOk, StreamsOk, RingStream, Parked;
    var g := s.fdGen[fd];
    CounterKeeps(s.fdGen, s.ring, s.conns, s.accepts, s.closed, s.grounds, g, s.conns[g].txPending - |buf|);
    OthersKeep(fd, s.fdGen, s.pending, s.ring, s.conns, s.hist, s.accepts,
               s.pending, Released(s.conns, g, |buf|), s.hist);
  }

  lemma GroundsHolding(s: State, fd: int, line: Buf, more: set<(nat, Cause)>)
    requires Holding(s, fd, line)
    ensures Holding(s.(grounds := s.grounds + more), fd, line)
  {
    hide RingOk, ParkedOk, ParkedCurrent, OwnersOk, CommandsOk, CausesOk, StreamsOk, PrefixesOk, RingStream, Parked;
    GroundsGrow(s.fdGen, s.ring, s.conns, s.closed, s.grounds, more);
  }

  lemma StaleSound(s: State, g: nat, amount: nat)
    requires Sound(s, {}) && g in s.conns && !(s.conns[g].fd in s.fdGen && s.fdGen[s.conns[g].fd] == g)
    requires s.conns[g].txPending >= amount + |RingStream(s.ring, g)|
    ensures Sound(s.(conns := Released(s.conns, g, amount)), {})
    ensures Released(s.conns, g, amount).Keys == s.conns.Keys
  {
    hide RingOk, ParkedOk, ParkedCurrent, CommandsOk, CausesOk, StreamsOk, PrefixesOk, RingStream, Parked;
    DropStale(g, amount, s.fdGen, s.pending, s.ring, s.conns, s.hist, s.accepts, s.closed, s.grounds);
  }

  lemma GrowsFromHere(h: Histories)
    ensures Grows(h, h)
  {
  }

  lemma FlushGrows(a: Histories, b: Histories, c: Histories, fd: int, owners: map<int, nat>)
    requires Grows(a, b) && (b == c || (fd in owners && DeliversFor(owners[fd], b, c)))
    ensures Grows(a, c)
  {
    hide DeliversFor, Delivers;
    if b != c {
      DeliversAll(owners[fd], b, c);
      GrowsOn(a, b, c);
    }
  }

  // What the steps on `fd` do to its parked bytes does not show on any other descriptor.
  lemma OnlyHere(fd: int, pending: map<int, PendingSend>, generation: nat, buf: Buf)
    ensures OthersSame<PendingSend>(fd, pending, pending)
    ensures OthersSame<PendingSend>(fd, pending, Without(pending, fd))
    ensures OthersSame<PendingSend>(fd, pending, ParkBack(pending, fd, generation, buf))
    ensures OthersSame<PendingSend>(fd, pending, ParkFront(pending, fd, generation, buf))
    ensures Queued(Without(pending, fd), fd) == []
    ensures Queued(ParkBack(pending, fd, generation, buf), fd) == Queued(pending, fd) + [buf]
    ensures Queued(ParkFront(pending, fd, generation, buf), fd) == [buf] + Queued(pending, fd)
  {
  }

  lemma OthersOn<V(!new)>(fd: int, a: map<int, V>, b: map<int, V>, c: map<int, V>)
    requires OthersSame<V>(fd, a, b) && OthersSame<V>(fd, b, c)
    ensures OthersSame<V>(fd, a, c)
  {
  }

  lemma Unparked(fd: int, pending: map<int, PendingSend>, buf: Buf)
    requires fd !in pending
    ensures Parked(pending, fd) + buf == buf == buf + Parked(pending, fd)
  {
  }

  lemma OwnerIs(owner: map<int, nat>, fdGen: map<int, nat>, peers: map<int, int>, released: nat, accepts: nat)
    requires Registered(owner, fdGen, peers, released, accepts)
    ensures owner == fdGen
  {
  }

  lemma SameTries(fd: int, tries: map<int, nat>)
    ensures OthersSame<nat>(fd, tries, tries)
  {
  }

  lemma FlushedOne(fd: int, start: map<int, nat>, tries: map<int, nat>)
    requires OthersSame<nat>(fd, start, tries)
    ensures OthersSame<nat>(fd, start, Tried(tries, fd)) && TriesOf(Tried(tries, fd), fd) > TriesOf(tries, fd)
  {
  }

  /** All descriptors of `start` but those in `todo` were offered their bytes again, and the rest is as it was. */
  ghost predicate Retried(start: map<int, PendingSend>, todo: set<int>, pending: map<int, PendingSend>,
                          full: set<int>, before: map<int, nat>, tries: map<int, nat>)
  {
    && todo <= start.Keys && pending.Keys <= start.Keys
    && (forall f :: f in todo ==> f in pending && TriesOf(tries, f) == TriesOf(before, f))
    && (forall f :: f in pending && f !in todo ==> f in full)
    && (forall f :: f in start && f !in todo ==> TriesOf(tries, f) > TriesOf(before, f))
  }

  lemma RetryStart(start: map<int, PendingSend>, full: set<int>, tries: map<int, nat>)
    ensures Retried(start, start.Keys, start, full, tries, tries)
  {
  }

  lemma TodoParked(start: map<int, PendingSend>, todo: set<int>, pending: map<int, PendingSend>, full: set<int>,
                   before: map<int, nat>, tries: map<int, nat>, fd: int)
    requires Retried(start, todo, pending, full, before, tries) && fd in todo
    ensures fd in pending
  {
  }

  lemma RetryStep(start: map<int, PendingSend>, todo: set<int>, fd: int, p: map<int, PendingSend>,
                  p': map<int, PendingSend>, full: set<int>, full': set<int>, before: map<int, nat>,
                  tries: map<int, nat>, tries': map<int, nat>)
    requires Retried(start, todo, p, full, before, tries) && fd in todo
    requires OthersSame<PendingSend>(fd, p, p') && OthersSame<nat>(fd, tries, tries')
    requires Disarm(full', fd) == Disarm(full, fd) && (fd in p' ==> fd in full')
    requires TriesOf(tries', fd) > TriesOf(tries, fd)
    ensures Retried(start, todo - {fd}, p', full', before, tries')
  {
    forall f | f in start && f !in todo - {fd}
      ensures TriesOf(tries', f) > TriesOf(before, f)
    {
      assert f == fd || (f in tries' <==> f in tries);
    }
    forall f | f in todo - {fd}
      ensures f in p' && TriesOf(tries', f) == TriesOf(before, f)
    {
      assert f in p' && (f in tries' <==> f in tries);
    }
    forall f | f in p'
      ensures f in start && (f !in todo - {fd} ==> f in full')
    {
      assert f == fd || f in p;
      assert f in Disarm(full', fd) <==> f in Disarm(full, fd);
    }
  }

  lemma RetryDone(start: map<int, PendingSend>, todo: set<int>, pending: map<int, PendingSend>, full: set<int>,
                  before: map<int, nat>, tries: map<int, nat>)
    requires Retried(start, todo, pending, full, before, tries) && (forall f :: f !in todo)
    ensures pending.Keys <= start.Keys && forall f :: f in pending ==> f in full
    ensures forall f :: f in start ==> TriesOf(tries, f) > TriesOf(before, f)
  {
  }

  // Descriptors are only given up, never passed on.
  ghost predicate FewerOwners(before: map<int, nat>, after: map<int, nat>) {
    forall fd :: fd in after ==> fd in before && after[fd] == before[fd]
  }

  lemma FewerTrans(a: map<int, nat>, b: map<int, nat>, c: map<int, nat>)
    requires FewerOwners(a, b) && FewerOwners(b, c)
    ensures FewerOwners(a, c)
  {
  }

  lemma FewerOn(a: map<int, nat>, b: map<int, nat>, c: map<int, nat>, fd: int)
    requires FewerOwners(a, b) && (c == b || c == Without(b, fd))
    ensures FewerOwners(a, c)
  {
  }

  lemma EmptyRing(s: State)
    requires Sound(s, {}) && s.ring == []
    ensures s.ringBytes == 0
  {
    hide ParkedOk, ParkedCurrent, OwnersOk, CommandsOk, CausesOk, StreamsOk, PrefixesOk;
  }

  function Put<K, V>(m: map<K, V>, k: K, v: V): map<K, V> {
    m[k := v]
  }

  ghost function Admitted(s: State, nfd: int): State {
    var g := s.accepts + 1;
    s.(accepts := g, conns := Put<nat, Conn>(s.conns, g, Conn(nfd, 0)),
       hist := Put<nat, History>(s.hist, g, History([], [])),
       fdGen := Put<int, nat>(s.fdGen, nfd, g))
  }

  lemma AcceptSound(s: State, nfd: int)
    requires Sound(s, {}) && nfd !in s.fdGen
    ensures Sound(Admitted(s, nfd), {}) && s.accepts + 1 !in s.conns && nfd !in s.pending
  {
    hide RingOk, ParkedOk, CausesOk, StreamsOk, PrefixesOk, RingStream, CommandsOk;
    var g := s.accepts + 1;
    NoBytes(s.ring, s.conns, s.grounds, g);
    AcceptOwners(nfd, s.fdGen, s.pending, s.ring, s.conns, s.accepts, s.closed, s.grounds);
    AcceptStreams(nfd, s.fdGen, s.pending, s.ring, s.conns, s.hist, g);
  }

  lemma RegisterOneMore(owner: map<int, nat>, fdGen: map<int, nat>, peers: map<int, int>, released: nat,
                        accepts: nat, nfd: int, peer: int)
    requires Registered(owner, fdGen, peers, released, accepts) && nfd !in fdGen
    ensures Registered(Put<int, nat>(owner, nfd, accepts + 1), Put<int, nat>(fdGen, nfd, accepts + 1),
                       Put<int, int>(peers, nfd, peer), released, accepts + 1)
  {
    assert Put<int, nat>(fdGen, nfd, accepts + 1).Keys == fdGen.Keys + {nfd} == Put<int, int>(peers, nfd, peer).Keys;
  }

  /** Every descriptor stays with its connection, and new ones belong to later generations. */
  ghost predicate Newcomers(before: map<int, nat>, after: map<int, nat>, since: nat) {
    && (forall fd :: fd in before ==> fd in after && after[fd] == before[fd])
    && (forall fd :: fd in after ==> fd in before || since < after[fd])
  }

  lemma PeerGivenBack(owner: map<int, nat>, fdGen: map<int, nat>, peers: map<int, int>, released: nat, accepts: nat,
                      nfd: int, peer: int)
    requires Registered(owner, fdGen, peers, released, accepts) && nfd !in owner
    ensures Without(Put<int, int>(peers, nfd, peer), nfd) == peers
  {
  }

  lemma ExtendsGrows(conns: Conns, conns': Conns, hist: Histories, hist': Histories)
    requires Extends<nat, Conn>(conns, conns') && Extends<nat, History>(hist, hist')
    ensures conns.Keys <= conns'.Keys && Grows(hist, hist')
  {
  }

  lemma AcceptsNone(s: State)
    ensures Extends<nat, Conn>(s.conns, s.conns) && Extends<nat, History>(s.hist, s.hist)
    ensures Newcomers(s.fdGen, s.fdGen, s.accepts) && Announced(s.closed, s.closed, s.accepts)
  {
  }

  // One more admission, kept or given back, leaves everything alone that was there at `start`.
  lemma AcceptsOneMore(start: State, s: State, t: State, nfd: int)
    requires Extends<nat, Conn>(start.conns, s.conns) && Extends<nat, History>(start.hist, s.hist)
    requires Newcomers(start.fdGen, s.fdGen, start.accepts) && start.accepts <= s.accepts
    requires Sound(s, {}) && Sound(start, {}) && nfd !in s.fdGen && t.accepts == s.accepts + 1
    requires t.conns == Put<nat, Conn>(s.conns, t.accepts, Conn(nfd, 0))
    requires t.hist == Put<nat, History>(s.hist, t.accepts, History([], []))
    requires t.fdGen == Put<int, nat>(s.fdGen, nfd, t.accepts) ||
             t.fdGen == Without(Put<int, nat>(s.fdGen, nfd, t.accepts), nfd)
    ensures Extends<nat, Conn>(start.conns, t.conns) && Extends<nat, History>(start.hist, t.hist)
    ensures Newcomers(start.fdGen, t.fdGen, start.accepts)
  {
    hide RingOk, ParkedOk, ParkedCurrent, CommandsOk, CausesOk, StreamsOk, RingStream;
  }

  lemma AnnouncesOneMore(start: map<nat, Cause>, since: nat, s: State, closed': map<nat, Cause>)
    requires Sound(s, {}) && Announced(start, s.closed, since) && since <= s.accepts
    requires closed' == s.closed || closed' == s.closed[s.accepts + 1 := RxFull]
    ensures Announced(start, closed', since)
  {
    hide RingOk, ParkedOk, ParkedCurrent, CommandsOk, StreamsOk, PrefixesOk;
    assert s.accepts + 1 !in s.closed;
  }

  lemma OpenAfterPut(m: map<int, nat>, k: int, v: nat)
    ensures k in Put<int, nat>(m, k, v) && Put<int, nat>(m, k, v)[k] == v
  {
  }

  lemma GoneNow(m: map<int, nat>, k: int)
    ensures k !in Without(m, k)
  {
  }

  lemma FewerWithout(m: map<int, nat>, k: int)
    ensures FewerOwners(m, Without(m, k)) && FewerOwners(m, m)
  {
  }

  // ---- What a step may close ----

  /** Nothing that was there is gone or changed. */
  ghost predicate Extends<K(!new), V(!new)>(m: map<K, V>, m': map<K, V>) {
    forall k :: k in m ==> k in m' && m'[k] == m[k]
  }

  const DRAIN_CAUSES: set<Cause> := {Requested, OverBudget, WriteFailed}
  const FLUSH_CAUSES: set<Cause> := {Stalled, WriteFailed}
  const EVENT_CAUSES: set<Cause> := {PeerGone, Stalled, WriteFailed}
  const TURN_CAUSES: set<Cause> := {Requested, OverBudget, WriteFailed, Stalled, PeerGone}

  /** The descriptor stays with its connection, or that connection was closed for one of the causes. */
  ghost predicate MayClose(fd: int, causes: set<Cause>, fdGen: map<int, nat>, fdGen': map<int, nat>,
                           closed: map<nat, Cause>, closed': map<nat, Cause>)
  {
    || (fdGen' == fdGen && closed' == closed)
    || (&& fd in fdGen && fdGen' == Without(fdGen, fd)
        && fdGen[fd] in closed' && closed'[fdGen[fd]] in causes && closed' == closed[fdGen[fd] := closed'[fdGen[fd]]])
  }

  /** Closed connections stay closed for their cause, and new ones have one of the causes. */
  ghost predicate ClosedFor(before: map<nat, Cause>, after: map<nat, Cause>, causes: set<Cause>) {
    Extends<nat, Cause>(before, after) && forall g :: g in after && g !in before ==> after[g] in causes
  }

  /** The same, but for connections accepted after `since`. */
  ghost predicate ClosedSince(before: map<nat, Cause>, after: map<nat, Cause>, since: nat, causes: set<Cause>) {
    && Extends<nat, Cause>(before, after)
    && forall g :: g in after && g !in before && g <= since ==> after[g] in causes
  }

  /** Accepting closes only what it could not announce. */
  ghost predicate Announced(before: map<nat, Cause>, after: map<nat, Cause>, since: nat) {
    && Extends<nat, Cause>(before, after)
    && forall g :: g in after && g !in before ==> since < g && after[g] == RxFull
  }

  // An open connection was not closed before, so closing it rewrites nothing.
  lemma CloseCounts(s: State, fd: int, causes: set<Cause>, fdGen': map<int, nat>, closed': map<nat, Cause>)
    requires Sound(s, {}) && MayClose(fd, causes, s.fdGen, fdGen', s.closed, closed')
    ensures ClosedFor(s.closed, closed', causes) && (fdGen' == s.fdGen || fdGen' == Without(s.fdGen, fd))
  {
    hide RingOk, ParkedOk, ParkedCurrent, OwnersOk, CommandsOk, StreamsOk, PrefixesOk, Without;
  }

  // Whoever no longer owns its descriptor was closed.
  lemma DeadIsClosed(s: State, g: nat)
    requires Sound(s, {}) && g in s.conns && !(s.conns[g].fd in s.fdGen && s.fdGen[s.conns[g].fd] == g)
    ensures g in s.closed
  {
    hide RingOk, ParkedOk, ParkedCurrent, OwnersOk, CommandsOk, StreamsOk, PrefixesOk;
  }

  lemma NoneClosed(closed: map<nat, Cause>, causes: set<Cause>, since: nat)
    ensures ClosedFor(closed, closed, causes) && ClosedSince(closed, closed, since, causes)
    ensures Announced(closed, closed, since)
  {
  }

  lemma ClosedOn(a: map<nat, Cause>, b: map<nat, Cause>, c: map<nat, Cause>, some: set<Cause>, causes: set<Cause>)
    requires ClosedFor(a, b, causes) && ClosedFor(b, c, some) && some <= causes
    ensures ClosedFor(a, c, causes)
  {
  }

  // The three parts of a turn of the driver loop.
  lemma TurnCloses(a: map<nat, Cause>, b: map<nat, Cause>, c: map<nat, Cause>, d: map<nat, Cause>, since: nat)
    requires ClosedFor(a, b, DRAIN_CAUSES) && ClosedFor(b, c, FLUSH_CAUSES) && ClosedSince(c, d, since, EVENT_CAUSES)
    ensures ClosedSince(a, d, since, TURN_CAUSES) && b.Keys <= d.Keys
  {
  }

  /** The close requests among these commands were carried out. */
  ghost predicate Obeyed(served: seq<Cmd>, closed: map<nat, Cause>) {
    forall c :: c in served && c.Close? ==> c.generation in closed
  }

  lemma ObeyedNext(served: seq<Cmd>, c: Cmd, ring: seq<Cmd>, before: map<nat, Cause>, after: map<nat, Cause>,
                   causes: set<Cause>)
    requires ring != [] && c == ring[0] && Obeyed(served, before) && ClosedFor(before, after, causes)
    requires c.Close? ==> c.generation in after
    ensures Obeyed(served + [c], after) && served + [c] + ring[1..] == served + ring
  {
    var more := served + [c];
    assert forall x {:trigger x in more} :: x in more <==> x in served || x == c;
  }

  lemma ObeyedStill(some: seq<Cmd>, served: seq<Cmd>, before: map<nat, Cause>, after: map<nat, Cause>)
    requires some <= served && Obeyed(served, before) && before.Keys <= after.Keys
    ensures Obeyed(some, after)
  {
    forall c | c in some ensures c in served {}
  }

  // ---- A batch of events ----

  ghost predicate BatchOk(evs: seq<KEvent>, fdGen: map<int, nat>) {
    forall i :: 0 <= i < |evs| && evs[i].Ready? ==> evs[i].fd in fdGen && fdGen[evs[i].fd] == evs[i].of
  }

  /** The generations an entry closes though it was meant for another connection. */
  ghost function Mistaken(ev: KEvent, fdGen: map<int, nat>): set<nat> {
    if ev.Ready? && ev.what.Eof? && ev.fd in fdGen && fdGen[ev.fd] != ev.of then {fdGen[ev.fd]} else {}
  }

  ghost predicate Named(evs: seq<KEvent>, fd: int) {
    exists i :: 0 <= i < |evs| && evs[i].Ready? && evs[i].fd == fd
  }

  ghost predicate NamedOnce(evs: seq<KEvent>) {
    forall i, j :: 0 <= i < j < |evs| && evs[i].Ready? && evs[j].Ready? ==> evs[i].fd != evs[j].fd
  }

  /** One entry: other descriptors stay with their connections, and new ones belong to later generations. */
  ghost predicate Arrivals(before: map<int, nat>, after: map<int, nat>, since: nat, ev: KEvent) {
    && (forall fd :: fd in before && !(ev.Ready? && ev.fd == fd) ==> fd in after && after[fd] == before[fd])
    && (forall fd :: fd in after ==> (fd in before && after[fd] == before[fd]) || since < after[fd])
  }

  /** The same for all the entries handled so far. */
  ghost predicate Tracked(start: map<int, nat>, now: map<int, nat>, since: nat, handled: seq<KEvent>) {
    && (forall fd :: fd in start ==> (fd in now && now[fd] == start[fd]) || Named(handled, fd))
    && (forall fd :: fd in now ==> (fd in start && now[fd] == start[fd]) || since < now[fd])
  }

  lemma NotOpen(fd: int, of: nat, fdGen: map<int, nat>, misdirected: set<nat>)
    requires fd !in fdGen
    ensures Without(fdGen, fd) == fdGen && misdirected + Mistaken(Ready(fd, of, Eof), fdGen) == misdirected
  {
  }

  lemma NoMistake(ev: KEvent, fdGen: map<int, nat>, misdirected: set<nat>)
    requires !(ev.Ready? && ev.what.Eof?)
    ensures misdirected + Mistaken(ev, fdGen) == misdirected
  {
  }

  lemma OneDescriptor(ev: KEvent, before: map<int, nat>, after: map<int, nat>, since: nat)
    requires after == before || (ev.Ready? && after == Without(before, ev.fd)) || Newcomers(before, after, since)
    ensures Arrivals(before, after, since, ev)
  {
  }

  /** Whoever was closed by mistake in the meantime was also accepted in the meantime. */
  ghost predicate Blamed(before: set<nat>, after: set<nat>, since: nat, accepts: nat) {
    before <= after && forall g :: g in after && g !in before ==> since < g <= accepts
  }

  lemma BlamedOn(start: set<nat>, before: set<nat>, since: nat, mid: nat, accepts: nat, more: set<nat>)
    requires Blamed(start, before, since, mid) || start == before
    requires mid <= accepts && forall g :: g in more ==> since < g <= mid
    ensures Blamed(start, before + more, since, accepts)
    ensures more == {} ==> before + more == before
  {
  }

  lemma TrackStart(start: map<int, nat>, since: nat)
    ensures Tracked(start, start, since, [])
  {
  }

  lemma TrackStep(start: map<int, nat>, now: map<int, nat>, next: map<int, nat>, since: nat, then_: nat,
                  evs: seq<KEvent>, i: nat)
    requires i < |evs| && since <= then_
    requires Tracked(start, now, since, evs[..i]) && Arrivals(now, next, then_, evs[i])
    ensures Tracked(start, next, since, evs[..i + 1])
  {
    forall fd | fd in start
      ensures (fd in next && next[fd] == start[fd]) || Named(evs[..i + 1], fd)
    {
      if Named(evs[..i], fd) {
        var k :| 0 <= k < i && evs[..i][k].Ready? && evs[..i][k].fd == fd;
        assert evs[..i + 1][k] == evs[..i][k];
      } else if evs[i].Ready? && evs[i].fd == fd {
        assert evs[..i + 1][i] == evs[i];
      }
    }
  }

  // Whoever is closed by mistake came after the batch, and its number is in the batch twice.
  lemma OnlyNewer(s: State, evs: seq<KEvent>, i: nat, start: map<int, nat>, since: nat)
    requires Sound(s, {}) && i < |evs| && BatchOk(evs, start) && Tracked(start, s.fdGen, since, evs[..i])
    ensures forall g :: g in Mistaken(evs[i], s.fdGen) ==> since < g <= s.accepts
    ensures NamedOnce(evs) ==> Mistaken(evs[i], s.fdGen) == {}
  {
    hide Sound;
    if evs[i].Ready? && evs[i].what.Eof? && evs[i].fd in s.fdGen && s.fdGen[evs[i].fd] != evs[i].of {
      var fd := evs[i].fd;
      SoundParts(s, fd);
      assert Named(evs[..i], fd);
      var k :| 0 <= k < i && evs[..i][k].Ready? && evs[..i][k].fd == fd;
      assert evs[k].Ready? && evs[k].fd == evs[i].fd;
    }
  }

  // ---- What becomes of a connection ----

  /** The next answer of the stack to an offer of `len` bytes; with nothing listed it is EAGAIN. */
  ghost function NextAnswer(answers: seq<Answer>, len: nat): (a: Answer)
    ensures a.Took? ==> a.n <= len
  {
    if answers == [] then TryAgain(false)
    else if answers[0].Took? && answers[0].n > len then Took(len)
    else answers[0]
  }

  ghost function Later<T>(answers: seq<T>): seq<T> {
    if answers == [] then [] else answers[1..]
  }

  /**
  The bytes the stack takes from an open connection in a step, and what becomes of the connection: it stays, with
  these buffers parked, or it is closed. `left` are the answers still to come.
  */
  datatype Fate =
    | Kept(taken: Buf, queue: seq<Buf>, left: seq<Answer>)
    | Ended(taken: Buf, why: Cause, left: seq<Answer>)

  /** A send behind a backlog is parked; otherwise it is offered, and what is not taken is parked if there is room. */
  ghost function SendFate(answers: seq<Answer>, pendingBytes: nat, queue: seq<Buf>, buf: Buf): Fate {
    if queue != [] then
      if pendingBytes + |buf| <= MAX_PENDING_SEND_BYTES then Kept([], queue + [buf], answers)
      else Ended([], OverBudget, answers)
    else
      AnswerFate(NextAnswer(answers, |buf|), buf, pendingBytes, Later(answers))
  }

  ghost function AnswerFate(a: Answer, buf: Buf, pendingBytes: nat, left: seq<Answer>): Fate
    requires a.Took? ==> a.n <= |buf|
  {
    match a
    case Took(n) => if n == |buf| then Kept(buf, [], left) else RestFate(buf[..n], buf[n..], pendingBytes, left)
    case TryAgain(_) => RestFate([], buf, pendingBytes, left)
    case Broken => Ended([], WriteFailed, left)
  }

  ghost function RestFate(taken: Buf, rest: Buf, pendingBytes: nat, left: seq<Answer>): Fate {
    if pendingBytes + |rest| <= MAX_PENDING_SEND_BYTES then Kept(taken, [rest], left)
    else Ended(taken, OverBudget, left)
  }

  /** Parked buffers are offered in order until the stack takes less than a whole one. */
  ghost function FlushFate(answers: seq<Answer>, queue: seq<Buf>): Fate {
    if queue == [] then Kept([], [], answers)
    else
      var a := NextAnswer(answers, |queue[0]|);
      if a == Took(|queue[0]|) then After(queue[0], FlushFate(Later(answers), queue[1..]))
      else BlockedFate(a, queue[0], queue[1..], Later(answers))
  }

  ghost function After(taken: Buf, fate: Fate): Fate {
    fate.(taken := taken + fate.taken)
  }

  ghost function BlockedFate(a: Answer, buf: Buf, rest: seq<Buf>, left: seq<Answer>): Fate
    requires a.Took? ==> a.n <= |buf|
  {
    match a
    case Took(n) => Kept(buf[..n], [buf[n..]] + rest, left)
    case TryAgain(stalled) => if stalled then Ended([], Stalled, left) else Kept([], [buf] + rest, left)
    case Broken => Ended([], WriteFailed, left)
  }

  /**
  What a send comes to, by the bytes: behind a backlog nothing is offered; else one answer decides what is taken, a
  front of the buffer. As long as the connection stays, every byte is taken or parked, in order; it ends for a
  broken connection, or if what is not taken does not fit the budget.
  */
  lemma SendFateIs(answers: seq<Answer>, pendingBytes: nat, queue: seq<Buf>, buf: Buf)
    ensures var fate, a := SendFate(answers, pendingBytes, queue, buf), NextAnswer(answers, |buf|);
            var taken := if queue == [] && a.Took? then a.n else 0;
            && fate.taken == buf[..taken] && fate.left == (if queue == [] then Later(answers) else answers)
            && (fate.Kept? ==> fate.taken + Flatten(fate.queue) == Flatten(queue) + buf)
            && (fate == Ended(fate.taken, WriteFailed, fate.left) <==> queue == [] && a.Broken?)
            && (fate == Ended(fate.taken, OverBudget, fate.left) <==>
                  && !(queue == [] && (a.Broken? || a == Took(|buf|)))
                  && pendingBytes + |buf| - taken > MAX_PENDING_SEND_BYTES)
            && (fate.Ended? ==> fate.why == WriteFailed || fate.why == OverBudget)
  {
    FlattenBack(queue, buf);
    var a := NextAnswer(answers, |buf|);
    var rest := buf[if queue == [] && a.Took? then a.n else 0..];
    FlattenFront([], rest);
    assert [rest] + [] == [rest] && rest + [] == rest && buf[..|buf| - |rest|] + rest == buf;
    assert buf[..|buf|] == buf;
  }

  /**
  The answers take the first `n` buffers whole, and the next answer, if there is a next buffer, takes less. As long as
  the connection stays, every byte is taken or still parked, in order; it ends for a broken connection or a stall.
  */
  ghost predicate FlushedUpTo(answers: seq<Answer>, queue: seq<Buf>, fate: Fate, n: nat) {
    && n <= |queue| && n <= |answers|
    && (forall k :: 0 <= k < n ==> answers[k].Took? && answers[k].n >= |queue[k]|)
    && if n == |queue| then fate == Kept(Flatten(queue), [], answers[n..])
       else
         var a := NextAnswer(answers[n..], |queue[n]|);
         && a != Took(|queue[n]|) && fate.left == Later(answers[n..])
         && fate.taken == Flatten(queue[..n]) + (if a.Took? then queue[n][..a.n] else [])
         && (fate.Kept? ==> fate.taken + Flatten(fate.queue) == Flatten(queue))
         && (fate.Ended? <==> a.Broken? || a == TryAgain(true))
         && (fate.Ended? ==> fate.why == if a.Broken? then WriteFailed else Stalled)
  }

  lemma OneMoreWhole(answers: seq<Answer>, queue: seq<Buf>, rest: Fate, m: nat)
    requires queue != [] && answers != [] && answers[0].Took? && answers[0].n >= |queue[0]|
    requires FlushedUpTo(answers[1..], queue[1..], rest, m)
    ensures FlushedUpTo(answers, queue, After(queue[0], rest), m + 1)
  {
    hide NextAnswer;
    assert answers[1..][m..] == answers[m + 1..];
    assert queue[..m + 1][1..] == queue[1..][..m];
    var first, before := queue[0], Flatten(queue[1..][..m]);
    assert forall x: Buf :: first + (before + x) == first + before + x;
    if rest.Kept? {
      assert first + rest.taken + Flatten(rest.queue) == first + (rest.taken + Flatten(rest.queue));
    }
  }

  lemma NoneWhole(answers: seq<Answer>, queue: seq<Buf>)
    requires queue == [] || NextAnswer(answers, |queue[0]|) != Took(|queue[0]|)
    ensures FlushedUpTo(answers, queue, FlushFate(answers, queue), 0)
  {
    if queue != [] {
      var a := NextAnswer(answers, |queue[0]|);
      var taken := if a.Took? then a.n else 0;
      assert queue[0] == queue[0][..taken] + queue[0][taken..];
      FlattenFront(queue[1..], queue[0][taken..]);
      assert queue[0][..taken] + (queue[0][taken..] + Flatten(queue[1..])) == queue[0] + Flatten(queue[1..]);
      assert queue[0][0..] == queue[0];
    }
  }

  /** What a flush comes to, by the bytes. */
  lemma {:induction false} FlushFateIs(answers: seq<Answer>, queue: seq<Buf>) returns (n: nat)
    ensures FlushedUpTo(answers, queue, FlushFate(answers, queue), n)
  {
    hide FlushedUpTo, BlockedFate, Flatten;
    if queue == [] || NextAnswer(answers, |queue[0]|) != Took(|queue[0]|) {
      NoneWhole(answers, queue);
      n := 0;
    } else {
      var m := FlushFateIs(Later(answers), queue[1..]);
      OneMoreWhole(answers, queue, FlushFate(Later(answers), queue[1..]), m);
      n := m + 1;
    }
  }

  /** The connection open on `fd` met its fate, but for the bytes taken; nothing else was touched. */
  ghost predicate Moved(fate: Fate, fd: int, s: State, t: State) {
    && fd in s.fdGen && OthersSame<PendingSend>(fd, s.pending, t.pending)
    && t.ring == s.ring && t.ringBytes == s.ringBytes && t.accepts == s.accepts && t.conns.Keys == s.conns.Keys
    && Queued(t.pending, fd) == (if fate.Kept? then fate.queue else [])
    && t.fdGen == (if fate.Kept? then s.fdGen else Without(s.fdGen, fd))
    && t.closed == (if fate.Kept? then s.closed else s.closed[s.fdGen[fd] := fate.why])
  }

  ghost predicate Turned(fate: Fate, fd: int, s: State, t: State) {
    && Moved(fate, fd, s, t) && s.fdGen[fd] in s.hist && t.hist == Wired(s.hist, s.fdGen[fd], fate.taken)
    && t.grounds == s.grounds + (if fate.Ended? then {(s.fdGen[fd], fate.why)} else {})
  }

  lemma WiredNone(h: Histories, g: nat)
    requires g in h
    ensures Wired(h, g, []) == h
  {
    assert h[g].wire + [] == h[g].wire;
  }

  lemma WiredOn(h: Histories, g: nat, a: Buf, b: Buf)
    requires g in h
    ensures g in Wired(h, g, a) && Wired(Wired(h, g, a), g, b) == Wired(h, g, a + b)
  {
    assert h[g].wire + a + b == h[g].wire + (a + b);
  }

  // Taking a buffer off the parking lot of `fd` first does not show.
  lemma MovedFrom(fate: Fate, fd: int, s: State, m: State, t: State)
    requires Moved(fate, fd, m, t) && OthersSame<PendingSend>(fd, s.pending, m.pending)
    requires m.fdGen == s.fdGen && m.closed == s.closed && m.ring == s.ring && m.ringBytes == s.ringBytes
    requires m.accepts == s.accepts && m.conns.Keys == s.conns.Keys
    ensures Moved(fate, fd, s, t)
  {
    hide Without, Queued;
  }

  lemma QueuedMeans(fd: int, pending: map<int, PendingSend>, bytes: nat)
    requires ParkedOk(pending, bytes)
    ensures fd in pending <==> Queued(pending, fd) != []
    ensures fd in pending ==> Queued(pending, fd) == pending[fd].queue
  {
    hide TotalParked;
    if fd in pending {
      assert pending[fd].Valid();
    }
  }

  lemma ParkBackOthers(fd: int, pending: map<int, PendingSend>, generation: nat, buf: Buf)
    ensures var p := ParkBack(pending, fd, generation, buf);
            && p.Keys == pending.Keys + {fd}
            && forall f :: f != fd ==> (f in pending <==> f in p) && (f in pending ==> p[f] == pending[f])
  {
  }

  lemma QueuedNone(fd: int, pending: map<int, PendingSend>)
    requires fd !in pending
    ensures Queued(pending, fd) == []
  {
  }

  // A fate met since `m` is met since `s` if only bytes, counters and grounds changed in between.
  lemma Rebased(fate: Fate, fd: int, s: State, m: State, t: State)
    requires Moved(fate, fd, m, t) && m.pending == s.pending && m.fdGen == s.fdGen && m.closed == s.closed
    requires m.ring == s.ring && m.ringBytes == s.ringBytes && m.accepts == s.accepts && m.conns.Keys == s.conns.Keys
    ensures Moved(fate, fd, s, t)
  {
    hide OthersSame, Queued, Without;
  }

  // One whole buffer was taken, then the rest of the queue met its fate.
  lemma TurnedOn(fate: Fate, fd: int, s: State, m: State, t: State, first: Buf)
    requires Turned(fate, fd, m, t) && OthersSame<PendingSend>(fd, s.pending, m.pending)
    requires m.fdGen == s.fdGen && m.closed == s.closed && m.ring == s.ring && m.ringBytes == s.ringBytes
    requires m.accepts == s.accepts && m.conns.Keys == s.conns.Keys && m.grounds == s.grounds
    requires s.fdGen[fd] in s.hist && m.hist == Wired(s.hist, s.fdGen[fd], first)
    ensures Turned(After(first, fate), fd, s, t)
  {
    hide Wired, OthersSame, Queued, Without;
    MovedFrom(fate, fd, s, m, t);
    WiredOn(s.hist, s.fdGen[fd], first, fate.taken);
    assert Moved(After(first, fate), fd, s, t) by {
      SameMove(fate, After(first, fate), fd, s, t);
    }
  }

  lemma SameMove(fate: Fate, other: Fate, fd: int, s: State, t: State)
    requires Moved(fate, fd, s, t) && fate.Kept? == other.Kept?
    requires if fate.Kept? then other.queue == fate.queue else other.why == fate.why
    ensures Moved(other, fd, s, t)
  {
  }

  lemma TurnedStays(fd: int, s: State, answers: seq<Answer>)
    requires fd in s.fdGen && s.fdGen[fd] in s.hist && Queued(s.pending, fd) == []
    ensures Turned(FlushFate(answers, []), fd, s, s)
  {
    WiredNone(s.hist, s.fdGen[fd]);
  }

  /** So far the stack took `done` from the connection open on `fd`, whole buffers, and nothing else happened. */
  ghost predicate Flushing(fd: int, done: Buf, s: State, answers: seq<Answer>, m: State, later: seq<Answer>) {
    && fd in s.fdGen && s.fdGen[fd] in s.hist && m.hist == Wired(s.hist, s.fdGen[fd], done)
    && OthersSame<PendingSend>(fd, s.pending, m.pending)
    && m.fdGen == s.fdGen && m.closed == s.closed && m.ring == s.ring && m.ringBytes == s.ringBytes
    && m.accepts == s.accepts && m.conns.Keys == s.conns.Keys && m.grounds == s.grounds
    && FlushFate(answers, Queued(s.pending, fd)) == After(done, FlushFate(later, Queued(m.pending, fd)))
  }

  ghost predicate OneTaken(fd: int, s: State, m: State, first: Buf) {
    && fd in s.fdGen && s.fdGen[fd] in s.hist && m.hist == Wired(s.hist, s.fdGen[fd], first)
    && OthersSame<PendingSend>(fd, s.pending, m.pending)
    && m.fdGen == s.fdGen && m.closed == s.closed && m.ring == s.ring && m.ringBytes == s.ringBytes
    && m.accepts == s.accepts && m.conns.Keys == s.conns.Keys && m.grounds == s.grounds
    && Queued(s.pending, fd) != [] && Queued(m.pending, fd) == Queued(s.pending, fd)[1..]
  }

  /** The oldest buffer parked on `fd` was taken off and offered. */
  ghost predicate Offered(fd: int, s: State, m: State, buf: Buf, a: Answer) {
    && fd in s.fdGen && s.fdGen[fd] in s.hist && (a.Took? ==> a.n <= |buf|)
    && m.hist == Wired(s.hist, s.fdGen[fd], if a.Took? then buf[..a.n] else [])
    && m.grounds == s.grounds + (if a.Broken? then {(s.fdGen[fd], WriteFailed)} else {})
    && OthersSame<PendingSend>(fd, s.pending, m.pending)
    && m.fdGen == s.fdGen && m.closed == s.closed && m.ring == s.ring && m.ringBytes == s.ringBytes
    && m.accepts == s.accepts && m.conns.Keys == s.conns.Keys
    && fd in s.pending && s.pending[fd].queue != [] && Queued(m.pending, fd) == s.pending[fd].queue[1..]
  }

  lemma Rearmed(full: set<int>, fd: int)
    ensures Disarm(full - {fd}, fd) == Disarm(full, fd) == Disarm(full + {fd}, fd)
  {
  }

  lemma TakenWhole(fd: int, s: State, m: State, buf: Buf, a: Answer)
    requires Offered(fd, s, m, buf, a) && a == Took(|buf|)
    ensures OneTaken(fd, s, m, buf)
  {
    hide OthersSame;
    assert buf[..|buf|] == buf && s.grounds + {} == s.grounds;
  }

  lemma BlockedTurn(fd: int, s: State, m: State, t: State, buf: Buf, a: Answer, left: seq<Answer>)
    requires Offered(fd, s, m, buf, a) && a != Took(|buf|)
    requires Moved(BlockedFate(a, buf, Queued(m.pending, fd), left), fd, m, t) && t.hist == m.hist
    requires t.grounds == m.grounds + (if a == TryAgain(true) then {(m.fdGen[fd], Stalled)} else {})
    ensures Turned(BlockedFate(a, buf, s.pending[fd].queue[1..], left), fd, s, t)
  {
    hide OthersSame, Moved, Queued;
    MovedFrom(BlockedFate(a, buf, Queued(m.pending, fd), left), fd, s, m, t);
    MovedIn(BlockedFate(a, buf, Queued(m.pending, fd), left), fd, m, t);
  }

  lemma MovedIn(fate: Fate, fd: int, s: State, t: State)
    requires Moved(fate, fd, s, t)
    ensures fd in s.fdGen
  {
  }

  lemma FlushBegins(fd: int, s: State, answers: seq<Answer>)
    requires Sound(s, {}) && fd in s.pending
    ensures Flushing(fd, [], s, answers, s, answers)
  {
    hide RingOk, ParkedOk, CommandsOk, CausesOk, StreamsOk, FlushFate;
    WiredNone(s.hist, s.fdGen[fd]);
    OnlyHere(fd, s.pending, 0, []);
    var fate := FlushFate(answers, Queued(s.pending, fd));
    assert [] + fate.taken == fate.taken;
  }

  lemma ParkedQueue(fd: int, s: State)
    requires Sound(s, {}) && fd in s.pending
    ensures s.pending[fd].queue != [] && Queued(s.pending, fd) == s.pending[fd].queue
  {
    hide RingOk, ParkedCurrent, OwnersOk, CommandsOk, CausesOk, StreamsOk, PrefixesOk, TotalParked;
    assert s.pending[fd].Valid();
  }

  lemma AfterAfter(a: Buf, b: Buf, fate: Fate)
    ensures After(a, After(b, fate)) == After(a + b, fate)
  {
    assert a + (b + fate.taken) == a + b + fate.taken;
  }

  lemma FlushGoesOn(fd: int, done: Buf, s: State, answers: seq<Answer>, m: State, later: seq<Answer>,
                    n: State, still: seq<Answer>, first: Buf)
    requires Flushing(fd, done, s, answers, m, later) && OneTaken(fd, m, n, first)
    requires Queued(m.pending, fd)[0] == first && still == Later(later) && NextAnswer(later, |first|) == Took(|first|)
    ensures Flushing(fd, done + first, s, answers, n, still)
  {
    hide Wired, Queued, OthersSame;
    WiredOn(s.hist, s.fdGen[fd], done, first);
    OthersOn<PendingSend>(fd, s.pending, m.pending, n.pending);
    AfterAfter(done, first, FlushFate(still, Queued(n.pending, fd)));
  }

  lemma FlushEnds(fd: int, done: Buf, s: State, answers: seq<Answer>, m: State, later: seq<Answer>,
                  t: State, left: seq<Answer>)
    requires Flushing(fd, done, s, answers, m, later) && Queued(m.pending, fd) != [] && left == Later(later)
    requires var queue := Queued(m.pending, fd);
             var a := NextAnswer(later, |queue[0]|);
             a != Took(|queue[0]|) && Turned(BlockedFate(a, queue[0], queue[1..], left), fd, m, t)
    ensures var fate := FlushFate(answers, Queued(s.pending, fd));
            fate.left == left && Turned(fate, fd, s, t)
  {
    hide Turned, Wired, Queued, OthersSame;
    var queue := Queued(m.pending, fd);
    TurnedOn(BlockedFate(NextAnswer(later, |queue[0]|), queue[0], queue[1..], left), fd, s, m, t, done);
  }

  lemma FlushDone(fd: int, done: Buf, s: State, answers: seq<Answer>, m: State, later: seq<Answer>)
    requires Flushing(fd, done, s, answers, m, later) && fd !in m.pending
    ensures var fate := FlushFate(answers, Queued(s.pending, fd));
            fate.left == later && Turned(fate, fd, s, m)
  {
    hide Turned, Wired, OthersSame;
    QueuedNone(fd, m.pending);
    StaysTurned(fd, m, later, s, done);
    TurnedOn(FlushFate(later, []), fd, s, m, m, done);
  }

  lemma StaysTurned(fd: int, m: State, later: seq<Answer>, s: State, done: Buf)
    requires fd in m.fdGen && m.fdGen == s.fdGen && s.fdGen[fd] in s.hist
    requires m.hist == Wired(s.hist, s.fdGen[fd], done) && fd !in m.pending
    ensures Turned(FlushFate(later, []), fd, m, m)
  {
    TurnedStays(fd, m, later);
  }

  lemma TurnedDelivers(fate: Fate, fd: int, s: State, t: State)
    requires Turned(fate, fd, s, t)
    ensures DeliversFor(s.fdGen[fd], s.hist, t.hist) && OthersSame<PendingSend>(fd, s.pending, t.pending)
    ensures MayClose(fd, if fate.Ended? then {fate.why} else {}, s.fdGen, t.fdGen, s.closed, t.closed)
  {
    hide OthersSame, Queued;
  }

  lemma SendCauses(answers: seq<Answer>, pendingBytes: nat, queue: seq<Buf>, buf: Buf)
    ensures var fate := SendFate(answers, pendingBytes, queue, buf);
            fate.Ended? ==> fate.why in DRAIN_CAUSES
  {
  }

  lemma {:induction false} FlushCauses(answers: seq<Answer>, queue: seq<Buf>)
    ensures FlushFate(answers, queue).Ended? ==> FlushFate(answers, queue).why in FLUSH_CAUSES
  {
    if queue != [] {
      FlushCauses(Later(answers), queue[1..]);
    }
  }

  // ---- Steps of the whole ----

  /** The state and what the stack will answer. */
  datatype World = World(s: State, answers: seq<Answer>, eofs: seq<bool>)

  datatype Action = Serve(c: Cmd) | Flush(fd: int) | Handle(ev: KEvent) | Work(ops: seq<WorkerOp>)

  /** `poll_write`: the whole buffer is accepted if every limit allows it, else nothing happens. */
  ghost function Written(s: State, conn: nat, buf: Buf): State {
    if conn !in s.conns || conn !in s.hist || buf == [] || |buf| > MAX_TX_BYTES
       || s.conns[conn].txPending >= MAX_CONN_PENDING_BYTES
       || s.ringBytes + |buf| > MAX_TX_BYTES || |s.ring| >= TX_CAP then s
    else
      s.(ring := s.ring + [Send(s.conns[conn].fd, conn, buf)], ringBytes := s.ringBytes + |buf|,
         conns := Counted(s.conns, conn, |buf|), hist := Accepted(s.hist, conn, buf))
  }

  ghost function AskedToClose(s: State, conn: nat): State {
    if conn !in s.conns then s
    else
      s.(grounds := s.grounds + {(conn, Requested)},
         ring := s.ring + (if |s.ring| < TX_CAP then [Close(s.conns[conn].fd, conn)] else []))
  }

  ghost function Worked(s: State, ops: seq<WorkerOp>): State {
    if ops == [] then s else
      var t := Worked(s, ops[..|ops| - 1]);
      match ops[|ops| - 1]
      case Write(conn, bytes) => Written(t, conn, bytes)
      case Shutdown(conn) => AskedToClose(t, conn)
  }

  /** The connection open on `fd` is closed for a reason that is now known, and its parked bytes are dropped. */
  ghost predicate Closes(s: State, fd: int, why: Cause, t: State) {
    && fd in s.fdGen && CanClose(s.(grounds := s.grounds + {(s.fdGen[fd], why)}), fd, why)
    && t == Closed(s.(grounds := s.grounds + {(s.fdGen[fd], why)}), fd, why)
  }

  ghost function ArrivedOne(s: State, a: Arrival): State {
    if !a.admitted then s
    else
      var g, t := s.accepts + 1, Admitted(s, a.fd);
      if a.rxFull then
        t.(fdGen := Without(t.fdGen, a.fd), closed := t.closed[g := RxFull], grounds := t.grounds + {(g, RxFull)})
      else t
  }

  /** All that wait, in order, each under a generation of its own; the stack never hands out an open descriptor. */
  ghost function Arrived(s: State, arrivals: seq<Arrival>): State
    decreases |arrivals|
  {
    if arrivals == [] || arrivals[0].fd < 0 || arrivals[0].fd in s.fdGen then s
    else Arrived(ArrivedOne(s, arrivals[0]), arrivals[1..])
  }

  /** The batch the kqueue hands out: at most 512 entries, on listeners and descriptors that are open. */
  ghost function Fetched(reports: seq<Report>, fdGen: map<int, nat>): seq<KEvent> {
    if reports == [] then [] else
      var init, last := Fetched(reports[..|reports| - 1], fdGen), reports[|reports| - 1];
      if |init| >= MAX_EVENTS then init
      else
        match last
        case Waiting(arrivals) => init + [Listener(arrivals)]
        case On(fd, what) => if fd in fdGen then init + [Ready(fd, fdGen[fd], what)] else init
  }

  /** Nothing that happened on an open descriptor is missed, up to the size of a batch. */
  lemma {:induction false} FetchedIs(reports: seq<Report>, fdGen: map<int, nat>)
    requires forall k :: 0 <= k < |reports| && reports[k].On? ==> reports[k].fd in fdGen
    ensures var evs := Fetched(reports, fdGen);
            && |evs| == (if |reports| <= 512 then |reports| else 512)
            && forall k :: 0 <= k < |evs| ==>
                 evs[k] == match reports[k]
                           case Waiting(arrivals) => Listener(arrivals)
                           case On(fd, what) => Ready(fd, fdGen[fd], what)
  {
    if reports != [] {
      FetchedIs(reports[..|reports| - 1], fdGen);
    }
  }

  /** Everyone that waits is let in, each under the next generation, if there is room to announce them. */
  lemma {:induction false} EveryoneArrives(s: State, arrivals: seq<Arrival>)
    requires forall k :: 0 <= k < |arrivals| ==>
               arrivals[k].fd >= 0 && arrivals[k].fd !in s.fdGen && arrivals[k].admitted && !arrivals[k].rxFull
    requires forall k, l :: 0 <= k < l < |arrivals| ==> arrivals[k].fd != arrivals[l].fd
    ensures var t := Arrived(s, arrivals);
            && t.accepts == s.accepts + |arrivals| && t.closed == s.closed
            && (forall k :: 0 <= k < |arrivals| ==>
                  arrivals[k].fd in t.fdGen && t.fdGen[arrivals[k].fd] == s.accepts + 1 + k)
            && forall fd :: fd in s.fdGen ==> fd in t.fdGen && t.fdGen[fd] == s.fdGen[fd]
    decreases |arrivals|
  {
    if arrivals != [] {
      var next := ArrivedOne(s, arrivals[0]);
      EveryoneArrives(next, arrivals[1..]);
      assert arrivals[0].fd in next.fdGen;
      forall k | 0 < k < |arrivals|
        ensures arrivals[k] == arrivals[1..][k - 1]
      {
      }
    }
  }

  ghost predicate ServeStep(w: World, c: Cmd, v: World) {
    && w.s.ring != [] && c == w.s.ring[0] && v.eofs == w.eofs
    && var p := Popped(w.s);
       if !(c.fd in p.fdGen && p.fdGen[c.fd] == c.generation) then
         && v.answers == w.answers
         && (if c.Send? then
               && c.generation in p.conns && p.conns[c.generation].txPending >= |c.buf|
               && v.s == p.(conns := Released(p.conns, c.generation, |c.buf|))
             else v.s == p)
       else if c.Close? then v.answers == w.answers && Closes(p, c.fd, Requested, v.s)
       else
         var fate := SendFate(w.answers, p.pendingBytes, Queued(p.pending, c.fd), c.buf);
         v.answers == fate.left && Turned(fate, c.fd, p, v.s)
  }

  ghost predicate FlushStep(w: World, fd: int, v: World) {
    && v.eofs == w.eofs
    && if fd in w.s.pending then
         var fate := FlushFate(w.answers, w.s.pending[fd].queue);
         v.answers == fate.left && Turned(fate, fd, w.s, v.s)
       else v == w
  }

  ghost predicate ReadStep(w: World, fd: int, v: World) {
    && v.answers == w.answers
    && if fd !in w.s.fdGen then v == w
       else
         && v.eofs == Later(w.eofs)
         && if w.eofs != [] && w.eofs[0] then Closes(w.s, fd, PeerGone, v.s) else v.s == w.s
  }

  ghost predicate HandleStep(w: World, ev: KEvent, v: World) {
    match ev
    case Listener(arrivals) => v == w.(s := Arrived(w.s, arrivals))
    case Ready(fd, of, Eof) =>
      if fd !in w.s.fdGen then v == w
      else
        && v.answers == w.answers && v.eofs == w.eofs
        && Closes(w.s, fd, if w.s.fdGen[fd] == of then PeerGone else Misdirected, v.s)
    case Ready(fd, _, Readable) => ReadStep(w, fd, v)
    case Ready(fd, _, Writable) => FlushStep(w, fd, v)
  }

  /** One step of the driver or of the workers, as a function of the state and of what the stack answers. */
  ghost predicate Step(w: World, a: Action, v: World) {
    match a
    case Serve(c) => ServeStep(w, c, v)
    case Flush(fd) => FlushStep(w, fd, v)
    case Handle(ev) => HandleStep(w, ev, v)
    case Work(ops) => v == w.(s := Worked(w.s, ops))
  }

  /** The workers of round `k`. */
  ghost function Shift(schedule: seq<seq<WorkerOp>>, k: nat): seq<WorkerOp> {
    if k < |schedule| then schedule[k] else []
  }

  ghost predicate Runs(worlds: seq<World>, acts: seq<Action>) {
    |worlds| == |acts| + 1 && forall i :: 0 <= i < |acts| ==> Step(worlds[i], acts[i], worlds[i + 1])
  }

  /** A run from one world to another. */
  ghost predicate Leads(w: World, worlds: seq<World>, acts: seq<Action>, v: World) {
    Runs(worlds, acts) && worlds[0] == w && worlds[|acts|] == v
  }

  lemma LeadsNowhere(w: World)
    ensures Leads(w, [w], [], w)
  {
  }

  lemma LeadsOn(w: World, worlds: seq<World>, acts: seq<Action>, v: World, a: Action, u: World)
    requires Leads(w, worlds, acts, v) && Step(v, a, u)
    ensures Leads(w, worlds + [u], acts + [a], u)
  {
    hide Step;
  }

  lemma LeadsJoin(w: World, ws: seq<World>, as_: seq<Action>, v: World, vs: seq<World>, bs: seq<Action>, u: World)
    requires Leads(w, ws, as_, v) && Leads(v, vs, bs, u)
    ensures Leads(w, ws + vs[1..], as_ + bs, u)
    ensures (ws + vs[1..])[..|as_| + 1] == ws
  {
    hide Step;
  }

  /** The driver's own steps in order, with a round of writers in front of each. */
  ghost function Rounds(schedule: seq<seq<WorkerOp>>, own: seq<Action>): seq<Action> {
    if own == [] then [] else
      Rounds(schedule, own[..|own| - 1]) + [Work(Shift(schedule, |own| - 1)), own[|own| - 1]]
  }

  ghost function Serves(cmds: seq<Cmd>): (r: seq<Action>)
    ensures |r| == |cmds|
  {
    seq(|cmds|, i requires 0 <= i < |cmds| => Serve(cmds[i]))
  }

  ghost function Flushes(fds: seq<int>): (r: seq<Action>)
    ensures |r| == |fds|
  {
    seq(|fds|, i requires 0 <= i < |fds| => Flush(fds[i]))
  }

  ghost function Handles(evs: seq<KEvent>): (r: seq<Action>)
    ensures |r| == |evs|
  {
    seq(|evs|, i requires 0 <= i < |evs| => Handle(evs[i]))
  }

  ghost predicate EachOnce(order: seq<int>, fds: set<int>) {
    (forall fd :: fd in order <==> fd in fds) && forall i, j :: 0 <= i < j < |order| ==> order[i] != order[j]
  }

  /** Draining: the commands with writers in front of each, and once more in front of finding the ring empty. */
  ghost function DrainActs(schedule: seq<seq<WorkerOp>>, served: seq<Cmd>): seq<Action> {
    Rounds(schedule, Serves(served)) + [Work(Shift(schedule, |served|))]
  }

  /**
  A turn of the driver loop is this run and no other: every command, every descriptor with a backlog once, every
  event of the batch.
  */
  ghost predicate Turn(w: World, draining: seq<seq<WorkerOp>>, flushing: seq<seq<WorkerOp>>,
                       handling: seq<seq<WorkerOp>>, reports: seq<Report>,
                       served: seq<Cmd>, order: seq<int>, worlds: seq<World>, v: World)
  {
    var first, second := DrainActs(draining, served), Rounds(flushing, Flushes(order));
    && |first| + |second| < |worlds|
    && var drained, flushed := worlds[|first|], worlds[|first| + |second|];
       && w.s.ring <= served && drained.s.ring == [] && EachOnce(order, drained.s.pending.Keys)
       && Leads(w, worlds, first + second + Rounds(handling, Handles(Fetched(reports, flushed.s.fdGen))), v)
  }

  lemma TurnIs(w: World, draining: seq<seq<WorkerOp>>, flushing: seq<seq<WorkerOp>>, handling: seq<seq<WorkerOp>>,
               reports: seq<Report>, served: seq<Cmd>, order: seq<int>,
               ws: seq<World>, drained: World, us: seq<World>, flushed: World, vs: seq<World>, v: World)
    requires Leads(w, ws, DrainActs(draining, served), drained)
    requires Leads(drained, us, Rounds(flushing, Flushes(order)), flushed)
    requires Leads(flushed, vs, Rounds(handling, Handles(Fetched(reports, flushed.s.fdGen))), v)
    requires w.s.ring <= served && drained.s.ring == [] && EachOnce(order, drained.s.pending.Keys)
    ensures |us| > 0 && |vs| > 0
    ensures Turn(w, draining, flushing, handling, reports, served, order, ws + us[1..] + vs[1..], v)
  {
    hide Step, Fetched, Rounds, DrainActs, Flushes, Handles, EachOnce;
    LeadsJoin(w, ws, DrainActs(draining, served), drained, us, Rounds(flushing, Flushes(order)), flushed);
    LeadsJoin(w, ws + us[1..], DrainActs(draining, served) + Rounds(flushing, Flushes(order)), flushed,
              vs, Rounds(handling, Handles(Fetched(reports, flushed.s.fdGen))), v);
  }

  lemma RoundsOn(schedule: seq<seq<WorkerOp>>, own: seq<Action>, a: Action)
    ensures Rounds(schedule, own + [a]) == Rounds(schedule, own) + [Work(Shift(schedule, |own|))] + [a]
  {
    assert (own + [a])[..|own|] == own;
  }

  lemma NoRounds(schedule: seq<seq<WorkerOp>>)
    ensures Rounds(schedule, Serves([])) == Rounds(schedule, Flushes([])) == Rounds(schedule, Handles([])) == []
  {
  }

  lemma NoneYet(fds: set<int>)
    ensures EachOnce([], fds - fds)
  {
  }

  lemma OnceMore(order: seq<int>, all: set<int>, fds: set<int>, fd: int)
    requires EachOnce(order, all - fds) && fd in fds && fds <= all
    ensures EachOnce(order + [fd], all - (fds - {fd}))
  {
    var more := order + [fd];
    assert forall x {:trigger x in more} :: x in more <==> x in order || x == fd;
  }

  lemma ServeRound(schedule: seq<seq<WorkerOp>>, cmds: seq<Cmd>, c: Cmd)
    ensures Rounds(schedule, Serves(cmds + [c])) == DrainActs(schedule, cmds) + [Serve(c)]
  {
    assert Serves(cmds + [c]) == Serves(cmds) + [Serve(c)];
    RoundsOn(schedule, Serves(cmds), Serve(c));
  }

  lemma FlushRound(schedule: seq<seq<WorkerOp>>, fds: seq<int>, fd: int)
    ensures Rounds(schedule, Flushes(fds + [fd])) ==
              Rounds(schedule, Flushes(fds)) + [Work(Shift(schedule, |fds|))] + [Flush(fd)]
  {
    assert Flushes(fds + [fd]) == Flushes(fds) + [Flush(fd)];
    RoundsOn(schedule, Flushes(fds), Flush(fd));
  }

  lemma HandleRound(schedule: seq<seq<WorkerOp>>, evs: seq<KEvent>, ev: KEvent)
    ensures Rounds(schedule, Handles(evs + [ev])) ==
              Rounds(schedule, Handles(evs)) + [Work(Shift(schedule, |evs|))] + [Handle(ev)]
  {
    assert Handles(evs + [ev]) == Handles(evs) + [Handle(ev)];
    RoundsOn(schedule, Handles(evs), Handle(ev));
  }

  lemma NobodyWorks(s: State, conn: nat)
    requires conn !in s.conns
    ensures forall buf: Buf :: Written(s, conn, buf) == s
    ensures AskedToClose(s, conn) == s
  {
  }

  /** A run of commands and writers from `w`: every command of the ring is served or still to come, closes obeyed. */
  ghost predicate Draining(w: World, served: seq<Cmd>, worlds: seq<World>, acts: seq<Action>, v: World) {
    && Leads(w, worlds, acts, v) && w.s.ring <= served + v.s.ring
    && Obeyed(served, v.s.closed) && ClosedFor(w.s.closed, v.s.closed, DRAIN_CAUSES)
    && FewerOwners(w.s.fdGen, v.s.fdGen) && Grows(w.s.hist, v.s.hist)
    && v.s.conns.Keys == w.s.conns.Keys && v.s.accepts == w.s.accepts
  }

  lemma DrainStarts(w: World)
    ensures Draining(w, [], [w], [], w)
  {
    hide Step;
    LeadsNowhere(w);
    assert [] + w.s.ring == w.s.ring;
  }

  lemma DrainWork(w: World, served: seq<Cmd>, worlds: seq<World>, acts: seq<Action>, v: World,
                  ops: seq<WorkerOp>, u: World)
    requires Draining(w, served, worlds, acts, v) && Step(v, Work(ops), u)
    requires Accepts(v.s.hist, u.s.hist) && v.s.ring <= u.s.ring && u.s.conns.Keys == v.s.conns.Keys
    requires u.s.closed == v.s.closed && u.s.fdGen == v.s.fdGen && u.s.accepts == v.s.accepts
    ensures Draining(w, served, worlds + [u], acts + [Work(ops)], u)
  {
    hide Step, Leads, Obeyed, ClosedFor, FewerOwners, Grows, Accepts;
    LeadsOn(w, worlds, acts, v, Work(ops), u);
    GrowsOn(w.s.hist, v.s.hist, u.s.hist);
    assert served + v.s.ring <= served + u.s.ring;
  }

  lemma DrainServe(w: World, served: seq<Cmd>, worlds: seq<World>, acts: seq<Action>, v: World, c: Cmd, u: World)
    requires Draining(w, served, worlds, acts, v) && Step(v, Serve(c), u)
    requires Delivers(v.s.hist, u.s.hist) && FewerOwners(v.s.fdGen, u.s.fdGen)
    requires ClosedFor(v.s.closed, u.s.closed, DRAIN_CAUSES) && (c.Close? ==> c.generation in u.s.closed)
    requires v.s.ring != [] && c == v.s.ring[0] && u.s.ring == v.s.ring[1..]
    requires u.s.conns.Keys == v.s.conns.Keys && u.s.accepts == v.s.accepts
    ensures Draining(w, served + [c], worlds + [u], acts + [Serve(c)], u)
  {
    hide Step, Leads, Obeyed, ClosedFor, FewerOwners, Grows, Delivers;
    LeadsOn(w, worlds, acts, v, Serve(c), u);
    ObeyedNext(served, c, v.s.ring, v.s.closed, u.s.closed, DRAIN_CAUSES);
    ClosedOn(w.s.closed, v.s.closed, u.s.closed, DRAIN_CAUSES, DRAIN_CAUSES);
    FewerTrans(w.s.fdGen, v.s.fdGen, u.s.fdGen);
    GrowsOn(w.s.hist, v.s.hist, u.s.hist);
  }

  lemma DrainKept(w: World, served: seq<Cmd>, worlds: seq<World>, acts: seq<Action>, v: World)
    requires Draining(w, served, worlds, acts, v)
    ensures Leads(w, worlds, acts, v) && Obeyed(served, v.s.closed)
    ensures ClosedFor(w.s.closed, v.s.closed, DRAIN_CAUSES)
    ensures FewerOwners(w.s.fdGen, v.s.fdGen) && Grows(w.s.hist, v.s.hist)
    ensures v.s.conns.Keys == w.s.conns.Keys && v.s.accepts == w.s.accepts
  {
  }

  lemma DrainEnds(w: World, served: seq<Cmd>, worlds: seq<World>, acts: seq<Action>, v: World)
    requires Draining(w, served, worlds, acts, v) && Sound(v.s, {}) && v.s.ring == []
    ensures v.s.ringBytes == 0 && w.s.ring <= served
  {
    hide Sound, Leads, Obeyed, ClosedFor, FewerOwners, Grows;
    EmptyRing(v.s);
    assert served + [] == served;
  }

  // A round without writers.
  lemma NobodyOn(w: World)
    ensures Step(w, Work([]), w) && Accepts(w.s.hist, w.s.hist)
  {
  }

  // ---- What a step closes ----

  // Closing for a reason noted a moment ago is closing for that reason.
  lemma ClosesNoted(s: State, fd: int, why: Cause, t: State)
    requires fd in s.fdGen && Closes(s.(grounds := s.grounds + {(s.fdGen[fd], why)}), fd, why, t)
    ensures Closes(s, fd, why, t)
  {
    hide CanClose, Parked, Without, Released;
    assert s.grounds + {(s.fdGen[fd], why)} + {(s.fdGen[fd], why)} == s.grounds + {(s.fdGen[fd], why)};
  }

  lemma ClosesFor(s: State, fd: int, why: Cause, t: State)
    requires Closes(s, fd, why, t)
    ensures MayClose(fd, {why}, s.fdGen, t.fdGen, s.closed, t.closed) && t.hist == s.hist && t.accepts == s.accepts
  {
    hide Without, Released, CanClose, Parked;
  }

  lemma ServeCloses(w: World, c: Cmd, v: World)
    requires Sound(w.s, {}) && ServeStep(w, c, v)
    ensures ClosedFor(w.s.closed, v.s.closed, DRAIN_CAUSES) && FewerOwners(w.s.fdGen, v.s.fdGen)
    ensures Delivers(w.s.hist, v.s.hist)
  {
    hide Sound, Turned, Closes, SendFate, Without, FewerOwners, ClosedFor, MayClose, Released, DeliversFor, Delivers;
    var p := Popped(w.s);
    FewerWithout(w.s.fdGen, c.fd);
    NoneClosed(w.s.closed, DRAIN_CAUSES, 0);
    HistoryKept(c.generation, w.s.hist);
    DeliversAll(c.generation, w.s.hist, w.s.hist);
    if c.fd in p.fdGen && p.fdGen[c.fd] == c.generation {
      if c.Close? {
        ClosesFor(p, c.fd, Requested, v.s);
        CloseCounts(w.s, c.fd, {Requested}, v.s.fdGen, v.s.closed);
        ClosedMore(w.s.closed, v.s.closed, {Requested}, DRAIN_CAUSES);
      } else {
        var fate := SendFate(w.answers, p.pendingBytes, Queued(p.pending, c.fd), c.buf);
        SendCauses(w.answers, p.pendingBytes, Queued(p.pending, c.fd), c.buf);
        TurnedDelivers(fate, c.fd, p, v.s);
        DeliversAll(c.generation, p.hist, v.s.hist);
        CloseCounts(w.s, c.fd, if fate.Ended? then {fate.why} else {}, v.s.fdGen, v.s.closed);
        ClosedMore(w.s.closed, v.s.closed, if fate.Ended? then {fate.why} else {}, DRAIN_CAUSES);
      }
    }
  }

  lemma ServeKeeps(w: World, c: Cmd, v: World)
    requires ServeStep(w, c, v)
    ensures v.s.conns.Keys == w.s.conns.Keys && v.s.ring == w.s.ring[1..]
  {
    hide OthersSame, Queued, Without, Parked, SendFate, Wired;
    var p := Popped(w.s);
    if c.generation in p.conns {
      forall amount: nat | p.conns[c.generation].txPending >= amount
        ensures Released(p.conns, c.generation, amount).Keys == p.conns.Keys
      {
      }
    }
  }

  lemma ReadFor(w: World, fd: int, v: World)
    requires ReadStep(w, fd, v)
    ensures v.s.fdGen == w.s.fdGen || v.s.fdGen == Without(w.s.fdGen, fd)
  {
    hide CanClose, Parked, Without, Released;
  }

  lemma ClosedMore(before: map<nat, Cause>, after: map<nat, Cause>, some: set<Cause>, causes: set<Cause>)
    requires ClosedFor(before, after, some) && some <= causes
    ensures ClosedFor(before, after, causes)
  {
  }

  lemma FlushCloses(w: World, fd: int, v: World)
    requires Sound(w.s, {}) && FlushStep(w, fd, v)
    ensures ClosedFor(w.s.closed, v.s.closed, FLUSH_CAUSES)
    ensures v.s.fdGen == w.s.fdGen || v.s.fdGen == Without(w.s.fdGen, fd)
    ensures v.s.hist == w.s.hist || (fd in w.s.fdGen && DeliversFor(w.s.fdGen[fd], w.s.hist, v.s.hist))
    ensures OthersSame<PendingSend>(fd, w.s.pending, v.s.pending)
    ensures MayClose(fd, FLUSH_CAUSES, w.s.fdGen, v.s.fdGen, w.s.closed, v.s.closed)
  {
    hide Sound, Turned, FlushFate, Without, ClosedFor, MayClose, DeliversFor, OthersSame;
    NoneClosed(w.s.closed, FLUSH_CAUSES, 0);
    OnlyHere(fd, w.s.pending, 0, []);
    MayCloseMore(fd, {}, w.s.fdGen, w.s.fdGen, w.s.closed, w.s.closed);
    if fd in w.s.pending {
      var fate := FlushFate(w.answers, w.s.pending[fd].queue);
      var causes := if fate.Ended? then {fate.why} else {};
      FlushCauses(w.answers, w.s.pending[fd].queue);
      TurnedIn(fate, fd, w.s, v.s);
      TurnedDelivers(fate, fd, w.s, v.s);
      CloseCounts(w.s, fd, causes, v.s.fdGen, v.s.closed);
      ClosedMore(w.s.closed, v.s.closed, causes, FLUSH_CAUSES);
      MayCloseMore(fd, causes, w.s.fdGen, v.s.fdGen, w.s.closed, v.s.closed);
    }
  }

  lemma FlushKeeps(w: World, fd: int, v: World)
    requires FlushStep(w, fd, v)
    ensures v.s.conns.Keys == w.s.conns.Keys && v.s.accepts == w.s.accepts
  {
    hide OthersSame, Queued, Without, FlushFate;
  }

  lemma TurnedIn(fate: Fate, fd: int, s: State, t: State)
    requires Turned(fate, fd, s, t)
    ensures fd in s.fdGen
  {
  }

  lemma MayCloseMore(fd: int, causes: set<Cause>, fdGen: map<int, nat>, fdGen': map<int, nat>,
                     closed: map<nat, Cause>, closed': map<nat, Cause>)
    requires MayClose(fd, causes, fdGen, fdGen', closed, closed') || (fdGen' == fdGen && closed' == closed)
    requires causes <= FLUSH_CAUSES
    ensures MayClose(fd, FLUSH_CAUSES, fdGen, fdGen', closed, closed')
  {
  }

  lemma EventStep(start: map<nat, Cause>, since: nat, w: World, ev: KEvent, v: World)
    requires Sound(w.s, {}) && ClosedSince(start, w.s.closed, since, EVENT_CAUSES) && since <= w.s.accepts
    requires HandleStep(w, ev, v) && (ev.Listener? ==> Announced(w.s.closed, v.s.closed, w.s.accepts))
    requires forall g :: g in Mistaken(ev, w.s.fdGen) ==> since < g
    ensures ClosedSince(start, v.s.closed, since, EVENT_CAUSES)
  {
    hide Sound, Closes, FlushStep, Without, Arrived;
    if ev.Ready? {
      if ev.what.Writable? {
        FlushCloses(w, ev.fd, v);
      } else if v.s.closed != w.s.closed {
        var why := if ev.what.Readable? || w.s.fdGen[ev.fd] == ev.of then PeerGone else Misdirected;
        ClosesFor(w.s, ev.fd, why, v.s);
        CloseCounts(w.s, ev.fd, {why}, v.s.fdGen, v.s.closed);
        assert why == Misdirected ==> w.s.fdGen[ev.fd] in Mistaken(ev, w.s.fdGen);
      }
    }
  }

  // ---- The driver ----

  class Driver {
    // Shared with the workers: the command ring, its byte count, and the connections they hold.
    var txRing: seq<Cmd>
    var txRingBytes: nat
    var conns: Conns

    // Owned by the driver thread.
    var pending: map<int, PendingSend>
    var pendingBytes: nat
    var fdGen: map<int, nat>
    var peers: map<int, int>
    var accepts: nat

    // The stack's side: armed EVFILT_WRITE filters and the connection behind each open descriptor.
    var armed: set<int>
    var owner: map<int, nat>
    // What it will answer to the writes to come, and whether the reads to come find the end of the stream.
    var answers: seq<Answer>
    var eofs: seq<bool>
    // Descriptors whose last write was short, and how often each was offered bytes.
    ghost var full: set<int>
    ghost var tries: map<int, nat>

    // History: the bytes of each connection, facts that justify a close, closes, close-hook calls.
    ghost var hist: Histories
    ghost var grounds: set<(nat, Cause)>
    ghost var closed: map<nat, Cause>
    ghost var released: nat
    /** Connections closed by an event that was meant for an earlier one on their descriptor. */
    ghost var misdirected: set<nat>

    ghost function View(): State
      reads this
    {
      State(txRing, txRingBytes, conns, pending, pendingBytes, fdGen, accepts, hist, grounds, closed)
    }

    ghost function Here(): World
      reads this
    {
      World(View(), answers, eofs)
    }

    /** The driver's generation map is the stack's own, and every admission is live or released. */
    ghost predicate Agrees()
      reads this
    {
      Registered(owner, fdGen, peers, released, accepts)
    }

    /** The write filter is armed exactly for the descriptors with parked bytes. */
    ghost predicate Inv()
      reads this
    {
      Sound(View(), {}) && Agrees() && armed == pending.Keys
    }

    constructor (answers: seq<Answer>, eofs: seq<bool>)
      ensures Inv() && conns == map[] && fdGen == map[] && txRing == [] && accepts == 0
      ensures owner == map[] && closed == map[] && misdirected == {} && this.answers == answers && this.eofs == eofs
    {
      this.answers, this.eofs := answers, eofs;
      txRing, txRingBytes, conns := [], 0, map[];
      pending, pendingBytes, fdGen, peers, accepts := map[], 0, map[], map[], 0;
      armed, owner, full, tries := {}, map[], {}, map[];
      hist, grounds, closed, released, misdirected := map[], {}, map[], 0, {};
    }

    // ---- Workers ----

    /** Bytes that are not, or no longer, in the ring: the counter is exact again, and nothing saturates. */
    method ReleaseTxBytes(amount: nat)
      modifies this`txRingBytes
      ensures txRingBytes == SatSub(old(txRingBytes), amount)
      ensures old(txRingBytes) == RingBytes(txRing) + amount ==> txRingBytes == RingBytes(txRing)
    {
      txRingBytes := SatSub(txRingBytes, amount);
    }

    method TryEnqueueSend(fd: int, generation: nat, buf: Buf) returns (ok: bool)
      requires RingOk(txRing, txRingBytes)
      modifies this`txRing, this`txRingBytes
      ensures RingOk(txRing, txRingBytes)
      ensures ok <==> old(txRingBytes) + |buf| <= MAX_TX_BYTES && |old(txRing)| < TX_CAP
      ensures ok ==> txRingBytes == old(txRingBytes) + |buf|
      ensures txRing == old(txRing) + (if ok then [Send(fd, generation, buf)] else [])
      ensures !ok ==> txRing == old(txRing) && txRingBytes == old(txRingBytes)
    {
      if !TxBudgetAvailable(txRingBytes, |buf|) {
        return false;
      }
      txRingBytes := txRingBytes + |buf|;
      if |txRing| < TX_CAP {
        RingBytesPush(txRing, Send(fd, generation, buf));
        txRing := txRing + [Send(fd, generation, buf)];
        return true;
      }
      ReleaseTxBytes(|buf|);
      return false;
    }

    /** `Conn::poll_write`: accepts the whole buffer or nothing. */
    method PollWrite(conn: nat, buf: Buf) returns (r: Poll)
      requires Inv() && conn in conns
      modifies this`txRing, this`txRingBytes, this`conns, this`hist
      ensures Inv() && conns.Keys == old(conns.Keys) && hist.Keys == old(hist.Keys)
      ensures r == (
        if buf == [] then ReadyOk(0)
        else if |buf| > MAX_TX_BYTES then ReadyErr
        else if old(conns)[conn].txPending >= MAX_CONN_PENDING_BYTES then Pending
        else if old(txRingBytes) + |buf| <= MAX_TX_BYTES && |old(txRing)| < TX_CAP then ReadyOk(|buf|)
        else Pending)
      ensures r.ReadyOk? && buf != [] ==> conn in old(hist) && hist == Accepted(old(hist), conn, buf)
      ensures !(r.ReadyOk? && buf != []) ==> hist == old(hist) && conns == old(conns)
      ensures txRing == old(txRing) +
                (if r.ReadyOk? && buf != [] then [Send(old(conns)[conn].fd, conn, buf)] else [])
      ensures View() == Written(old(View()), conn, buf)
    {
      hide CommandsOk, CausesOk, OwnersOk, Intact, StreamsOk, RingOk, ParkedOk, ParkedCurrent, RingStream, PrefixesOk;
      HasHistory(conn, txRing, conns, hist);
      if buf == [] {
        return ReadyOk(0);
      }
      if |buf| > MAX_TX_BYTES {
        return ReadyErr;
      }
      if conns[conn].txPending >= MAX_CONN_PENDING_BYTES {
        return Pending;
      }
      var ok := TryEnqueueSend(conns[conn].fd, conn, buf);
      if !ok {
        return Pending;
      }
      PushSendKeeps(conn, buf, fdGen, pending, old(txRing), conns, hist, grounds);
      CounterKeeps(fdGen, old(txRing), conns, accepts, closed, grounds, conn, conns[conn].txPending + |buf|);
      conns := Counted(conns, conn, |buf|);
      hist := Accepted(hist, conn, buf);
      return ReadyOk(|buf|);
    }

    /** `Conn::poll_shutdown` and `Drop`: ask the driver to close, if the ring has room. */
    method PollShutdown(conn: nat) returns (ok: bool)
      requires Inv() && conn in conns
      modifies this`txRing, this`grounds
      ensures Inv() && (ok <==> |old(txRing)| < TX_CAP)
      ensures txRing == old(txRing) + (if ok then [Close(conns[conn].fd, conn)] else [])
      ensures View() == AskedToClose(old(View()), conn)
    {
      hide CommandsOk, CausesOk, OwnersOk, Intact, StreamsOk, ParkedOk, ParkedCurrent, RingStream, RingBytes;
      GroundsGrow(fdGen, txRing, conns, closed, grounds, {(conn, Requested)});
      PushCloseKeeps(conn, fdGen, pending, txRing, conns, hist, grounds);
      RingBytesPush(txRing, Close(conns[conn].fd, conn));
      grounds := grounds + {(conn, Requested)};
      ok := |txRing| < TX_CAP;
      if ok {
        txRing := txRing + [Close(conns[conn].fd, conn)];
      }
    }

    /** Workers run between two steps of the driver, in any order and number. */
    method Workers(ops: seq<WorkerOp>)
      requires Inv()
      modifies this`txRing, this`txRingBytes, this`conns, this`hist, this`grounds
      ensures Inv() && conns.Keys == old(conns.Keys) && Accepts(old(hist), hist)
      ensures old(txRing) <= txRing && |txRing| <= |old(txRing)| + |ops|
      ensures View() == Worked(old(View()), ops)
    {
      hide CommandsOk, CausesOk, OwnersOk, Intact, StreamsOk, ParkedOk, RingOk, PrefixesOk, ParkedCurrent, RingStream;
      hide Written, AskedToClose;
      for i := 0 to |ops|
        invariant Inv() && conns.Keys == old(conns.Keys) && Accepts(old(hist), hist)
        invariant old(txRing) <= txRing && |txRing| <= |old(txRing)| + i
        invariant View() == Worked(old(View()), ops[..i])
      {
        assert ops[..i + 1][..i] == ops[..i];
        if ops[i].conn !in conns {
          NobodyWorks(View(), ops[i].conn);
        }
        if ops[i].conn in conns {  // otherwise nobody holds such a connection yet
          match ops[i]
          case Write(conn, bytes) => var _ := PollWrite(conn, bytes);
          case Shutdown(conn) => var _ := PollShutdown(conn);
        }
      }
      assert ops[..|ops|] == ops;
    }

    // One batch of workers out of a schedule, if there is one left.
    method Interlude(schedule: seq<seq<WorkerOp>>, k: nat)
      requires Inv()
      modifies this`txRing, this`txRingBytes, this`conns, this`hist, this`grounds
      ensures Step(old(Here()), Work(Shift(schedule, k)), Here())
      ensures Inv() && conns.Keys == old(conns.Keys) && Accepts(old(hist), hist) && old(txRing) <= txRing
    {
      hide Sound;
      if k < |schedule| {
        Workers(schedule[k]);
      }
    }

    // ---- The stack, by contract ----

    method FfWrite(fd: int, buf: Buf) returns (a: Answer)
      requires fd in owner && owner[fd] in hist
      modifies this`hist, this`grounds, this`full, this`tries, this`answers
      ensures a == NextAnswer(old(answers), |buf|) && answers == Later(old(answers))
      ensures tries == Tried(old(tries), fd)
      ensures full == if a == Took(|buf|) then old(full) - {fd} else old(full) + {fd}
      ensures hist == if a.Took? then Wired(old(hist), owner[fd], buf[..a.n]) else old(hist)
      ensures grounds == old(grounds) + (if a.Broken? then {(owner[fd], WriteFailed)} else {})
    {
      a := TryAgain(false);
      if answers != [] {
        a := answers[0];
        answers := answers[1..];
      }
      if a.Took? && a.n > |buf| {
        a := Took(|buf|);
      }
      tries := Tried(tries, fd);
      full := if a == Took(|buf|) then full - {fd} else full + {fd};
      match a {
        case Took(n) => hist := Wired(hist, owner[fd], buf[..n]);
        case TryAgain(_) =>
        case Broken => grounds := grounds + {(owner[fd], WriteFailed)};
      }
    }

    // Whether a read finds the end of the stream; with nothing listed there are data, or none yet.
    method FfZcRecv() returns (eof: bool)
      modifies this`eofs
      ensures eof <==> old(eofs) != [] && old(eofs)[0]
      ensures eofs == Later(old(eofs))
    {
      eof := false;
      if eofs != [] {
        eof, eofs := eofs[0], eofs[1..];
      }
    }

    method FfClose(fd: int)
      modifies this`owner, this`armed
      ensures owner == Without(old(owner), fd) && armed == Disarm(old(armed), fd)
    {
      owner, armed := Without(owner, fd), Disarm(armed, fd);
    }

    method EnsureWriteEvent(fd: int)
      modifies this`armed
      ensures armed == old(armed) + {fd}
    {
      armed := armed + {fd};
    }

    method RemoveWriteEvent(fd: int)
      modifies this`armed
      ensures armed == Disarm(old(armed), fd)
    {
      armed := Disarm(armed, fd);
    }

    // ---- The driver thread ----

    /** Park at the back: a backlogged descriptor keeps first-in first-out order. */
    method ParkSend(fd: int, generation: nat, buf: Buf) returns (ok: bool)
      requires ParkedOk(pending, pendingBytes) && ParkedCurrent(pending, fdGen)
      requires fd in fdGen && fdGen[fd] == generation && buf != []
      modifies this`pending, this`pendingBytes, this`armed, this`grounds
      ensures ok <==> !OverLimit(old(pendingBytes), buf)
      ensures ParkedOk(pending, pendingBytes) && ParkedCurrent(pending, fdGen)
      ensures ok ==> pending == ParkBack(old(pending), fd, generation, buf) && armed == old(armed) + {fd}
      ensures ok ==> Parked(pending, fd) == Parked(old(pending), fd) + buf && grounds == old(grounds)
      ensures !ok ==> pending == old(pending) && pendingBytes == old(pendingBytes) && armed == old(armed)
      ensures !ok ==> grounds == old(grounds) + {(generation, OverBudget)}
    {
      hide Parked, TotalParked, Flatten;
      if OverLimit(pendingBytes, buf) {
        grounds := grounds + {(generation, OverBudget)};
        return false;
      }
      ParkBackKeeps(pending, pendingBytes, fd, generation, buf);
      if fd in pending {
        if pending[fd].generation == generation {
          pending := pending[fd := pending[fd].PushBack(buf)];
        } else {
          assert false;  // nothing is parked for another generation
        }
      } else {
        pending := pending[fd := PendingSend.New(generation, buf)];
      }
      pendingBytes := pendingBytes + |buf|;
      EnsureWriteEvent(fd);
      return true;
    }

    /** Put an in-flight buffer back in front after a short write. */
    method ParkSendFront(fd: int, generation: nat, buf: Buf) returns (ok: bool)
      requires ParkedOk(pending, pendingBytes) && ParkedCurrent(pending, fdGen)
      requires fd in fdGen && fdGen[fd] == generation && buf != []
      modifies this`pending, this`pendingBytes, this`armed, this`grounds
      ensures ok <==> !OverLimit(old(pendingBytes), buf)
      ensures ParkedOk(pending, pendingBytes) && ParkedCurrent(pending, fdGen)
      ensures ok ==> pending == ParkFront(old(pending), fd, generation, buf) && armed == old(armed) + {fd}
      ensures ok ==> Parked(pending, fd) == buf + Parked(old(pending), fd) && grounds == old(grounds)
      ensures !ok ==> pending == old(pending) && pendingBytes == old(pendingBytes) && armed == old(armed)
      ensures !ok ==> grounds == old(grounds) + {(generation, OverBudget)}
    {
      hide Parked, TotalParked, Flatten;
      if OverLimit(pendingBytes, buf) {
        grounds := grounds + {(generation, OverBudget)};
        return false;
      }
      ParkFrontKeeps(pending, pendingBytes, fd, generation, buf);
      if fd in pending {
        if pending[fd].generation == generation {
          pending := pending[fd := pending[fd].PushFront(buf)];
        } else {
          assert false;  // nothing is parked for another generation
        }
      } else {
        pending := pending[fd := PendingSend.New(generation, buf)];
      }
      pendingBytes := pendingBytes + |buf|;
      EnsureWriteEvent(fd);
      return true;
    }

    method PopPendingSendWithMeta(fd: int) returns (item: Option<(nat, Buf)>)
      requires ParkedOk(pending, pendingBytes) && ParkedCurrent(pending, fdGen)
      modifies this`pending, this`pendingBytes
      ensures ParkedOk(pending, pendingBytes) && ParkedCurrent(pending, fdGen)
      ensures item.None? <==> fd !in old(pending)
      ensures item.None? ==> pending == old(pending) && pendingBytes == old(pendingBytes)
      ensures item.Some? ==> fd in fdGen && item.value.0 == fdGen[fd] && item.value.1 != []
      ensures item.Some? ==> Parked(old(pending), fd) == item.value.1 + Parked(pending, fd)
      ensures item.Some? ==> pendingBytes + |item.value.1| == old(pendingBytes)
      ensures forall f :: f != fd ==>
                (f in pending <==> f in old(pending)) && (f in pending ==> pending[f] == old(pending)[f])
      ensures item.Some? ==> old(pending)[fd].queue != [] && item.value.1 == old(pending)[fd].queue[0]
      ensures item.Some? ==> Queued(pending, fd) == old(pending)[fd].queue[1..]
    {
      hide Parked, TotalParked, Flatten;
      if fd !in pending {
        return None;
      }
      PopParkedKeeps(pending, pendingBytes, fd);
      var entry := pending[fd];
      var buf := entry.queue[0];
      pendingBytes := SatSub(pendingBytes, |buf|);
      pending := if |entry.queue| == 1 then Without(pending, fd) else pending[fd := entry.Pop()];
      return Some((entry.generation, buf));
    }

    method FetchSub(g: nat, amount: nat)
      requires g in conns && conns[g].txPending >= amount
      modifies this`conns
      ensures conns == Released(old(conns), g, amount)
    {
      conns := conns[g := conns[g].(txPending := conns[g].txPending - amount)];
    }

    method ClearPendingSend(fd: int, ghost g: nat)
      requires ParkedOk(pending, pendingBytes)
      requires g in conns && conns[g].txPending >= |Parked(pending, fd)|
      requires fd in pending ==> pending[fd].generation == g
      modifies this`pending, this`pendingBytes, this`conns, this`armed
      ensures pending == Without(old(pending), fd)
      ensures pendingBytes == SatSub(old(pendingBytes), |Parked(old(pending), fd)|)
      ensures conns == Released(old(conns), g, |Parked(old(pending), fd)|)
      ensures armed == if fd in old(pending) then Disarm(old(armed), fd) else old(armed)
    {
      hide TotalParked, Flatten;
      if fd in pending {
        ClearKeeps(pending, pendingBytes, fd);
        var entry := pending[fd];
        pending := Without(pending, fd);
        pendingBytes := SatSub(pendingBytes, entry.bytes);
        FetchSub(entry.generation, entry.bytes);
        RemoveWriteEvent(fd);
      } else {
        assert Without(pending, fd) == pending;
        assert conns == conns[g := conns[g].(txPending := conns[g].txPending - 0)];
      }
    }

    /** The close hook runs once for each admitted connection. */
    method ReleasePeer(fd: int)
      modifies this`peers, this`released
      ensures peers == Without(old(peers), fd)
      ensures released == old(released) + (if fd in old(peers) then 1 else 0)
    {
      if fd in peers {
        peers := Without(peers, fd);
        released := released + 1;
      } else {
        assert Without(peers, fd) == peers;
      }
    }

    // The first half of `close_fd`: the descriptor goes back to the stack.
    method Detach(fd: int, ghost why: Cause)
      requires fd in fdGen
      modifies this`owner, this`armed, this`fdGen, this`peers, this`released, this`closed
      ensures owner == Without(old(owner), fd) && armed == Disarm(old(armed), fd)
      ensures fdGen == Without(old(fdGen), fd) && closed == old(closed)[old(fdGen)[fd] := why]
      ensures peers == Without(old(peers), fd)
      ensures released == old(released) + (if fd in old(peers) then 1 else 0)
    {
      hide Without, Disarm;
      closed := closed[fdGen[fd] := why];
      FfClose(fd);
      fdGen := Without(fdGen, fd);
      ReleasePeer(fd);
    }

    method CloseFd(fd: int, ghost why: Cause)
      requires Sound(View(), {fd}) && Agrees() && CanClose(View(), fd, why)
      requires armed - {fd} == pending.Keys - {fd}
      modifies this`owner, this`armed, this`fdGen, this`peers, this`released, this`closed
      modifies this`pending, this`pendingBytes, this`conns
      ensures Inv() && conns.Keys == old(conns.Keys) && View() == Closed(old(View()), fd, why)
      ensures fdGen == Without(old(fdGen), fd) && pending == Without(old(pending), fd)
      ensures closed == old(closed)[old(fdGen)[fd] := why]
    {
      hide Sound, RingStream, Parked, ParkedOk, ParkedCurrent, Without, Disarm, Released;
      CloseSound(View(), fd, why);
      WithoutKeys(fdGen, peers, fd);
      Disarmed(armed, pending, fd);
      ghost var g := fdGen[fd];
      Detach(fd, why);
      ClearPendingSend(fd, g);
    }

    /**
    One live `Cmd::Send`: the connection meets the fate that the backlog, the parking budget and the answer of the
    stack decide. The stack is asked only if nothing is parked.
    */
    method ServeSend(fd: int, generation: nat, buf: Buf)
      requires Holding(View(), fd, Parked(pending, fd) + buf) && fd in fdGen && fdGen[fd] == generation && buf != []
      requires Agrees() && armed == pending.Keys
      modifies this`owner, this`armed, this`fdGen, this`peers, this`released, this`closed, this`full, this`tries
      modifies this`pending, this`pendingBytes, this`conns, this`hist, this`grounds, this`answers
      ensures Inv() && tries == if fd in old(pending) then old(tries) else Tried(old(tries), fd)
      ensures var fate := SendFate(old(answers), old(pendingBytes), Queued(old(pending), fd), buf);
              answers == fate.left && Turned(fate, fd, old(View()), View())
    {
      hide Holding, Sound, RingStream, Parked, Without, OthersSame, Tried, Registered, Turned, SendFate;
      HoldingParts(View(), fd, Parked(pending, fd) + buf);
      QueuedMeans(fd, pending, pendingBytes);
      if fd in pending {
        BackSend(fd, generation, buf);
      } else {
        FastSend(fd, generation, buf);
      }
    }

    method BackSend(fd: int, generation: nat, buf: Buf)
      requires Holding(View(), fd, Parked(pending, fd) + buf) && fd in fdGen && fdGen[fd] == generation && buf != []
      requires Agrees() && armed == pending.Keys && fd in pending
      modifies this`owner, this`armed, this`fdGen, this`peers, this`released, this`closed
      modifies this`pending, this`pendingBytes, this`conns, this`grounds
      ensures Inv()
      ensures var fate := SendFate(answers, old(pendingBytes), Queued(old(pending), fd), buf);
              answers == fate.left && Turned(fate, fd, old(View()), View())
    {
      hide Sound, ParkedOk, ParkedCurrent, Parked, RingStream, Without, CanClose, Holding, Released, OthersSame;
      hide Queued, ParkBack, Wired;
      HoldingParts(View(), fd, Parked(pending, fd) + buf);
      QueuedMeans(fd, pending, pendingBytes);
      OnlyHere(fd, pending, generation, buf);
      WiredNone(hist, generation);
      var ok := ParkSend(fd, generation, buf);
      if ok {
        ParkBackOthers(fd, old(pending), generation, buf);
        ParkHolding(old(View()), fd, Parked(pending, fd), pending, pendingBytes);
        SettleHolding(View(), fd);
      } else {
        GroundsHolding(old(View()), fd, Parked(pending, fd) + buf, {(generation, OverBudget)});
        HoldingCanClose(View(), fd, Parked(pending, fd) + buf, OverBudget);
        CloseFd(fd, OverBudget);
      }
    }

    // Offer a buffer in hand to the stack; what it takes leaves the counter of the connection.
    method Offer(fd: int, generation: nat, buf: Buf, ghost rest: Buf) returns (a: Answer)
      requires Holding(View(), fd, buf + rest) && fd in fdGen && fdGen[fd] == generation && owner == fdGen
      modifies this`hist, this`grounds, this`full, this`tries, this`conns, this`answers
      ensures a == NextAnswer(old(answers), |buf|) && answers == Later(old(answers))
      ensures tries == Tried(old(tries), fd)
      ensures full == if a == Took(|buf|) then old(full) - {fd} else old(full) + {fd}
      ensures Holding(View(), fd, Left(buf, a) + rest) && conns.Keys == old(conns.Keys)
      ensures generation in old(hist)
      ensures hist == Wired(old(hist), generation, if a.Took? then buf[..a.n] else [])
      ensures grounds == old(grounds) + (if a.Broken? then {(generation, WriteFailed)} else {})
    {
      hide Holding, Released, Wired, RingStream, Parked, NextAnswer;
      HoldingParts(View(), fd, buf + rest);
      WiredNone(hist, generation);
      a := FfWrite(fd, buf);
      if a.Took? {
        TakeHolding(old(View()), fd, buf, a.n, rest);
        FetchSub(generation, a.n);
        assert View() == TookFrom(old(View()), fd, buf[..a.n]);
      } else {
        GroundsHolding(old(View()), fd, buf + rest, if a.Broken? then {(generation, WriteFailed)} else {});
      }
    }

    // Close an open connection that has nothing in the driver's hands, for a reason that was observed.
    method CloseOpen(fd: int, ghost why: Cause)
      requires Inv() && fd in fdGen && (fdGen[fd], why) in grounds
      modifies this`owner, this`armed, this`fdGen, this`peers, this`released, this`closed
      modifies this`pending, this`pendingBytes, this`conns
      ensures Inv() && conns.Keys == old(conns.Keys)
      ensures fdGen == Without(old(fdGen), fd) && pending == Without(old(pending), fd)
      ensures closed == old(closed)[old(fdGen)[fd] := why] && Closes(old(View()), fd, why, View())
    {
      hide Sound, RingStream, Parked, CanClose, Without, Released;
      OpenCanClose(View(), fd, why);
      assert grounds + {(fdGen[fd], why)} == grounds;
      CloseFd(fd, why);
    }

    // Put what the stack did not take back in front.
    method Repark(fd: int, generation: nat, buf: Buf) returns (ok: bool)
      requires Holding(View(), fd, buf + Parked(pending, fd)) && fd in fdGen && fdGen[fd] == generation && buf != []
      requires Agrees() && armed - {fd} == pending.Keys - {fd}
      modifies this`pending, this`pendingBytes, this`armed, this`grounds
      ensures ok <==> !OverLimit(old(pendingBytes), buf)
      ensures ok ==> Inv() && pending == ParkFront(old(pending), fd, generation, buf) && grounds == old(grounds)
      ensures !ok ==> pendingBytes == old(pendingBytes) && grounds == old(grounds) + {(generation, OverBudget)}
      ensures !ok ==> Sound(View(), {fd}) && CanClose(View(), fd, OverBudget)
      ensures !ok ==> pending == old(pending) && armed == old(armed)
    {
      hide Holding, Sound, Parked, ParkedOk, ParkedCurrent, RingStream, CanClose;
      HoldingParts(View(), fd, buf + Parked(pending, fd));
      ok := ParkSendFront(fd, generation, buf);
      if ok {
        ParkHolding(old(View()), fd, Parked(pending, fd), pending, pendingBytes);
        SettleHolding(View(), fd);
        assert pending.Keys == old(pending.Keys) + {fd};
        assert armed == old(armed) + {fd} == (old(armed) - {fd}) + {fd};
      } else {
        GroundsHolding(old(View()), fd, buf + Parked(pending, fd), {(generation, OverBudget)});
        HoldingCanClose(View(), fd, buf + Parked(pending, fd), OverBudget);
      }
    }

    // A fatal write error: the buffer is dropped and the descriptor closed.
    method Fail(fd: int, generation: nat, buf: Buf)
      requires Holding(View(), fd, buf + Parked(pending, fd)) && fd in fdGen && fdGen[fd] == generation
      requires (generation, WriteFailed) in grounds
      requires Agrees() && armed - {fd} == pending.Keys - {fd}
      modifies this`owner, this`armed, this`fdGen, this`peers, this`released, this`closed
      modifies this`pending, this`pendingBytes, this`conns
      ensures Inv() && conns.Keys == old(conns.Keys)
      ensures fdGen == Without(old(fdGen), fd) && pending == Without(old(pending), fd)
      ensures closed == old(closed)[generation := WriteFailed]
    {
      hide Holding, Sound, Parked, RingStream, CanClose, Released, Without;
      HoldingParts(View(), fd, buf + Parked(pending, fd));
      LoseHolding(View(), fd, buf, WriteFailed);
      FetchSub(generation, |buf|);
      CloseFd(fd, WriteFailed);
    }

    method FastSend(fd: int, generation: nat, buf: Buf)
      requires Holding(View(), fd, Parked(pending, fd) + buf) && fd in fdGen && fdGen[fd] == generation && buf != []
      requires Agrees() && armed == pending.Keys && fd !in pending
      modifies this`owner, this`armed, this`fdGen, this`peers, this`released, this`closed, this`full, this`tries
      modifies this`pending, this`pendingBytes, this`conns, this`hist, this`grounds, this`answers
      ensures Inv() && tries == Tried(old(tries), fd)
      ensures var fate := SendFate(old(answers), old(pendingBytes), Queued(old(pending), fd), buf);
              answers == fate.left && Turned(fate, fd, old(View()), View())
    {
      hide Holding, Sound, RingStream, CanClose, Released, Without, Flatten, OthersSame, Tried, ParkFront, Registered;
      hide Wired, Moved, NextAnswer, Parked;
      Unparked(fd, pending, buf);
      OwnerIs(owner, fdGen, peers, released, accepts);
      var a := Offer(fd, generation, buf, Parked(pending, fd));
      label offered:
      AfterFastOffer(fd, generation, buf, a);
      ghost var fate := SendFate(old(answers), old(pendingBytes), Queued(old(pending), fd), buf);
      Rebased(fate, fd, old(View()), old@offered(View()), View());
    }

    // What the stack did not take is parked if there is room.
    method AfterFastOffer(fd: int, generation: nat, buf: Buf, a: Answer)
      requires a.Took? ==> a.n <= |buf|
      requires Holding(View(), fd, Left(buf, a) + Parked(pending, fd)) && fd in fdGen && fdGen[fd] == generation
      requires buf != [] && Agrees() && armed == pending.Keys && fd !in pending
      requires a.Broken? ==> (generation, WriteFailed) in grounds
      modifies this`owner, this`armed, this`fdGen, this`peers, this`released, this`closed
      modifies this`pending, this`pendingBytes, this`conns, this`grounds
      ensures Inv()
      ensures var fate := AnswerFate(a, buf, old(pendingBytes), answers);
              && Moved(fate, fd, old(View()), View())
              && grounds == old(grounds) + (if fate.Ended? && !a.Broken? then {(generation, fate.why)} else {})
    {
      hide Holding, Sound, RingStream, CanClose, Released, Without, Flatten, OthersSame, ParkFront, Registered, Queued;
      OnlyHere(fd, pending, generation, Left(buf, a));
      QueuedNone(fd, pending);
      if a.Took? && a.n == |buf| {
        assert buf[a.n..] + Parked(pending, fd) == Parked(pending, fd);
        SettleHolding(View(), fd);
      } else if a.Took? {
        var ok := Repark(fd, generation, buf[a.n..]);
        if !ok {
          CloseFd(fd, OverBudget);
        }
      } else if a.TryAgain? {
        var ok := Repark(fd, generation, buf);
        if !ok {
          CloseFd(fd, OverBudget);
        }
      } else {
        Fail(fd, generation, buf);
      }
    }

    /**
    Retry what is parked on `fd`, oldest first, until the stack takes less than a whole buffer or nothing is left.
    Other descriptors are not touched, and the connection is closed only for a fatal error or a stall.
    */
    method FlushWrite(fd: int)
      requires Inv()
      modifies this`owner, this`armed, this`fdGen, this`peers, this`released, this`closed, this`full, this`tries
      modifies this`pending, this`pendingBytes, this`conns, this`hist, this`grounds, this`answers
      ensures Inv() && FlushStep(old(Here()), fd, Here())
      ensures fd in pending ==> fd in full && fd in old(pending)
      ensures fd in old(pending) ==> TriesOf(tries, fd) > TriesOf(old(tries), fd)
      ensures OthersSame<nat>(fd, old(tries), tries) && Disarm(full, fd) == Disarm(old(full), fd)
    {
      hide Holding, Sound, RingStream, CanClose, Released, Without, Flatten, Parked, ParkedOk, ParkedCurrent;
      hide Registered, OthersSame, Disarm, Tried, Turned, FlushFate;
      SoundParts(View(), fd);
      if fd !in pending {
        SameTries(fd, tries);
        StopFlushing(fd);
        return;
      }
      FlushParked(fd);
    }

    method FlushParked(fd: int)
      requires Inv() && fd in pending
      modifies this`owner, this`armed, this`fdGen, this`peers, this`released, this`closed, this`full, this`tries
      modifies this`pending, this`pendingBytes, this`conns, this`hist, this`grounds, this`answers
      ensures Inv() && FlushStep(old(Here()), fd, Here())
      ensures fd in pending ==> fd in full
      ensures TriesOf(tries, fd) > TriesOf(old(tries), fd)
      ensures OthersSame<nat>(fd, old(tries), tries) && Disarm(full, fd) == Disarm(old(full), fd)
    {
      hide Holding, Sound, RingStream, CanClose, Released, Without, Flatten, Parked, ParkedOk, ParkedCurrent;
      hide Registered, OthersSame, Disarm, Tried, Turned, FlushFate, Wired, Queued;
      ghost var done: Buf := [];
      ghost var w := old(View());
      FlushBegins(fd, View(), answers);
      ParkedQueue(fd, View());
      SameTries(fd, tries);
      ghost var begun := false;
      while fd in pending
        invariant Sound(View(), {}) && Agrees() && armed - {fd} == pending.Keys - {fd}
        invariant Flushing(fd, done, w, old(answers), View(), answers)
        invariant OthersSame<nat>(fd, old(tries), tries) && Disarm(full, fd) == Disarm(old(full), fd)
        invariant if begun then TriesOf(tries, fd) > TriesOf(old(tries), fd) else tries == old(tries) && fd in pending
        decreases |Queued(pending, fd)|
      {
        label before:
        ParkedQueue(fd, View());
        ghost var first := pending[fd].queue[0];
        var more := FlushOne(fd);
        FlushedOne(fd, old(tries), old@before(tries));
        begun := true;
        if !more {
          FlushEnds(fd, done, w, old(answers), old@before(View()), old@before(answers), View(), answers);
          return;
        }
        FlushGoesOn(fd, done, w, old(answers), old@before(View()), old@before(answers), View(), answers, first);
        done := done + first;
      }
      label flushed:
      FlushDone(fd, done, w, old(answers), View(), answers);
      StopFlushing(fd);
    }

    // Nothing is parked any more: no further wakeups for this descriptor.
    method StopFlushing(fd: int)
      requires Sound(View(), {}) && Agrees() && armed - {fd} == pending.Keys - {fd} && fd !in pending
      modifies this`armed
      ensures Inv()
    {
      hide Sound, Registered;
      RemoveWriteEvent(fd);
      assert pending.Keys - {fd} == pending.Keys;
    }

    // Pop, write and, if need be, put back one buffer; false when the loop must stop.
    method FlushOne(fd: int) returns (more: bool)
      requires Sound(View(), {}) && Agrees() && armed - {fd} == pending.Keys - {fd}
      requires fd in pending && pending[fd].queue != []
      modifies this`owner, this`armed, this`fdGen, this`peers, this`released, this`closed, this`full, this`tries
      modifies this`pending, this`pendingBytes, this`conns, this`hist, this`grounds, this`answers
      ensures tries == Tried(old(tries), fd) && Disarm(full, fd) == Disarm(old(full), fd)
      ensures answers == Later(old(answers))
      ensures more <==> NextAnswer(old(answers), |old(pending)[fd].queue[0]|) == Took(|old(pending)[fd].queue[0]|)
      ensures more ==>
                && Sound(View(), {}) && Agrees() && armed - {fd} == pending.Keys - {fd}
                && OneTaken(fd, old(View()), View(), old(pending)[fd].queue[0])
      ensures !more ==> Inv() && (fd in pending ==> fd in full)
      ensures !more ==>
                var queue := old(pending)[fd].queue;
                var fate := BlockedFate(NextAnswer(old(answers), |queue[0]|), queue[0], queue[1..], answers);
                Turned(fate, fd, old(View()), View())
    {
      hide Left, Without, Holding, Sound, RingStream, CanClose, Released, Flatten, Parked, ParkedOk, ParkedCurrent;
      hide Turned, Moved, NextAnswer, Registered, Tried, Queued, OneTaken, Disarm, Offered, BlockedFate;
      Rearmed(full, fd);
      var generation, buf, a := TakeAndOffer(fd);
      label offered:
      more := AfterOffer(fd, generation, buf, a);
      if more {
        TakenWhole(fd, old(View()), View(), buf, a);
      } else {
        BlockedTurn(fd, old(View()), old@offered(View()), View(), buf, a, answers);
      }
    }

    method TakeAndOffer(fd: int) returns (generation: nat, buf: Buf, a: Answer)
      requires Sound(View(), {}) && Agrees() && fd in pending && pending[fd].queue != []
      modifies this`pending, this`pendingBytes, this`conns, this`hist, this`grounds, this`answers
      modifies this`full, this`tries
      ensures fd in fdGen && generation == fdGen[fd] && buf != [] && buf == old(pending)[fd].queue[0]
      ensures a == NextAnswer(old(answers), |buf|) && answers == Later(old(answers))
      ensures tries == Tried(old(tries), fd)
      ensures full == if a == Took(|buf|) then old(full) - {fd} else old(full) + {fd}
      ensures Holding(View(), fd, Left(buf, a) + Parked(pending, fd))
      ensures a.Broken? ==> (generation, WriteFailed) in grounds
      ensures pending.Keys - {fd} == old(pending.Keys) - {fd} && pendingBytes + |buf| <= MAX_PENDING_SEND_BYTES
      ensures Offered(fd, old(View()), View(), buf, a)
    {
      hide Left, Without, Holding, Sound, RingStream, CanClose, Released, Flatten, Parked, ParkedOk, ParkedCurrent;
      hide NextAnswer, Wired, Registered, Tried, Queued, OthersSame;
      OwnerIs(owner, fdGen, peers, released, accepts);
      generation, buf := TakeParked(fd);
      a := Offer(fd, generation, buf, Parked(pending, fd));
    }

    method AfterOffer(fd: int, generation: nat, buf: Buf, a: Answer) returns (more: bool)
      requires (a.Took? ==> a.n <= |buf|) && buf != [] && fd in fdGen && fdGen[fd] == generation
      requires Holding(View(), fd, Left(buf, a) + Parked(pending, fd))
      requires a.Broken? ==> (generation, WriteFailed) in grounds
      requires Agrees() && armed - {fd} == pending.Keys - {fd}
      requires pendingBytes + |buf| <= MAX_PENDING_SEND_BYTES
      modifies this`owner, this`armed, this`fdGen, this`peers, this`released, this`closed
      modifies this`pending, this`pendingBytes, this`conns, this`grounds
      ensures more <==> a == Took(|buf|)
      ensures more ==> Sound(View(), {}) && Agrees() && View() == old(View()) && armed == old(armed)
      ensures !more ==> Inv()
      ensures !more ==>
                && Moved(BlockedFate(a, buf, Queued(old(pending), fd), answers), fd, old(View()), View())
                && grounds == old(grounds) + (if a == TryAgain(true) then {(generation, Stalled)} else {})
    {
      hide Holding, Sound, RingStream, CanClose, Released, Flatten, Parked, ParkedOk, ParkedCurrent, OthersSame;
      hide Without, Registered, Queued;
      if a.Took? && a.n == |buf| {
        assert buf[a.n..] + Parked(pending, fd) == Parked(pending, fd);
        SettleHolding(View(), fd);
        return true;
      } else if a.Took? {
        PutBack(fd, generation, buf[a.n..]);
      } else if a.TryAgain? {
        PutBack(fd, generation, buf);
        if a.stalled {
          label parked:
          Stall(fd);
          OthersOn<PendingSend>(fd, old(pending), old@parked(pending), pending);
        }
      } else {
        OnlyHere(fd, pending, generation, buf);
        Fail(fd, generation, buf);
      }
      return false;
    }

    // No progress for ten seconds.
    method Stall(fd: int)
      requires Inv() && fd in fdGen
      modifies this`owner, this`armed, this`fdGen, this`peers, this`released, this`closed
      modifies this`pending, this`pendingBytes, this`conns, this`grounds
      ensures Inv() && conns.Keys == old(conns.Keys) && OthersSame<PendingSend>(fd, old(pending), pending)
      ensures fdGen == Without(old(fdGen), fd) && closed == old(closed)[old(fdGen)[fd] := Stalled]
      ensures Queued(pending, fd) == [] && grounds == old(grounds) + {(old(fdGen)[fd], Stalled)}
    {
      hide Sound, Without, OthersSame, Registered, Closes, Queued;
      OnlyHere(fd, pending, 0, []);
      Note(fd, Stalled);
      CloseOpen(fd, Stalled);
    }

    // Re-parking what was popped a moment ago never trips the byte budget.
    method PutBack(fd: int, generation: nat, buf: Buf)
      requires Holding(View(), fd, buf + Parked(pending, fd)) && fd in fdGen && fdGen[fd] == generation && buf != []
      requires Agrees() && armed - {fd} == pending.Keys - {fd}
      requires pendingBytes + |buf| <= MAX_PENDING_SEND_BYTES
      modifies this`pending, this`pendingBytes, this`armed, this`grounds
      ensures Inv() && grounds == old(grounds)
      ensures OthersSame<PendingSend>(fd, old(pending), pending)
      ensures Queued(pending, fd) == [buf] + Queued(old(pending), fd)
    {
      hide Holding, Sound, RingStream, CanClose, Parked, Registered, OthersSame, Queued, ParkFront;
      OnlyHere(fd, pending, generation, buf);
      var ok := Repark(fd, generation, buf);
      if !ok {
        assert false;
      }
    }

    method TakeParked(fd: int) returns (generation: nat, buf: Buf)
      requires Sound(View(), {}) && fd in pending
      modifies this`pending, this`pendingBytes
      ensures fd in fdGen && generation == fdGen[fd] && buf != []
      ensures Holding(View(), fd, buf + Parked(pending, fd))
      ensures OthersSame<PendingSend>(fd, old(pending), pending)
      ensures pending.Keys - {fd} == old(pending.Keys) - {fd}
      ensures pendingBytes + |buf| == old(pendingBytes) <= MAX_PENDING_SEND_BYTES
      ensures old(pending)[fd].queue != [] && buf == old(pending)[fd].queue[0]
      ensures Queued(pending, fd) == old(pending)[fd].queue[1..]
    {
      hide Holding, Sound, RingStream, Flatten, Parked, TotalParked, ParkedCurrent;
      SoundParts(View(), fd);
      HoldParked(View(), fd);
      var item := PopPendingSendWithMeta(fd);
      generation, buf := item.value.0, item.value.1;
      if fd !in fdGen || fdGen[fd] != generation {
        assert false;  // what is parked belongs to the connection that is open
      }
      ParkHolding(old(View()), fd, Parked(old(pending), fd), pending, pendingBytes);
    }

    method PopCmd() returns (c: Cmd)
      requires Inv() && txRing != []
      modifies this`txRing, this`txRingBytes
      ensures c == old(txRing)[0] && c.generation in conns && View() == Popped(old(View()))
      ensures txRing == old(txRing)[1..] && Agrees() && armed == pending.Keys
      ensures c.Send? && Live(c, fdGen) ==> Holding(View(), c.fd, Parked(pending, c.fd) + c.buf)
      ensures c.Send? ==> c.buf != []
      ensures !(c.Send? && Live(c, fdGen)) ==> Sound(View(), {})
      ensures c.Close? ==> (c.generation, Requested) in grounds
      ensures c.Send? ==> conns[c.generation].txPending >= |c.buf| + |RingStream(txRing, c.generation)|
      ensures conns[c.generation].fd == c.fd
    {
      hide Sound, Holding, RingStream, Parked;
      PopSound(View());
      c := txRing[0];
      txRing := txRing[1..];
      if c.Send? {
        ReleaseTxBytes(|c.buf|);
      }
    }

    // One command off the ring. A stale send only settles its own counter; a stale close does nothing.
    method ServeCmd(c: Cmd, ghost w: World)
      requires w.s.ring != [] && c == w.s.ring[0] && Here() == w.(s := Popped(w.s))
      requires Agrees() && armed == pending.Keys && c.generation in conns && conns[c.generation].fd == c.fd
      requires c.Send? && Live(c, fdGen) ==> Holding(View(), c.fd, Parked(pending, c.fd) + c.buf)
      requires !(c.Send? && Live(c, fdGen)) ==> Sound(View(), {})
      requires c.Send? ==>
                 c.buf != [] && conns[c.generation].txPending >= |c.buf| + |RingStream(txRing, c.generation)|
      requires c.Close? ==> (c.generation, Requested) in grounds
      modifies this`owner, this`armed, this`fdGen, this`peers, this`released, this`closed, this`full, this`tries
      modifies this`pending, this`pendingBytes, this`conns, this`hist, this`grounds, this`answers
      ensures Inv() && ServeStep(w, c, Here())
      ensures tries == if c.Send? && Live(c, old(fdGen)) && c.fd !in old(pending) then Tried(old(tries), c.fd)
                       else old(tries)
      ensures c.Close? ==> c.generation in closed
    {
      hide Sound, Holding, RingStream, Parked, CanClose, Released, Without, Popped, Closes, Turned, SendFate;
      hide Registered, Tried, Live;
      LiveMeans(c, fdGen);
      if Live(c, fdGen) {
        if c.Send? {
          ServeSend(c.fd, c.generation, c.buf);
        } else {
          CloseOpen(c.fd, Requested);
        }
      } else if c.Close? {
        DeadIsClosed(View(), c.generation);
      } else {
        StaleSound(View(), c.generation, |c.buf|);
        FetchSub(c.generation, |c.buf|);
      }
    }

    /** The oldest command, popped and served. */
    method ServeNext() returns (c: Cmd)
      requires Inv() && txRing != []
      modifies this`owner, this`armed, this`fdGen, this`peers, this`released, this`closed, this`full, this`tries
      modifies this`pending, this`pendingBytes, this`conns, this`hist, this`grounds, this`txRing, this`txRingBytes
      modifies this`answers
      ensures Inv() && conns.Keys == old(conns.Keys) && txRing == old(txRing)[1..] && c == old(txRing)[0]
      ensures Step(old(Here()), Serve(c), Here())
      ensures tries == if c.Send? && Live(c, old(fdGen)) && c.fd !in old(pending) then Tried(old(tries), c.fd)
                       else old(tries)
      ensures c.Close? ==> c.generation in closed
      ensures Delivers(old(hist), hist) && FewerOwners(old(fdGen), fdGen)
      ensures ClosedFor(old(closed), closed, DRAIN_CAUSES)
    {
      hide Sound, Holding, RingStream, Parked, FewerOwners, Delivers, Registered, Tried, Live, ClosedFor, ServeStep;
      c := PopCmd();
      ServeCmd(c, old(Here()));
      ServeCloses(old(Here()), c, Here());
      ServeKeeps(old(Here()), c, Here());
    }

    /**
    `drain_tx`: serve commands until the ring is found empty, while workers keep writing between commands
    (`schedule[k]` before the k-th pop). The run of steps taken is handed back. Nothing accepted is rewritten and
    nothing written is taken back; every close request in the ring or added meanwhile is carried out, and nothing is
    closed but for the causes of a command.
    */
    method DrainTx(schedule: seq<seq<WorkerOp>>) returns (ghost served: seq<Cmd>, ghost worlds: seq<World>)
      requires Inv()
      modifies this
      ensures Inv() && txRing == [] && txRingBytes == 0 && Grows(old(hist), hist)
      ensures conns.Keys == old(conns.Keys) && accepts == old(accepts) && FewerOwners(old(fdGen), fdGen)
      ensures misdirected == old(misdirected)
      ensures Leads(old(Here()), worlds, DrainActs(schedule, served), Here())
      ensures old(txRing) <= served && Obeyed(served, closed)
      ensures ClosedFor(old(closed), closed, DRAIN_CAUSES)
    {
      hide Sound, Delivers, Accepts, Live, Registered, Tried, FewerOwners, Step, ClosedFor, Draining, Leads, Rounds;
      hide Serves;
      var k := 0;
      served, worlds := [], [Here()];
      DrainStarts(Here());
      NoRounds(schedule);
      while true
        invariant k == |served| && Inv() && misdirected == old(misdirected)
        invariant Draining(old(Here()), served, worlds, Rounds(schedule, Serves(served)), Here())
        decreases if k < |schedule| then |schedule| - k else 0, |txRing|
      {
        label before:
        if k < |schedule| {
          Interlude(schedule, k);
        } else {
          NobodyOn(Here());
        }
        DrainWork(old(Here()), served, worlds, Rounds(schedule, Serves(served)), old@before(Here()),
                  Shift(schedule, k), Here());
        worlds := worlds + [Here()];
        if txRing == [] {
          break;
        }
        label popping:
        var c := ServeNext();
        DrainServe(old(Here()), served, worlds, DrainActs(schedule, served), old@popping(Here()), c, Here());
        ServeRound(schedule, served, c);
        served, worlds := served + [c], worlds + [Here()];
        k := k + 1;
      }
      DrainEnds(old(Here()), served, worlds, DrainActs(schedule, served), Here());
      DrainKept(old(Here()), served, worlds, DrainActs(schedule, served), Here());
    }

    /**
    `flush_all_pending_send`: every descriptor that was backlogged is offered its bytes again, whatever the
    workers do in between.
    */
    method FlushAllPendingSend(schedule: seq<seq<WorkerOp>>)
        returns (ghost order: seq<int>, ghost worlds: seq<World>)
      requires Inv()
      modifies this`owner, this`armed, this`fdGen, this`peers, this`released, this`closed, this`full, this`tries
      modifies this`pending, this`pendingBytes, this`conns, this`hist, this`grounds, this`txRing, this`txRingBytes
      modifies this`answers
      ensures Inv() && conns.Keys == old(conns.Keys) && FewerOwners(old(fdGen), fdGen) && Grows(old(hist), hist)
      ensures pending.Keys <= old(pending.Keys) && forall f :: f in pending ==> f in full
      ensures forall f :: f in old(pending) ==> TriesOf(tries, f) > TriesOf(old(tries), f)
      ensures ClosedFor(old(closed), closed, FLUSH_CAUSES)
      ensures Leads(old(Here()), worlds, Rounds(schedule, Flushes(order)), Here()) && EachOnce(order, old(pending).Keys)
    {
      hide Sound, DeliversFor, Accepts, Grows, TriesOf, OthersSame, FewerOwners, Registered, Retried, Disarm, Without;
      hide MayClose, ClosedFor, FlushStep, Leads, Rounds, EachOnce, Flushes;
      var fds := pending.Keys;
      var k := 0;
      order, worlds := [], [Here()];
      LeadsNowhere(Here());
      NoRounds(schedule);
      NoneYet(fds);
      GrowsFromHere(hist);
      FewerWithout(fdGen, 0);
      NoneClosed(closed, FLUSH_CAUSES, accepts);
      RetryStart(pending, full, tries);
      while exists fd :: fd in fds
        invariant Inv() && conns.Keys == old(conns.Keys) && FewerOwners(old(fdGen), fdGen) && Grows(old(hist), hist)
        invariant Retried(old(pending), fds, pending, full, old(tries), tries)
        invariant ClosedFor(old(closed), closed, FLUSH_CAUSES)
        invariant Leads(old(Here()), worlds, Rounds(schedule, Flushes(order)), Here()) && k == |order|
        invariant fds <= old(pending).Keys && EachOnce(order, old(pending).Keys - fds)
        decreases fds
      {
        var fd :| fd in fds;
        label idle:
        Interlude(schedule, k);
        ghost var acts := Rounds(schedule, Flushes(order));
        LeadsOn(old(Here()), worlds, acts, old@idle(Here()), Work(Shift(schedule, k)), Here());
        worlds, acts := worlds + [Here()], acts + [Work(Shift(schedule, k))];
        GrowsOn(old(hist), old@idle(hist), hist);
        k := k + 1;
        label before:
        TodoParked(old(pending), fds, pending, full, old(tries), tries, fd);
        FlushWrite(fd);
        LeadsOn(old(Here()), worlds, acts, old@before(Here()), Flush(fd), Here());
        FlushRound(schedule, order, fd);
        OnceMore(order, old(pending).Keys, fds, fd);
        order, worlds := order + [fd], worlds + [Here()];
        FlushCloses(old@before(Here()), fd, Here());
        FlushKeeps(old@before(Here()), fd, Here());
        FlushGrows(old(hist), old@before(hist), hist, fd, old@before(fdGen));
        ClosedOn(old(closed), old@before(closed), closed, FLUSH_CAUSES, FLUSH_CAUSES);
        FewerOn(old(fdGen), old@before(fdGen), fdGen, fd);
        RetryStep(old(pending), fds, fd, old@before(pending), pending, old@before(full), full,
                  old(tries), old@before(tries), tries);
        fds := fds - {fd};
      }
      RetryDone(old(pending), fds, pending, full, old(tries), tries);
      assert old(pending).Keys - fds == old(pending).Keys;
    }

    // ---- Accepting ----

    // The accept event had no room: the descriptor goes straight back.
    method RejectAcceptedFd(fd: int)
      requires Inv() && fd in fdGen && fd !in pending && (fdGen[fd], RxFull) in grounds
      modifies this`owner, this`armed, this`fdGen, this`peers, this`released, this`closed
      ensures Inv() && fdGen == Without(old(fdGen), fd) && closed == old(closed)[old(fdGen)[fd] := RxFull]
      ensures peers == Without(old(peers), fd)
    {
      hide Sound, RingStream, CanClose, Parked, ParkedOk, Without, Disarm;
      OpenCanClose(View(), fd, RxFull);
      CloseSound(View(), fd, RxFull);
      CloseUnparked(View(), fd, RxFull);
      WithoutKeys(fdGen, peers, fd);
      Disarmed(armed, pending, fd);
      Detach(fd, RxFull);
    }

    method Admit(nfd: int, peer: int)
      requires Inv() && nfd !in owner
      modifies this`owner, this`fdGen, this`peers, this`accepts, this`conns, this`hist
      ensures Inv() && nfd !in pending && nfd in fdGen && accepts == old(accepts) + 1 && accepts !in old(conns)
      ensures fdGen == Put<int, nat>(old(fdGen), nfd, accepts)
      ensures conns == Put<nat, Conn>(old(conns), accepts, Conn(nfd, 0))
      ensures hist == Put<nat, History>(old(hist), accepts, History([], []))
      ensures peers == Put<int, int>(old(peers), nfd, peer) && View() == Admitted(old(View()), nfd)
    {
      hide Sound, Put, Registered;
      OwnerIs(owner, fdGen, peers, released, accepts);
      AcceptSound(View(), nfd);
      OpenAfterPut(fdGen, nfd, accepts + 1);
      RegisterOneMore(owner, fdGen, peers, released, accepts, nfd, peer);
      accepts := accepts + 1;
      conns, hist := Put<nat, Conn>(conns, accepts, Conn(nfd, 0)), Put<nat, History>(hist, accepts, History([], []));
      fdGen, owner := Put<int, nat>(fdGen, nfd, accepts), Put<int, nat>(owner, nfd, accepts);
      peers := Put<int, int>(peers, nfd, peer);
      assert View() == Admitted(old(View()), nfd);
    }

    /** One connection `ff_accept` returned: its descriptor is not open, its generation is new. */
    method AcceptOne(nfd: int, peer: int, admitted: bool, rxFull: bool)
      requires Inv() && nfd !in owner
      modifies this`owner, this`fdGen, this`peers, this`accepts, this`conns, this`hist
      modifies this`armed, this`released, this`closed, this`grounds
      ensures Inv()
      ensures !admitted ==>
                fdGen == old(fdGen) && conns == old(conns) && accepts == old(accepts) && hist == old(hist)
      ensures !(admitted && rxFull) ==> closed == old(closed)
      ensures admitted ==> accepts == old(accepts) + 1 && accepts !in old(conns)
      ensures admitted ==> conns == Put<nat, Conn>(old(conns), accepts, Conn(nfd, 0))
      ensures admitted ==> hist == Put<nat, History>(old(hist), accepts, History([], []))
      ensures admitted && !rxFull ==> fdGen == Put<int, nat>(old(fdGen), nfd, accepts)
      ensures admitted && rxFull ==>
                && fdGen == Without(Put<int, nat>(old(fdGen), nfd, accepts), nfd)
                && closed == old(closed)[accepts := RxFull]
      ensures peers == if admitted && !rxFull then Put<int, int>(old(peers), nfd, peer) else old(peers)
      ensures View() == ArrivedOne(old(View()), Arrival(nfd, peer, admitted, rxFull))
    {
      hide Sound, Put, Without, Registered;
      if admitted {  // otherwise ff_close, and nothing was registered
        Admit(nfd, peer);
        OpenAfterPut(old(fdGen), nfd, accepts);
        PeerGivenBack(old(owner), old(fdGen), old(peers), old(released), old(accepts), nfd, peer);
        DeliverAccept(nfd, rxFull);
      }
    }

    // The accept event reaches the RX ring or the connection is rejected.
    method DeliverAccept(fd: int, rxFull: bool)
      requires Inv() && fd in fdGen && fd !in pending
      modifies this`owner, this`armed, this`fdGen, this`peers, this`released, this`closed, this`grounds
      ensures Inv()
      ensures !rxFull ==> fdGen == old(fdGen) && closed == old(closed) && grounds == old(grounds)
      ensures rxFull ==> fdGen == Without(old(fdGen), fd) && closed == old(closed)[old(fdGen)[fd] := RxFull]
      ensures rxFull ==> grounds == old(grounds) + {(old(fdGen)[fd], RxFull)}
      ensures peers == if rxFull then Without(old(peers), fd) else old(peers)
    {
      hide Sound, Without, Registered;
      if rxFull {
        Note(fd, RxFull);
        RejectAcceptedFd(fd);
      }
    }

    // Never a descriptor that is still open; negative when the backlog is empty.
    method FfAccept(arrivals: seq<Arrival>) returns (nfd: int)
      ensures nfd < 0 <==> arrivals == [] || arrivals[0].fd < 0 || arrivals[0].fd in owner
      ensures nfd >= 0 ==> nfd == arrivals[0].fd
    {
      nfd := if arrivals == [] || arrivals[0].fd in owner then -1 else arrivals[0].fd;
    }

    /** `accept_pending`: take the connections waiting on a listener, until there are no more. */
    method AcceptPending(arrivals: seq<Arrival>)
      requires Inv()
      modifies this`owner, this`fdGen, this`peers, this`accepts, this`conns, this`hist
      modifies this`armed, this`released, this`closed, this`grounds
      ensures Inv() && pending == old(pending) && old(accepts) <= accepts
      ensures View() == Arrived(old(View()), arrivals)
      ensures Extends<nat, Conn>(old(conns), conns) && Extends<nat, History>(old(hist), hist)
      ensures Newcomers(old(fdGen), fdGen, old(accepts)) && Announced(old(closed), closed, old(accepts))
    {
      hide Sound, Extends, Newcomers, Put, Without, Announced, Registered, ArrivedOne;
      AcceptsNone(View());
      var i := 0;
      assert arrivals[0..] == arrivals;
      while true
        invariant i <= |arrivals| && Inv() && old(accepts) <= accepts
        invariant Arrived(View(), arrivals[i..]) == Arrived(old(View()), arrivals)
        invariant Extends<nat, Conn>(old(conns), conns) && Extends<nat, History>(old(hist), hist)
        invariant Newcomers(old(fdGen), fdGen, old(accepts))
        invariant Announced(old(closed), closed, old(accepts))
        decreases |arrivals| - i
      {
        OwnerIs(owner, fdGen, peers, released, accepts);
        var nfd := FfAccept(arrivals[i..]);
        if nfd < 0 {
          break;
        }
        var a := arrivals[i];
        label before:
        AcceptOne(nfd, a.peer, a.admitted, a.rxFull);
        if a.admitted {
          AcceptsOneMore(old(View()), old@before(View()), View(), nfd);
          AnnouncesOneMore(old(closed), old(accepts), old@before(View()), closed);
        }
        assert arrivals[i..][1..] == arrivals[i + 1..];
        i := i + 1;
      }
    }

    /** `zc_read`: a read of zero bytes means the peer is gone; data and EAGAIN leave this state alone. */
    method ZcRead(fd: int)
      requires Inv()
      modifies this`owner, this`armed, this`fdGen, this`peers, this`released, this`closed, this`eofs
      modifies this`pending, this`pendingBytes, this`conns, this`grounds
      ensures Inv() && conns.Keys == old(conns.Keys) && ReadStep(old(Here()), fd, Here())
    {
      hide Sound, Without, Closes, Registered;
      if fd !in fdGen {  // the stack answers -1
        return;
      }
      var eof := FfZcRecv();
      if eof {
        label gone:
        Note(fd, PeerGone);
        CloseOpen(fd, PeerGone);
        ClosesNoted(old@gone(View()), fd, PeerGone, View());
      }
    }

    /** One batch of the kqueue: of what there is to report, what concerns listeners and open descriptors. */
    method FetchEvents(reports: seq<Report>) returns (evs: seq<KEvent>)
      ensures evs == Fetched(reports, fdGen) && |evs| <= MAX_EVENTS && BatchOk(evs, fdGen)
    {
      evs := [];
      for i := 0 to |reports|
        invariant evs == Fetched(reports[..i], fdGen) && |evs| <= MAX_EVENTS && BatchOk(evs, fdGen)
      {
        assert reports[..i + 1][..i] == reports[..i];
        if |evs| < MAX_EVENTS {
          match reports[i]
          case Waiting(arrivals) => evs := evs + [Listener(arrivals)];
          case On(fd, what) =>
            if fd in fdGen {
              evs := evs + [Ready(fd, fdGen[fd], what)];
            }
        }
      }
      assert reports[..|reports|] == reports;
    }

    ghost method Note(fd: int, why: Cause)
      requires Inv() && fd in fdGen
      modifies this`grounds
      ensures Inv() && grounds == old(grounds) + {(fdGen[fd], why)}
    {
      hide Sound, Registered;
      ObserveSound(View(), {(fdGen[fd], why)});
      grounds := grounds + {(fdGen[fd], why)};
    }

    // An EOF closes whatever connection holds the number by now; `of` is the one it was meant for.
    method CloseByEof(fd: int, of: nat)
      requires Inv()
      modifies this`owner, this`armed, this`fdGen, this`peers, this`released, this`closed
      modifies this`pending, this`pendingBytes, this`conns, this`grounds, this`misdirected
      ensures Inv() && HandleStep(old(Here()), Ready(fd, of, Eof), Here())
      ensures conns.Keys == old(conns.Keys) && fdGen == Without(old(fdGen), fd)
      ensures closed == if fd in old(fdGen)
                        then old(closed)[old(fdGen)[fd] := if old(fdGen)[fd] == of then PeerGone else Misdirected]
                        else old(closed)
      ensures misdirected == old(misdirected) + Mistaken(Ready(fd, of, Eof), old(fdGen))
    {
      hide Sound, Mistaken, Registered, Without, Closes;
      if fd in fdGen {
        misdirected := misdirected + Mistaken(Ready(fd, of, Eof), fdGen);
        ghost var why := if fdGen[fd] == of then PeerGone else Misdirected;
        Note(fd, why);
        CloseOpen(fd, why);
        ClosesNoted(old(View()), fd, why, View());
      } else {
        NotOpen(fd, of, fdGen, misdirected);
      }
    }

    /**
    `driver_cb` on one entry of a batch. The program acts on the descriptor number alone, so an EOF closes the
    connection it was meant for, or none, or a newer one that holds the number by now.
    */
    method HandleEvent(ev: KEvent)
      requires Inv()
      modifies this`owner, this`armed, this`fdGen, this`peers, this`released, this`closed, this`full, this`tries
      modifies this`pending, this`pendingBytes, this`conns, this`hist, this`grounds, this`misdirected, this`accepts
      modifies this`answers, this`eofs
      ensures Inv() && Step(old(Here()), Handle(ev), Here())
      ensures Grows(old(hist), hist) && old(conns.Keys) <= conns.Keys && old(accepts) <= accepts
      ensures Arrivals(old(fdGen), fdGen, old(accepts), ev)
      ensures misdirected == old(misdirected) + Mistaken(ev, old(fdGen))
      ensures ev.Ready? && ev.what.Eof? ==> fdGen == Without(old(fdGen), ev.fd) && accepts == old(accepts)
      ensures ev.Ready? && ev.what.Eof? && ev.fd in old(fdGen) ==>
                closed == old(closed)[
                  old(fdGen)[ev.fd] := if old(fdGen)[ev.fd] == ev.of then PeerGone else Misdirected]
      ensures ev.Listener? ==> Announced(old(closed), closed, old(accepts))
      ensures ev.Ready? && ev.what.Writable? && ev.fd in old(pending) ==>
                TriesOf(tries, ev.fd) > TriesOf(old(tries), ev.fd)
    {
      hide Sound, Grows, DeliversFor, TriesOf, OthersSame, Registered, Mistaken, Without, Arrivals, Extends, Disarm;
      hide Announced, Newcomers, Arrived, FlushStep, ReadStep, MayClose;
      GrowsFromHere(hist);
      if ev.Ready? && ev.what.Eof? {
        CloseByEof(ev.fd, ev.of);
        OneDescriptor(ev, old(fdGen), fdGen, accepts);
        return;
      }
      NoMistake(ev, fdGen, misdirected);
      match ev {
        case Listener(arrivals) =>
          AcceptPending(arrivals);
          ExtendsGrows(old(conns), conns, old(hist), hist);
        case Ready(fd, _, what) =>
          if what == Readable {
            ZcRead(fd);
            ReadFor(old(Here()), fd, Here());
          } else {
            FlushWrite(fd);
            FlushCloses(old(Here()), fd, Here());
            FlushKeeps(old(Here()), fd, Here());
            FlushGrows(old(hist), old(hist), hist, fd, old(fdGen));
          }
      }
      OneDescriptor(ev, old(fdGen), fdGen, old(accepts));
    }

    /**
    The rest of `driver_cb`: one batch of events, with workers in between. Only a connection accepted while the
    batch was being handled can be closed by mistake, and none is if the batch names every descriptor once.
    */
    method HandleBatch(evs: seq<KEvent>, schedule: seq<seq<WorkerOp>>)
        returns (ghost worlds: seq<World>)
      requires Inv() && BatchOk(evs, fdGen)
      modifies this
      ensures Inv() && Grows(old(hist), hist) && old(conns.Keys) <= conns.Keys && old(accepts) <= accepts
      ensures Leads(old(Here()), worlds, Rounds(schedule, Handles(evs)), Here())
      ensures Blamed(old(misdirected), misdirected, old(accepts), accepts)
      ensures NamedOnce(evs) ==> misdirected == old(misdirected)
      ensures ClosedSince(old(closed), closed, old(accepts), EVENT_CAUSES)
    {
      hide Sound, Grows, Accepts, Arrivals, Mistaken, BatchOk, Tracked, NamedOnce, Blamed, Registered, Without, TriesOf;
      hide HandleStep, ClosedSince, Leads, Rounds, Handles, Announced;
      worlds := [Here()];
      LeadsNowhere(Here());
      NoRounds(schedule);
      GrowsFromHere(hist);
      NoneClosed(closed, EVENT_CAUSES, accepts);
      BlamedOn(misdirected, misdirected, accepts, accepts, accepts, {});
      assert evs[..0] == [];
      TrackStart(fdGen, accepts);
      for i := 0 to |evs|
        invariant Inv() && Grows(old(hist), hist) && old(conns.Keys) <= conns.Keys && old(accepts) <= accepts
        invariant Leads(old(Here()), worlds, Rounds(schedule, Handles(evs[..i])), Here())
        invariant Tracked(old(fdGen), fdGen, old(accepts), evs[..i])
        invariant Blamed(old(misdirected), misdirected, old(accepts), accepts)
        invariant NamedOnce(evs) ==> misdirected == old(misdirected)
        invariant ClosedSince(old(closed), closed, old(accepts), EVENT_CAUSES)
      {
        label idle:
        Interlude(schedule, i);
        ghost var acts := Rounds(schedule, Handles(evs[..i]));
        LeadsOn(old(Here()), worlds, acts, old@idle(Here()), Work(Shift(schedule, i)), Here());
        worlds, acts := worlds + [Here()], acts + [Work(Shift(schedule, i))];
        GrowsOn(old(hist), old@idle(hist), hist);
        OnlyNewer(View(), evs, i, old(fdGen), old(accepts));
        label before:
        HandleEvent(evs[i]);
        LeadsOn(old(Here()), worlds, acts, old@before(Here()), Handle(evs[i]), Here());
        HandleRound(schedule, evs[..i], evs[i]);
        worlds := worlds + [Here()];
        GrowsOn(old(hist), old@before(hist), hist);
        EventStep(old(closed), old(accepts), old@before(Here()), evs[i], Here());
        TrackStep(old(fdGen), old@before(fdGen), fdGen, old(accepts), old@before(accepts), evs, i);
        BlamedOn(old(misdirected), old@before(misdirected), old(accepts), old@before(accepts), accepts,
                 Mistaken(evs[i], old@before(fdGen)));
        assert evs[..i + 1] == evs[..i] + [evs[i]];
      }
      assert evs[..|evs|] == evs;
    }

    /**
    One turn of the driver loop: commands, parked sends, then one batch of events. Workers run at any point, so
    the ring may hold new commands at the end. The turn is a run of steps: the commands of the ring, a flush of
    every descriptor that has a backlog then, and the entries of one batch, each once and in order. Every close
    request that was in the ring is carried out, and a connection that was there before is closed only on request,
    over budget, for a failed or stalled write, or because its peer is gone.
    */
    method DriverCb(draining: seq<seq<WorkerOp>>, flushing: seq<seq<WorkerOp>>, handling: seq<seq<WorkerOp>>,
                    reports: seq<Report>)
        returns (ghost served: seq<Cmd>, ghost order: seq<int>, ghost worlds: seq<World>)
      requires Inv()
      modifies this
      ensures Inv() && Grows(old(hist), hist) && old(conns.Keys) <= conns.Keys && old(accepts) <= accepts
      ensures Blamed(old(misdirected), misdirected, old(accepts), accepts)
      ensures Obeyed(old(txRing), closed) && ClosedSince(old(closed), closed, old(accepts), TURN_CAUSES)
      ensures Turn(old(Here()), draining, flushing, handling, reports, served, order, worlds, Here())
    {
      hide Sound, Grows, Registered, Blamed, BatchOk, NamedOnce, FewerOwners, TriesOf, ClosedFor, ClosedSince, Obeyed;
      hide Leads, Rounds, Serves, Flushes, Handles, DrainActs, EachOnce, Turn;
      ghost var worlds1, worlds2, worlds3;
      served, worlds1 := DrainTx(draining);
      label drainedNow:
      ghost var drained := Here();
      order, worlds2 := FlushAllPendingSend(flushing);
      GrowsOn(old(hist), old@drainedNow(hist), hist);
      label flushedNow:
      ghost var flushed := Here();
      var evs := FetchEvents(reports);
      worlds3 := HandleBatch(evs, handling);
      GrowsOn(old(hist), old@flushedNow(hist), hist);
      TurnCloses(old(closed), old@drainedNow(closed), old@flushedNow(closed), closed, old(accepts));
      ObeyedStill(old(txRing), served, old@drainedNow(closed), closed);
      TurnIs(old(Here()), draining, flushing, handling, reports, served, order,
             worlds1, drained, worlds2, flushed, worlds3, Here());
      worlds := worlds1 + worlds2[1..] + worlds3[1..];
    }
  }

  // ---- A newcomer closed by mistake ----

  /**
  From every state with an open descriptor: both its filters report the end of the stream in one batch, the first
  entry closes the connection, the listener between them hands the number to a new one, and the last closes that.
  */
  method ReusedNumberClosed(d: Driver, fd: int, peer: int) returns (batch: seq<KEvent>)
    requires d.Inv() && fd in d.fdGen && fd >= 0
    modifies d
    ensures d.Inv() && BatchOk(batch, old(d.fdGen)) && !NamedOnce(batch)
    ensures |batch| == 3 && batch[0] == batch[2] == Ready(fd, old(d.fdGen)[fd], Eof)
    ensures batch[1] == Listener([Arrival(fd, peer, true, false)])
    ensures d.accepts == old(d.accepts) + 1 && d.misdirected == old(d.misdirected) + {d.accepts}
    ensures d.closed == old(d.closed)[old(d.fdGen)[fd] := PeerGone][d.accepts := Misdirected]
  {
    hide Sound, Registered, Arrivals, Grows, Mistaken, Put, Without, NamedOnce, BatchOk, Announced;
    ghost var first := d.fdGen[fd];
    batch := [Ready(fd, d.fdGen[fd], Eof), Listener([Arrival(fd, peer, true, false)]), Ready(fd, d.fdGen[fd], Eof)];
    TwiceNamed(batch, fd, first);
    SoundParts(d.View(), fd);
    NotMistaken(batch[0], d.fdGen, d.misdirected);
    d.HandleEvent(batch[0]);
    GoneNow(old(d.fdGen), fd);
    OwnerIs(d.owner, d.fdGen, d.peers, d.released, d.accepts);
    OpenAfterPut(d.fdGen, fd, d.accepts + 1);
    ArrivesAlone(d.View(), batch[1].arrivals[0]);
    NoMistake(batch[1], d.fdGen, d.misdirected);
    d.HandleEvent(batch[1]);
    NewcomerHit(batch[2], d.fdGen, d.accepts);
    d.HandleEvent(batch[2]);
  }

  lemma TwiceNamed(batch: seq<KEvent>, fd: int, of: nat)
    requires |batch| == 3 && batch[0] == batch[2] == Ready(fd, of, Eof) && batch[1].Listener?
    ensures !NamedOnce(batch)
    ensures forall fdGen: map<int, nat> :: fd in fdGen && fdGen[fd] == of ==> BatchOk(batch, fdGen)
  {
    assert batch[0].fd == batch[2].fd;
  }

  // A listener with one connection waiting, under a number that is free.
  lemma ArrivesAlone(s: State, a: Arrival)
    requires a.fd !in s.fdGen && a.fd >= 0 && a.admitted && !a.rxFull
    ensures Arrived(s, [a]) == Admitted(s, a.fd)
  {
  }

  lemma NotMistaken(ev: KEvent, fdGen: map<int, nat>, misdirected: set<nat>)
    requires ev.Ready? && ev.fd in fdGen && fdGen[ev.fd] == ev.of
    ensures misdirected + Mistaken(ev, fdGen) == misdirected
  {
  }

  lemma NewcomerHit(ev: KEvent, fdGen: map<int, nat>, g: nat)
    requires ev.Ready? && ev.what.Eof? && ev.fd in fdGen && fdGen[ev.fd] == g != ev.of
    ensures Mistaken(ev, fdGen) == {g}
  {
  }

  /** Descriptor 7, from a new driver on: connection 2 is closed although nothing happened to it. */
  method FirstNewcomerClosed() returns (d: Driver)
    ensures d.Inv() && d.misdirected == {2} && d.closed == map[1 := PeerGone, 2 := Misdirected]
  {
    hide Sound, Put, NamedOnce, BatchOk;
    d := new Driver([], []);
    OpenAfterPut(map[], 7, 1);
    d.AcceptOne(7, 0, true, false);
    var _ := ReusedNumberClosed(d, 7, 0);
  }

  // ---- What the invariant says ----

  /**
  Between any two steps of any run. For every connection the stack saw a prefix of what was accepted;
  for an open one the rest is parked and in the ring, in order, and its counter is exactly those bytes.
  The two global byte counters are exact and capped; a write filter is armed exactly where bytes are
  parked, under the generation that owns the descriptor; every admission is live or released once; and
  a closed connection was closed for a reason of its own.
  */
  lemma Guarantees(d: Driver)
    requires d.Inv()
    ensures forall g :: g in d.conns ==> g in d.hist && d.hist[g].wire <= d.hist[g].accepted
    ensures forall fd :: fd in d.fdGen ==>
              var g := d.fdGen[fd];
              && g in d.conns && g in d.hist
              && d.hist[g].wire + Parked(d.pending, fd) + RingStream(d.txRing, g) == d.hist[g].accepted
              && d.conns[g].txPending == |Parked(d.pending, fd)| + |RingStream(d.txRing, g)|
    ensures d.txRingBytes == RingBytes(d.txRing) <= MAX_TX_BYTES
    ensures d.pendingBytes == TotalParked(d.pending) <= MAX_PENDING_SEND_BYTES
    ensures forall fd :: fd in d.armed <==> fd in d.pending
    ensures forall fd :: fd in d.pending ==>
              Parked(d.pending, fd) != [] && fd in d.fdGen && d.pending[fd].generation == d.fdGen[fd]
    ensures d.released + |d.fdGen.Keys| == d.accepts && d.owner == d.fdGen
    ensures forall g :: g in d.closed ==> (g, d.closed[g]) in d.grounds
    ensures forall g :: g in d.conns ==>
              (g in d.closed <==> !(d.conns[g].fd in d.fdGen && d.fdGen[d.conns[g].fd] == g))
  {
    forall fd | fd in d.pending
      ensures Parked(d.pending, fd) != []
    {
      assert d.pending[fd].Valid();
    }
  }
}
