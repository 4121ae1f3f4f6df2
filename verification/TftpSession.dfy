/** The TFTP sender composed with an RFC 1350 section 2 client over a channel that loses,
    duplicates and reorders datagrams: end-to-end safety, and exactly how far it goes. */
module TftpSession {
  import opened Tftp

  /** The reading client: it wants block `next`, counted without wrapping, and has written `got`. */
  datatype Client = Client(next: nat, got: seq<byte>, done: bool)

  /** Everything ever sent in either direction stays deliverable, any number of times, in any order. */
  datatype Session = Session(
    data: seq<byte>,
    sender: Sender,
    client: Client,
    packets: set<seq<byte>>,
    acks: set<seq<byte>>)

  ghost function Start(data: seq<byte>): Session {
    Session(data, Sender(Listening, 0, 0), Client(1, [], false), {}, {})
  }

  datatype Event =
    | ReadRequest(datagram: Reception)
    | DeadlinePasses
    | ToSender(reception: Reception)
    | ToClient(packet: seq<byte>)

  /** The channel delivers to the sender timeouts, strangers' datagrams and the client's
      acknowledgements; to the client, what the sender sent. */
  ghost predicate ValidEvent(w: Session, e: Event) {
    match e
    case ReadRequest(_) => w.sender.phase == Listening
    case DeadlinePasses => w.sender.phase == Listening
    case ToSender(r) => w.sender.phase == Sending && (r.Datagram? && r.fromPeer ==> r.payload in w.acks)
    case ToClient(p) => p in w.packets
  }

  function Emitted(data: seq<byte>, s: Sender): set<seq<byte>>
    requires SenderOk(data, s)
  {
    if s.phase == Sending then {Outstanding(data, s)} else {}
  }

  /** The next block is written and acknowledged, the previous one acknowledged again. */
  function ClientReceives(c: Client, p: seq<byte>): (r: (Client, set<seq<byte>>)) {
    match ReadData(p)
    case None => (c, {})
    case Some((block, payload)) =>
      if block >= WIRE then (c, {})
      else if !c.done && block == Wire(c.next) then
        (Client(c.next + 1, c.got + payload, |payload| < BLOCK_SIZE), {AckPacket(block)})
      else if c.next > 1 && block == Wire(c.next - 1) then (c, {AckPacket(block)})
      else (c, {})
  }

  ghost function Step(w: Session, e: Event): Session
    requires SenderOk(w.data, w.sender) && ValidEvent(w, e)
  {
    match e
    case ReadRequest(r) =>
      if IsReadRequest(r) then w.(sender := At(1), packets := w.packets + Emitted(w.data, At(1))) else w
    case DeadlinePasses => w.(sender := Sender(Failed, 1, 1))
    case ToSender(r) =>
      var s := React(w.data, w.sender, r);
      w.(sender := s, packets := w.packets + Emitted(w.data, s))
    case ToClient(p) =>
      var (c, acks) := ClientReceives(w.client, p);
      w.(client := c, acks := w.acks + acks)
  }

  ghost predicate ValidRun(w: Session, es: seq<Event>)
    requires SenderOk(w.data, w.sender)
    decreases |es|
  {
    es == [] || (ValidEvent(w, es[0]) && ValidRun(Step(w, es[0]), es[1..]))
  }

  ghost function Run(w: Session, es: seq<Event>): Session
    requires SenderOk(w.data, w.sender) && ValidRun(w, es)
    decreases |es|
  {
    if es == [] then w else Run(Step(w, es[0]), es[1..])
  }

  // ------------------------------------------------------------------ safety

  /** The client's bytes are a prefix of the data, and all of it once the sender says served. */
  ghost predicate Safe(w: Session) {
    && w.client.got <= w.data
    && (w.sender.phase == Served ==> w.client.done && w.client.got == w.data)
  }

  /** The block the client wants next is the one outstanding or the one after. */
  ghost predicate InStep(w: Session) {
    && SenderOk(w.data, w.sender)
    && (w.sender.phase == Listening ==> w.packets == {} && w.client == Client(1, [], false))
    && 1 <= w.client.next <= NumBlocks(w.data) + 1
    && w.client.got == Prefix(w.data, w.client.next - 1)
    && (w.client.done <==> w.client.next == NumBlocks(w.data) + 1)
    && (w.sender.phase != Listening ==> w.client.next == w.sender.block || w.client.next == w.sender.block + 1)
    && (w.sender.phase == Served ==> w.client.done)
    && (forall p :: p in w.packets ==> exists i :: SentBlock(w, i, p))
    && (forall a :: a in w.acks ==> exists i :: AckedBlock(w, i, a))
  }

  ghost predicate SentBlock(w: Session, i: nat, p: seq<byte>) {
    1 <= i <= w.sender.block && i <= NumBlocks(w.data) && p == DataPacket(Wire(i), Chunk(w.data, i))
  }

  ghost predicate AckedBlock(w: Session, i: nat, a: seq<byte>) {
    1 <= i < w.client.next && a == AckPacket(Wire(i))
  }

  lemma StartInStep(data: seq<byte>)
    ensures InStep(Start(data))
  {
  }

  /** An acknowledgement of the outstanding block means the client has it. */
  lemma AckMeansDelivered(w: Session, r: Reception)
    requires InStep(w) && w.sender.phase == Sending && NumBlocks(w.data) <= WIRE
    requires r.Datagram? && r.fromPeer ==> r.payload in w.acks
    requires Acknowledges(r, Wire(w.sender.block))
    ensures w.client.next == w.sender.block + 1
  {
    var i :| AckedBlock(w, i, r.payload);
    AckRoundTrip(Wire(i));
    WireDistinct(i, w.sender.block);
  }

  lemma ToSenderKeeps(w: Session, r: Reception)
    requires InStep(w) && NumBlocks(w.data) <= WIRE && ValidEvent(w, ToSender(r))
    ensures InStep(Step(w, ToSender(r)))
  {
    var w' := Step(w, ToSender(r));
    if Acknowledges(r, Wire(w.sender.block)) {
      AckMeansDelivered(w, r);
    }
    forall p | p in w'.packets
      ensures exists i :: SentBlock(w', i, p)
    {
      if p in w.packets {
        var i :| SentBlock(w, i, p);
        assert SentBlock(w', i, p);
      } else {
        assert SentBlock(w', w'.sender.block, p);
      }
    }
    forall a | a in w'.acks
      ensures exists i :: AckedBlock(w', i, a)
    {
      var i :| AckedBlock(w, i, a);
      assert AckedBlock(w', i, a);
    }
  }

  lemma ToClientKeeps(w: Session, p: seq<byte>)
    requires InStep(w) && NumBlocks(w.data) <= WIRE && p in w.packets
    ensures InStep(Step(w, ToClient(p)))
  {
    var w' := Step(w, ToClient(p));
    var j :| SentBlock(w, j, p);
    DataRoundTrip(Wire(j), Chunk(w.data, j));
    ChunkSizes(w.data, j);
    if !w.client.done && Wire(j) == Wire(w.client.next) {
      WireDistinct(j, w.client.next);
      PrefixGrows(w.data, j);
    }
    forall q | q in w'.packets
      ensures exists i :: SentBlock(w', i, q)
    {
      var i :| SentBlock(w, i, q);
      assert SentBlock(w', i, q);
    }
    forall a | a in w'.acks
      ensures exists i :: AckedBlock(w', i, a)
    {
      if a in w.acks {
        var i :| AckedBlock(w, i, a);
        assert AckedBlock(w', i, a);
      } else {
        assert AckedBlock(w', w'.client.next - 1, a);
      }
    }
  }

  lemma StepKeeps(w: Session, e: Event)
    requires InStep(w) && NumBlocks(w.data) <= WIRE && ValidEvent(w, e)
    ensures InStep(Step(w, e)) && Step(w, e).data == w.data
  {
    match e
    case ToSender(r) => ToSenderKeeps(w, r);
    case ToClient(p) => ToClientKeeps(w, p);
    case ReadRequest(r) =>
      if IsReadRequest(r) {
        var w' := Step(w, e);
        assert forall p :: p in w'.packets ==> SentBlock(w', 1, p);
        assert forall a :: a in w.acks ==> exists i :: AckedBlock(w, i, a);
        assert w.acks == {};
      }
    case DeadlinePasses =>
  }

  lemma {:induction false} RunKeeps(w: Session, es: seq<Event>)
    requires InStep(w) && NumBlocks(w.data) <= WIRE && ValidRun(w, es)
    ensures InStep(Run(w, es)) && Run(w, es).data == w.data
    decreases |es|
  {
    if es != [] {
      StepKeeps(w, es[0]);
      RunKeeps(Step(w, es[0]), es[1..]);
    }
  }

  /** End to end: up to 65536 blocks, every run is safe. */
  lemma EndToEnd(data: seq<byte>, es: seq<Event>)
    requires NumBlocks(data) <= WIRE && ValidRun(Start(data), es)
    ensures Safe(Run(Start(data), es))
  {
    StartInStep(data);
    RunKeeps(Start(data), es);
    var w := Run(Start(data), es);
    PrefixGrows(data, NumBlocks(data));
  }

  // ------------------------------------------------------------------ the limit

  lemma {:induction false} RunAppend(w: Session, es: seq<Event>, e: Event)
    requires SenderOk(w.data, w.sender) && ValidRun(w, es) && ValidEvent(Run(w, es), e)
    requires SenderOk(Run(w, es).data, Run(w, es).sender)
    ensures ValidRun(w, es + [e]) && Run(w, es + [e]) == Step(Run(w, es), e)
    decreases |es|
  {
    if es == [] {
      assert es + [e] == [e];
    } else {
      assert (es + [e])[0] == es[0] && (es + [e])[1..] == es[1..] + [e];
      RunAppend(Step(w, es[0]), es[1..], e);
    }
  }

  /** Lockstep: the client has every block before `k`, and block `k` is outstanding for the first time. */
  ghost predicate Lockstep(w: Session, data: seq<byte>, k: nat) {
    && w.data == data && 1 <= k <= NumBlocks(data) && w.sender == At(k)
    && w.client.next == k && !w.client.done
    && Outstanding(data, At(k)) in w.packets
    && forall i :: 1 <= i < k ==> AckPacket(Wire(i)) in w.acks
  }

  lemma {:induction false} ReachLockstep(data: seq<byte>, k: nat) returns (es: seq<Event>)
    requires 1 <= k <= NumBlocks(data)
    ensures ValidRun(Start(data), es) && Lockstep(Run(Start(data), es), data, k)
  {
    if k == 1 {
      var rrq := Datagram(true, U16(OPCODE_RRQ));
      assert IsReadRequest(rrq) by { assert U16(OPCODE_RRQ)[..2] == U16(OPCODE_RRQ); }
      es := [ReadRequest(rrq)];
      assert es[1..] == [];
      assert Run(Start(data), es) == Step(Start(data), es[0]);
    } else {
      es := ReachLockstep(data, k - 1);
      var w := Run(Start(data), es);
      var p, a := Outstanding(data, At(k - 1)), AckPacket(Wire(k - 1));
      DataRoundTrip(Wire(k - 1), Chunk(data, k - 1));
      AckRoundTrip(Wire(k - 1));
      ChunkSizes(data, k - 1);
      RunAppend(Start(data), es, ToClient(p));
      var w1 := Step(w, ToClient(p));
      es := es + [ToClient(p)];
      RunAppend(Start(data), es, ToSender(Datagram(true, a)));
      es := es + [ToSender(Datagram(true, a))];
      assert Run(Start(data), es).acks == w1.acks;
    }
  }

  /** Block `k` is outstanding, the client is `c`, and every 16-bit number has been acknowledged. */
  ghost predicate Drifting(w: Session, data: seq<byte>, k: nat, c: Client) {
    && w.data == data && 1 <= k <= NumBlocks(data) && w.sender == At(k) && w.client == c
    && forall i :: 1 <= i <= WIRE ==> AckPacket(Wire(i)) in w.acks
  }

  /** A stale acknowledgement moves the sender on while the client waits. */
  lemma DriftStep(w: Session, data: seq<byte>, k: nat, c: Client) returns (e: Event)
    requires Drifting(w, data, k, c)
    ensures ValidEvent(w, e) && Step(w, e).data == data
    ensures if k < NumBlocks(data) then Drifting(Step(w, e), data, k + 1, c)
            else Step(w, e).sender.phase == Served && Step(w, e).client == c
  {
    var stale := if k % WIRE == 0 then WIRE else k % WIRE;
    assert Wire(stale) == Wire(k) && AckPacket(Wire(stale)) in w.acks;
    AckRoundTrip(Wire(k));
    e := ToSender(Datagram(true, AckPacket(Wire(k))));
  }

  lemma {:induction false} Drift(data: seq<byte>, es: seq<Event>, k: nat, c: Client) returns (es': seq<Event>)
    requires ValidRun(Start(data), es) && Drifting(Run(Start(data), es), data, k, c)
    ensures ValidRun(Start(data), es')
    ensures Run(Start(data), es').sender.phase == Served && Run(Start(data), es').client == c
    decreases NumBlocks(data) - k
  {
    var e := DriftStep(Run(Start(data), es), data, k, c);
    RunAppend(Start(data), es, e);
    es' := es + [e];
    if k < NumBlocks(data) {
      es' := Drift(data, es', k + 1, c);
    }
  }

  /** Beyond 65536 blocks some run reports success while the client is still waiting. */
  lemma WrapDefeatsDelivery(data: seq<byte>) returns (es: seq<Event>)
    requires NumBlocks(data) > WIRE
    ensures ValidRun(Start(data), es) && !Safe(Run(Start(data), es))
  {
    es := ReachLockstep(data, WIRE + 1);
    es := Drift(data, es, WIRE + 1, Run(Start(data), es).client);
  }

  /** The transfer is safe in every run exactly if there are at most 65536 blocks. */
  lemma SafeExactlyUpToWrap(data: seq<byte>)
    ensures (forall es :: ValidRun(Start(data), es) ==> Safe(Run(Start(data), es))) <==> |data| / 512 + 1 <= 65536
  {
    if NumBlocks(data) <= WIRE {
      forall es | ValidRun(Start(data), es)
        ensures Safe(Run(Start(data), es))
      {
        EndToEnd(data, es);
      }
    } else {
      var es := WrapDefeatsDelivery(data);
    }
  }
}
