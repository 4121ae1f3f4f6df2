/** The one-shot TFTP sender: blocks, packets, the sender's reactions and its transfer loop
    (RFC 1350, sections 2, 5 and 6). */
module Tftp {
  import opened Basics

  newtype byte = x: int | 0 <= x < 256

  const BLOCK_SIZE := 512
  const WIRE := 0x1_0000
  const MAX_ATTEMPTS := 5

  const OPCODE_RRQ := 1
  const OPCODE_DATA := 3
  const OPCODE_ACK := 4

  // ------------------------------------------------------------------ blocks

  function Min(a: int, b: int): int {
    if a < b then a else b
  }

  function NumBlocks(data: seq<byte>): nat {
    |data| / BLOCK_SIZE + 1
  }

  /** The 16-bit number block `i` carries. */
  function Wire(i: nat): nat {
    i % WIRE
  }

  /** The bytes of the first `k` blocks. */
  function Prefix(data: seq<byte>, k: nat): seq<byte> {
    data[..Min(k * BLOCK_SIZE, |data|)]
  }

  /** Block `i`, counting from 1. */
  function Chunk(data: seq<byte>, i: nat): seq<byte>
    requires 1 <= i <= NumBlocks(data)
  {
    data[(i - 1) * BLOCK_SIZE..Min(i * BLOCK_SIZE, |data|)]
  }

  function Concat(data: seq<byte>, k: nat): seq<byte>
    requires k <= NumBlocks(data)
  {
    if k == 0 then [] else Concat(data, k - 1) + Chunk(data, k)
  }

  /** Every block but the last is full; the last is short, and empty if 512 divides the length. */
  lemma ChunkSizes(data: seq<byte>, i: nat)
    requires 1 <= i <= NumBlocks(data)
    ensures |Chunk(data, i)| == if i == NumBlocks(data) then |data| % BLOCK_SIZE else BLOCK_SIZE
    ensures |Chunk(data, i)| < BLOCK_SIZE <==> i == NumBlocks(data)
  {
  }

  /** The blocks concatenate to the data. */
  lemma {:induction false} BlocksCover(data: seq<byte>, k: nat)
    requires k <= NumBlocks(data)
    ensures Concat(data, k) == Prefix(data, k)
    ensures k == NumBlocks(data) ==> Concat(data, k) == data
  {
    if k > 0 {
      BlocksCover(data, k - 1);
      PrefixGrows(data, k);
    }
  }

  lemma PrefixGrows(data: seq<byte>, k: nat)
    requires 1 <= k <= NumBlocks(data)
    ensures Prefix(data, k - 1) + Chunk(data, k) == Prefix(data, k)
    ensures Prefix(data, NumBlocks(data)) == data
  {
    assert (k - 1) * BLOCK_SIZE <= |data|;
  }

  /** Block numbers on the wire are distinct as long as they do not wrap all the way round. */
  lemma WireDistinct(i: nat, j: nat)
    requires 1 <= i <= WIRE && 1 <= j <= WIRE && Wire(i) == Wire(j)
    ensures i == j
  {
  }

  // ------------------------------------------------------------------ packets

  function U16(n: nat): seq<byte>
    requires n < WIRE
  {
    [(n / 256) as byte, (n % 256) as byte]
  }

  function ReadU16(b: seq<byte>): nat
    requires |b| >= 2
  {
    b[0] as int * 256 + b[1] as int
  }

  function DataPacket(block: nat, chunk: seq<byte>): seq<byte>
    requires block < WIRE
  {
    U16(OPCODE_DATA) + U16(block) + chunk
  }

  function AckPacket(block: nat): seq<byte>
    requires block < WIRE
  {
    U16(OPCODE_ACK) + U16(block)
  }

  /** What the sender makes of a datagram: the acknowledged block, if it is an ACK at all. */
  function ReadAck(p: seq<byte>): Option<nat> {
    if |p| < 4 then None
    else if ReadU16(p[..2]) == OPCODE_ACK then Some(ReadU16(p[2..4])) else None
  }

  /** What a client makes of a datagram: block number and payload, if it is a DATA packet. */
  function ReadData(p: seq<byte>): Option<(nat, seq<byte>)> {
    if |p| < 4 then None
    else if ReadU16(p[..2]) == OPCODE_DATA then Some((ReadU16(p[2..4]), p[4..])) else None
  }

  lemma AckRoundTrip(block: nat)
    requires block < WIRE
    ensures ReadAck(AckPacket(block)) == Some(block)
  {
    var p := AckPacket(block);
    assert p[..2] == U16(OPCODE_ACK) && p[2..4] == U16(block);
  }

  lemma DataRoundTrip(block: nat, chunk: seq<byte>)
    requires block < WIRE
    ensures ReadData(DataPacket(block, chunk)) == Some((block, chunk))
    ensures ReadAck(DataPacket(block, chunk)) == None
  {
    var p := DataPacket(block, chunk);
    assert p[..2] == U16(OPCODE_DATA) && p[2..4] == U16(block) && p[4..] == chunk;
  }

  // ------------------------------------------------------------------ the sender

  /** One receive call: a timeout, or a datagram and whether it came from the client's address. */
  datatype Reception = Timeout | Datagram(fromPeer: bool, payload: seq<byte>)

  function Acknowledges(r: Reception, block: nat): bool {
    r.Datagram? && r.fromPeer && ReadAck(r.payload) == Some(block)
  }

  function IsReadRequest(r: Reception): bool {
    r.Datagram? && r.fromPeer && |r.payload| >= 2 && ReadU16(r.payload[..2]) == OPCODE_RRQ
  }

  datatype Phase = Listening | Sending | Served | Failed

  /** `block` counts blocks without wrapping; `attempt` counts transmissions of the current one. */
  datatype Sender = Sender(phase: Phase, block: nat, attempt: nat)

  predicate SenderOk(data: seq<byte>, s: Sender) {
    && (s.phase != Listening ==> 1 <= s.block <= NumBlocks(data))
    && (s.phase == Sending ==> 1 <= s.attempt <= MAX_ATTEMPTS)
    && (s.phase == Served ==> s.block == NumBlocks(data))
  }

  /** One receive call while a block is outstanding. */
  function React(data: seq<byte>, s: Sender, r: Reception): (s': Sender)
    requires SenderOk(data, s) && s.phase == Sending
    ensures SenderOk(data, s')
  {
    if Acknowledges(r, Wire(s.block)) then
      if s.block == NumBlocks(data) then s.(phase := Served)
      else Sender(Sending, s.block + 1, 1)
    else if s.attempt < MAX_ATTEMPTS then s.(attempt := s.attempt + 1)
    else s.(phase := Failed)
  }

  /** The packet on the wire while a block is outstanding. */
  function Outstanding(data: seq<byte>, s: Sender): seq<byte>
    requires SenderOk(data, s) && s.phase == Sending
  {
    DataPacket(Wire(s.block), Chunk(data, s.block))
  }

  /** The rest of the transfer, given what every later receive call returns. */
  function Play(data: seq<byte>, s: Sender, net: nat -> Reception, t: nat): (r: (Sender, seq<seq<byte>>))
    requires SenderOk(data, s) && s.phase == Sending
    ensures SenderOk(data, r.0) && (r.0.phase == Served || r.0.phase == Failed)
    ensures |r.1| <= MAX_ATTEMPTS * (NumBlocks(data) - s.block + 1) - (s.attempt - 1)
    decreases NumBlocks(data) - s.block, MAX_ATTEMPTS - s.attempt
  {
    var s' := React(data, s, net(t));
    if s'.phase == Sending then
      var (last, sent) := Play(data, s', net, t + 1);
      (last, [Outstanding(data, s)] + sent)
    else (s', [Outstanding(data, s)])
  }

  function Copies(n: nat, packet: seq<byte>): (r: seq<seq<byte>>)
    ensures |r| == n && forall k :: 0 <= k < n ==> r[k] == packet
  {
    seq(n, _ => packet)
  }

  /** One outstanding block: up to five transmissions. */
  method SendBlock(ghost data: seq<byte>, net: nat -> Reception, t0: nat, ghost i: nat, block: nat, chunk: seq<byte>)
      returns (ok: bool, t: nat, sent: seq<seq<byte>>)
    requires 1 <= i <= NumBlocks(data) && block == Wire(i) && chunk == Chunk(data, i)
    ensures t0 < t <= t0 + MAX_ATTEMPTS
    ensures ok == Acknowledges(net(t - 1), block)
    ensures sent == Copies(t - t0, DataPacket(block, chunk))
    ensures forall k :: t0 <= k < t - 1 ==> !Acknowledges(net(k), block)
    ensures !ok ==> t == t0 + MAX_ATTEMPTS
  {
    var packet := DataPacket(block, chunk);
    ok, t, sent := false, t0, [];
    while t < t0 + MAX_ATTEMPTS
      invariant t0 <= t <= t0 + MAX_ATTEMPTS
      invariant sent == Copies(t - t0, packet)
      invariant forall k :: t0 <= k < t ==> !Acknowledges(net(k), block)
    {
      sent := sent + [packet];
      var r := net(t);
      t := t + 1;
      if r.Timeout? || !r.fromPeer || |r.payload| < 4 { continue; }
      if ReadU16(r.payload[..2]) == OPCODE_ACK && ReadU16(r.payload[2..4]) == block {
        return true, t, sent;
      }
    }
  }

  function At(i: nat): Sender {
    Sender(Sending, i, 1)
  }

  /** What the attempts of one block amount to. */
  lemma {:induction false} PlayBlock(data: seq<byte>, s: Sender, net: nat -> Reception, t: nat, n: nat)
    requires SenderOk(data, s) && s.phase == Sending && 1 <= n && s.attempt - 1 + n <= MAX_ATTEMPTS
    requires forall k :: t <= k < t + n - 1 ==> !Acknowledges(net(k), Wire(s.block))
    requires Acknowledges(net(t + n - 1), Wire(s.block)) || s.attempt - 1 + n == MAX_ATTEMPTS
    ensures Play(data, s, net, t) == AfterBlock(data, s, net, t, n)
    decreases n
  {
    if n > 1 {
      PlayBlock(data, s.(attempt := s.attempt + 1), net, t + 1, n - 1);
      AfterBlockStep(data, s, net, t, n);
    } else {
      LastAttempt(data, s, net, t);
    }
  }

  lemma LastAttempt(data: seq<byte>, s: Sender, net: nat -> Reception, t: nat)
    requires SenderOk(data, s) && s.phase == Sending
    requires Acknowledges(net(t), Wire(s.block)) || s.attempt == MAX_ATTEMPTS
    ensures Play(data, s, net, t) == AfterBlock(data, s, net, t, 1)
  {
    assert Copies(1, Outstanding(data, s)) == [Outstanding(data, s)];
  }

  /** The transfer from a block whose attempts end with the `n`-th receive call from `t`. */
  function AfterBlock(data: seq<byte>, s: Sender, net: nat -> Reception, t: nat, n: nat): (Sender, seq<seq<byte>>)
    requires SenderOk(data, s) && s.phase == Sending && 1 <= n
  {
    var packets := Copies(n, Outstanding(data, s));
    if !Acknowledges(net(t + n - 1), Wire(s.block)) then (s.(phase := Failed, attempt := MAX_ATTEMPTS), packets)
    else if s.block == NumBlocks(data) then (Sender(Served, s.block, s.attempt + n - 1), packets)
    else (Play(data, At(s.block + 1), net, t + n).0, packets + Play(data, At(s.block + 1), net, t + n).1)
  }

  lemma AfterBlockStep(data: seq<byte>, s: Sender, net: nat -> Reception, t: nat, n: nat)
    requires SenderOk(data, s) && s.phase == Sending && 2 <= n && s.attempt - 1 + n <= MAX_ATTEMPTS
    ensures var r := AfterBlock(data, s.(attempt := s.attempt + 1), net, t + 1, n - 1);
      AfterBlock(data, s, net, t, n) == (r.0, [Outstanding(data, s)] + r.1)
  {
    var more := if s.block < NumBlocks(data) then Play(data, At(s.block + 1), net, t + n).1 else [];
    assert [Outstanding(data, s)] + Copies(n - 1, Outstanding(data, s)) == Copies(n, Outstanding(data, s));
    assert [Outstanding(data, s)] + (Copies(n - 1, Outstanding(data, s)) + more)
           == Copies(n, Outstanding(data, s)) + more;
  }

  /** The whole transfer. */
  function Result(data: seq<byte>, net: nat -> Reception): (Sender, seq<seq<byte>>) {
    Play(data, At(1), net, 0)
  }

  /** After `i` acknowledged blocks, with `sent` transmitted and `t` receive calls made. */
  ghost predicate Underway(data: seq<byte>, net: nat -> Reception, i: nat, t: nat, sent: seq<seq<byte>>) {
    && i < NumBlocks(data)
    && Result(data, net) == (Play(data, At(i + 1), net, t).0, sent + Play(data, At(i + 1), net, t).1)
  }

  lemma UnderwayAtStart(data: seq<byte>, net: nat -> Reception)
    ensures Underway(data, net, 0, 0, [])
    ensures |Result(data, net).1| <= MAX_ATTEMPTS * NumBlocks(data)
  {
    assert [] + Play(data, At(1), net, 0).1 == Play(data, At(1), net, 0).1;
  }

  lemma UnderwayStep(data: seq<byte>, net: nat -> Reception, i: nat, t: nat, sent: seq<seq<byte>>, n: nat)
    requires Underway(data, net, i, t, sent) && 1 <= n <= MAX_ATTEMPTS
    requires forall k :: t <= k < t + n - 1 ==> !Acknowledges(net(k), Wire(i + 1))
    requires Acknowledges(net(t + n - 1), Wire(i + 1)) || n == MAX_ATTEMPTS
    ensures var sent' := sent + Copies(n, Outstanding(data, At(i + 1)));
      if !Acknowledges(net(t + n - 1), Wire(i + 1)) then
        Result(data, net).0.phase == Failed && Result(data, net).1 == sent'
      else if i + 1 == NumBlocks(data) then
        Result(data, net).0.phase == Served && Result(data, net).1 == sent'
      else Underway(data, net, i + 1, t + n, sent')
  {
    PlayBlock(data, At(i + 1), net, t, n);
    if i + 1 < NumBlocks(data) {
      var packets, more := Copies(n, Outstanding(data, At(i + 1))), Play(data, At(i + 2), net, t + n).1;
      assert sent + (packets + more) == sent + packets + more;
    }
  }

  lemma UnderwayMore(data: seq<byte>, net: nat -> Reception, i: nat, t: nat, sent: seq<seq<byte>>,
                     t': nat, packets: seq<seq<byte>>)
    requires Underway(data, net, i, t, sent) && t < t' <= t + MAX_ATTEMPTS
    requires packets == Copies(t' - t, DataPacket(Wire(i + 1), Chunk(data, i + 1)))
    requires forall k :: t <= k < t' - 1 ==> !Acknowledges(net(k), Wire(i + 1))
    requires Acknowledges(net(t' - 1), Wire(i + 1)) || t' == t + MAX_ATTEMPTS
    ensures var acknowledged := Acknowledges(net(t' - 1), Wire(i + 1));
      if acknowledged && i + 1 < NumBlocks(data) then Underway(data, net, i + 1, t', sent + packets)
      else Result(data, net).1 == sent + packets && (Result(data, net).0.phase == Served <==> acknowledged)
  {
    UnderwayStep(data, net, i, t, sent, t' - t);
  }

  lemma NextBlock(data: seq<byte>, i: nat)
    requires i < NumBlocks(data)
    ensures (Wire(i) + 1) % WIRE == Wire(i + 1)
    ensures i * BLOCK_SIZE <= |data|
    ensures data[i * BLOCK_SIZE..Min(i * BLOCK_SIZE + BLOCK_SIZE, |data|)] == Chunk(data, i + 1)
    ensures i + 1 < NumBlocks(data) ==> |Chunk(data, i + 1)| == BLOCK_SIZE
    ensures i + 1 == NumBlocks(data) ==> |Chunk(data, i + 1)| < BLOCK_SIZE
  {
    ChunkSizes(data, i + 1);
  }

  /** The transfer loop. */
  method Transfer(data: seq<byte>, net: nat -> Reception) returns (served: bool, sent: seq<seq<byte>>)
    ensures served == (Result(data, net).0.phase == Served)
    ensures sent == Result(data, net).1
    ensures |sent| <= MAX_ATTEMPTS * NumBlocks(data)
  {
    var blockNum, offset, t := 0, 0, 0;
    served, sent := false, [];
    ghost var i := 0;
    UnderwayAtStart(data, net);
    while true
      invariant i < NumBlocks(data) && blockNum == Wire(i) && offset == i * BLOCK_SIZE
      invariant Underway(data, net, i, t, sent)
      decreases NumBlocks(data) - i
    {
      NextBlock(data, i);
      blockNum := (blockNum + 1) % WIRE;
      var chunk := data[offset..Min(offset + BLOCK_SIZE, |data|)];
      offset := offset + |chunk|;
      ghost var t0 := t;
      var ok, packets;
      ok, t, packets := SendBlock(data, net, t, i + 1, blockNum, chunk);
      UnderwayMore(data, net, i, t0, sent, t, packets);
      sent := sent + packets;
      if !ok { return false, sent; }
      if |chunk| < BLOCK_SIZE { return true, sent; }
      i := i + 1;
    }
  }
}
