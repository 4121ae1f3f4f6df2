/** A whole TFTP transfer byte by byte: which packets go out, after which receptions the sender moves on,
    and how it ends. */
module TftpTrace {
  import opened Tftp

  /** The bytes of block `i` as sent. */
  function PacketOf(data: seq<byte>, i: nat): seq<byte>
    requires 1 <= i <= |data| / 512 + 1
  {
    [0, 3, (i / 256 % 256) as byte, (i % 256) as byte]
    + data[512 * (i - 1)..if 512 * i < |data| then 512 * i else |data|]
  }

  /** The receive call yields the client's acknowledgement of block `i`. */
  predicate Acked(r: Reception, i: nat) {
    && r.Datagram? && r.fromPeer && |r.payload| >= 4
    && r.payload[0] == 0 && r.payload[1] == 4 && r.payload[2] as int * 256 + r.payload[3] as int == i % 65536
  }

  /** `blocks` says which block each packet carries: the next one once the last was acknowledged, else
      the same again. */
  ghost predicate InOrder(data: seq<byte>, net: nat -> Reception, t: nat, blocks: seq<nat>, sent: seq<seq<byte>>) {
    && |blocks| == |sent| > 0
    && (forall k :: 0 <= k < |blocks| ==>
          1 <= blocks[k] <= |data| / 512 + 1 && sent[k] == PacketOf(data, blocks[k]))
    && (forall k :: 0 < k < |blocks| ==>
          blocks[k] == if Acked(net(t + k - 1), blocks[k - 1]) then blocks[k - 1] + 1 else blocks[k - 1])
  }

  /** The transfer ends with the acknowledgement of the last block. */
  ghost predicate EndsServed(data: seq<byte>, net: nat -> Reception, t: nat, blocks: seq<nat>) {
    var n := |blocks|;
    n > 0 && blocks[n - 1] == |data| / 512 + 1 && Acked(net(t + n - 1), blocks[n - 1])
  }

  /** The transfer ends with receive calls, five in a row or as many as there were, none of which yields
      an acknowledgement of the one block outstanding. */
  ghost predicate EndsUnanswered(net: nat -> Reception, t: nat, blocks: seq<nat>) {
    var n := |blocks|;
    n > 0 && forall k :: 0 <= k < n && n - 5 <= k ==> blocks[k] == blocks[n - 1] && !Acked(net(t + k), blocks[k])
  }

  lemma AckedMeans(r: Reception, i: nat)
    ensures Acknowledges(r, Wire(i)) <==> Acked(r, i)
  {
    if r.Datagram? && |r.payload| >= 4 {
      var p := r.payload;
      assert p[..2][0] == p[0] && p[..2][1] == p[1] && p[2..4][0] == p[2] && p[2..4][1] == p[3];
    }
  }

  /** What starts a transfer: a datagram of the expected client that carries a read request. */
  lemma RequestMeans(r: Reception)
    ensures IsReadRequest(r) <==>
      r.Datagram? && r.fromPeer && |r.payload| >= 2 && r.payload[0] == 0 && r.payload[1] == 1
  {
    if r.Datagram? && |r.payload| >= 2 {
      assert r.payload[..2][0] == r.payload[0] && r.payload[..2][1] == r.payload[1];
    }
  }

  lemma PacketMeans(data: seq<byte>, s: Sender)
    requires SenderOk(data, s) && s.phase == Sending
    ensures Outstanding(data, s) == PacketOf(data, s.block)
  {
    assert Wire(s.block) / 256 == s.block / 256 % 256 && Wire(s.block) % 256 == s.block % 256;
  }

  lemma OneMore(data: seq<byte>, net: nat -> Reception, t: nat, block: nat, blocks: seq<nat>, sent: seq<seq<byte>>)
    requires InOrder(data, net, t + 1, blocks, sent) && 1 <= block <= |data| / 512 + 1
    requires blocks[0] == if Acked(net(t), block) then block + 1 else block
    ensures InOrder(data, net, t, [block] + blocks, [PacketOf(data, block)] + sent)
  {
    var bs, ps := [block] + blocks, [PacketOf(data, block)] + sent;
    forall k | 0 <= k < |bs|
      ensures 1 <= bs[k] <= |data| / 512 + 1 && ps[k] == PacketOf(data, bs[k])
      ensures k > 0 ==> bs[k] == if Acked(net(t + k - 1), bs[k - 1]) then bs[k - 1] + 1 else bs[k - 1]
    {
      if k > 0 { assert bs[k] == blocks[k - 1] && ps[k] == sent[k - 1]; }
      if k > 1 { assert bs[k - 1] == blocks[k - 2] && t + 1 + (k - 1) - 1 == t + k - 1; }
    }
  }

  lemma ServedMore(data: seq<byte>, net: nat -> Reception, t: nat, block: nat, blocks: seq<nat>)
    requires EndsServed(data, net, t + 1, blocks)
    ensures EndsServed(data, net, t, [block] + blocks)
  {
    assert t + 1 + |blocks| - 1 == t + |[block] + blocks| - 1;
  }

  lemma UnansweredMore(net: nat -> Reception, t: nat, block: nat, blocks: seq<nat>)
    requires EndsUnanswered(net, t + 1, blocks)
    requires |blocks| >= 5 || (blocks[0] == block && !Acked(net(t), block))
    ensures EndsUnanswered(net, t, [block] + blocks)
  {
    var bs := [block] + blocks;
    forall k | 0 <= k < |bs| && |bs| - 5 <= k
      ensures bs[k] == bs[|bs| - 1] && !Acked(net(t + k), bs[k])
    {
      if k > 0 {
        assert bs[k] == blocks[k - 1] && t + 1 + (k - 1) == t + k;
      } else {
        assert blocks[0] == blocks[|blocks| - 1];
      }
    }
  }

  /** The transfer from any point on. */
  lemma {:induction false} PlayTrace(data: seq<byte>, s: Sender, net: nat -> Reception, t: nat)
      returns (blocks: seq<nat>, last: Sender, sent: seq<seq<byte>>)
    requires SenderOk(data, s) && s.phase == Sending
    ensures (last, sent) == Play(data, s, net, t)
    ensures InOrder(data, net, t, blocks, sent) && blocks[0] == s.block
    ensures last.phase == Served ==> EndsServed(data, net, t, blocks)
    ensures last.phase != Served ==> EndsUnanswered(net, t, blocks) && |blocks| >= 6 - s.attempt
    decreases NumBlocks(data) - s.block, MAX_ATTEMPTS - s.attempt
  {
    var s' := React(data, s, net(t));
    AckedMeans(net(t), s.block);
    PacketMeans(data, s);
    if s'.phase == Sending {
      var later, packets;
      later, last, packets := PlayTrace(data, s', net, t + 1);
      blocks, sent := Prepended(data, s, net, t, later, packets);
      assert |blocks| == |later| + 1;
      if last.phase == Served {
        ServedMore(data, net, t, s.block, later);
      } else {
        UnansweredMore(net, t, s.block, later);
      }
    } else {
      blocks, last, sent := [s.block], s', [Outstanding(data, s)];
    }
  }

  lemma Prepended(data: seq<byte>, s: Sender, net: nat -> Reception, t: nat, later: seq<nat>, packets: seq<seq<byte>>)
      returns (blocks: seq<nat>, sent: seq<seq<byte>>)
    requires SenderOk(data, s) && s.phase == Sending && InOrder(data, net, t + 1, later, packets)
    requires later[0] == if Acked(net(t), s.block) then s.block + 1 else s.block
    ensures blocks == [s.block] + later && sent == [Outstanding(data, s)] + packets
    ensures InOrder(data, net, t, blocks, sent) && blocks[0] == s.block
  {
    PacketMeans(data, s);
    OneMore(data, net, t, s.block, later, packets);
    blocks, sent := [s.block] + later, [Outstanding(data, s)] + packets;
  }

  /** The transfer: block after block, each sent until acknowledged; it is served exactly if it ends with
      the acknowledgement of the last block, and else given up after five unanswered attempts. */
  method Serve(data: seq<byte>, net: nat -> Reception)
      returns (served: bool, sent: seq<seq<byte>>, ghost blocks: seq<nat>)
    ensures InOrder(data, net, 0, blocks, sent) && blocks[0] == 1
    ensures |sent| <= 5 * (|data| / 512 + 1)
    ensures if served then EndsServed(data, net, 0, blocks) else EndsUnanswered(net, 0, blocks) && |blocks| >= 5
  {
    ghost var last, packets;
    blocks, last, packets := PlayTrace(data, At(1), net, 0);
    served, sent := Transfer(data, net);
  }
}
