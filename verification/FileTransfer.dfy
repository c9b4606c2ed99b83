/** The two applications: the client cuts a file into packet-sized blocks, the server
    puts the file together again. */
module FileTransfer {
  import opened Common

  // ------------------------------------------------------------ specification

  /** One block for every full packet, and always one more. */
  function BlockCount(size: nat): nat
  {
    size / MSS + 1
  }

  /** Block k of a file, when the send buffer started out as `stale`: the last block is
      only partly overwritten and keeps the end of the block before it. */
  function BlockOf(file: seq<byte>, stale: Block, k: nat): (b: Block)
    requires k < BlockCount(|file|)
  {
    if k < |file| / MSS then file[k * MSS..k * MSS + MSS]
    else
      var before: Block := if k == 0 then stale else file[(k - 1) * MSS..k * MSS];
      file[k * MSS..] + before[|file| - k * MSS..]
  }

  function Blocks(file: seq<byte>, stale: Block): (bs: seq<Block>)
    ensures |bs| == BlockCount(|file|)
  {
    seq(BlockCount(|file|), k requires 0 <= k < BlockCount(|file|) => BlockOf(file, stale, k))
  }

  /** The first `size` bytes of a block stream. */
  function Joined(size: nat, blocks: seq<Block>): seq<byte>
    requires |blocks| >= BlockCount(size)
  {
    seq(size, i requires 0 <= i < size => blocks[i / MSS][i % MSS])
  }

  /** The byte count the server acknowledges for block k. */
  function AckOf(size: nat, k: nat): int
    requires k < BlockCount(size)
  {
    if k < size / MSS then MSS else size % MSS
  }

  function AckTotal(size: nat, j: nat): int
    requires j <= BlockCount(size)
  {
    if j == 0 then 0 else AckTotal(size, j - 1) + AckOf(size, j - 1)
  }

  // ------------------------------------------------------------------- ft_client

  /** SENDD: transmit and wait, again and again until a reply is not negative.  The
      replies are those the daemon will give; among them is one that accepts. */
  method SendD(msg: Block, replies: seq<int>) returns (transmissions: seq<Block>, ack: int)
    requires exists i :: 0 <= i < |replies| && replies[i] >= 0
    ensures 0 < |transmissions| <= |replies| && ack == replies[|transmissions| - 1] >= 0
    ensures forall i | 0 <= i < |transmissions| - 1 :: replies[i] < 0
    ensures forall i | 0 <= i < |transmissions| :: transmissions[i] == msg
  {
    ack, transmissions := -1, [];
    while ack < 0
      invariant |transmissions| <= |replies|
      invariant forall i | 0 <= i < |transmissions| :: i < |transmissions| - 1 || ack < 0 ==> replies[i] < 0
      invariant forall i | 0 <= i < |transmissions| :: transmissions[i] == msg
      invariant ack == if transmissions == [] then -1 else replies[|transmissions| - 1]
      decreases |replies| - |transmissions|
    {
      ack := replies[|transmissions|];
      transmissions := transmissions + [msg];
    }
  }

  /** A buffer whose first n bytes have been replaced by those of the file from `from`. */
  function Filled(before: Block, file: seq<byte>, from: nat, n: nat): Block
    requires n <= MSS && from + n <= |file|
  {
    file[from..from + n] + before[n..]
  }

  /** fread into the front of a buffer. */
  method Fread(buffer: array<byte>, file: seq<byte>, from: nat, n: nat)
    requires buffer.Length == MSS && n <= MSS && from + n <= |file|
    modifies buffer
    ensures buffer[..] == Filled(old(buffer[..]), file, from, n)
  {
    forall i | 0 <= i < n {
      buffer[i] := file[from + i];
    }
  }

  /** The client's transfer loop and its last block, over the buffer it reuses. */
  method SplitFile(file: seq<byte>, sendbuffer: array<byte>) returns (sent: seq<Block>)
    requires sendbuffer.Length == MSS
    modifies sendbuffer
    ensures sent == Blocks(file, old(sendbuffer[..]))
  {
    ghost var stale: Block := sendbuffer[..];
    ghost var blocks := Blocks(file, stale);
    hide Blocks, BlockCount, BlockOf, Filled;
    var remaining := |file|;
    sent := [];
    while remaining / MSS >= 1
      invariant 0 <= remaining == |file| - MSS * |sent|
      invariant sent <= blocks
      invariant sendbuffer[..] == if sent == [] then stale else sent[|sent| - 1]
      decreases remaining
    {
      FullBlock(file, stale, |sent|, sendbuffer[..]);
      Fread(sendbuffer, file, |file| - remaining, MSS);
      PrefixGrows(sent, blocks, sendbuffer[..]);
      sent := sent + [sendbuffer[..]];
      remaining := remaining - MSS;
    }
    LastBlock(file, stale, |sent|);
    Fread(sendbuffer, file, |file| - remaining, remaining);
    PrefixGrows(sent, blocks, sendbuffer[..]);
    sent := sent + [sendbuffer[..]];
  }

  lemma PrefixGrows(p: seq<Block>, s: seq<Block>, b: Block)
    requires p <= s && |p| < |s| && s[|p|] == b
    ensures p + [b] <= s && (|p| + 1 == |s| ==> p + [b] == s)
  {
  }

  lemma FullBlock(file: seq<byte>, stale: Block, k: nat, before: Block)
    requires |file| - MSS * k >= MSS
    ensures k < |Blocks(file, stale)| && Blocks(file, stale)[k] == Filled(before, file, MSS * k, MSS)
  {
    assert k < |file| / MSS;
  }

  lemma LastBlock(file: seq<byte>, stale: Block, k: nat)
    requires 0 <= |file| - MSS * k < MSS
    ensures k == |Blocks(file, stale)| - 1
    ensures var before := if k == 0 then stale else Blocks(file, stale)[k - 1];
            Blocks(file, stale)[k] == Filled(before, file, MSS * k, |file| - MSS * k)
  {
    assert |file| / MSS == k;
    assert k > 0 ==> |file| - MSS * (k - 1) >= MSS;
  }

  // ------------------------------------------------------------------------ ftps

  /** recvfrom into the first n bytes of a buffer: the rest of the datagram is lost. */
  method ReceiveInto(recvbuffer: array<byte>, datagram: Block, n: nat)
    requires recvbuffer.Length == MSS && n <= MSS
    modifies recvbuffer
    ensures recvbuffer[..n] == datagram[..n] && recvbuffer[n..] == old(recvbuffer[n..])
  {
    forall i | 0 <= i < n {
      recvbuffer[i] := datagram[i];
    }
  }

  /** The server's loop and its last block: what it writes and what it acknowledges. */
  method Reassemble(size: nat, datagrams: seq<Block>, recvbuffer: array<byte>)
    returns (output: seq<byte>, acks: seq<int>)
    requires |datagrams| == BlockCount(size) && recvbuffer.Length == MSS
    modifies recvbuffer
    ensures output == Joined(size, datagrams)
    ensures |acks| == BlockCount(size) && forall k | 0 <= k < |acks| :: acks[k] == AckOf(size, k)
  {
    var remaining := size;
    output, acks := [], [];
    while remaining / MSS >= 1
      invariant 0 <= remaining == size - MSS * |acks|
      invariant |acks| <= size / MSS
      invariant forall k | 0 <= k < |acks| :: acks[k] == AckOf(size, k)
      invariant |output| == MSS * |acks|
      invariant forall i | 0 <= i < |output| :: output[i] == datagrams[i / MSS][i % MSS]
      decreases remaining
    {
      var k := |acks|;
      ReceiveInto(recvbuffer, datagrams[k], MSS);
      assert recvbuffer[..] == datagrams[k];
      Appended(output, datagrams, k, MSS);
      acks := acks + [Min2(MSS, remaining)];
      output := output + recvbuffer[..];
      remaining := remaining - MSS;
    }
    var k := |acks|;
    ReceiveInto(recvbuffer, datagrams[k], remaining);
    Appended(output, datagrams, k, remaining);
    acks := acks + [remaining];
    output := output + recvbuffer[..remaining];
  }

  lemma Appended(output: seq<byte>, datagrams: seq<Block>, k: nat, n: nat)
    requires k < |datagrams| && |output| == MSS * k && n <= MSS
    requires forall i | 0 <= i < |output| :: output[i] == datagrams[i / MSS][i % MSS]
    ensures var longer := output + datagrams[k][..n];
            forall i | 0 <= i < |longer| :: i / MSS < |datagrams| && longer[i] == datagrams[i / MSS][i % MSS]
  {
    var longer := output + datagrams[k][..n];
    forall i | 0 <= i < |longer|
      ensures i / MSS < |datagrams| && longer[i] == datagrams[i / MSS][i % MSS]
    {
      if i >= |output| {
        assert i / MSS == k && i % MSS == i - MSS * k;
      }
    }
  }

  // ----------------------------------------------------------------- round trip

  /** Splitting then joining is the identity for every file, whatever the send buffer
      held before: empty files and multiples of the packet size included. */
  lemma SplitThenJoin(file: seq<byte>, stale: Block)
    ensures Joined(|file|, Blocks(file, stale)) == file
  {
    forall i | 0 <= i < |file|
      ensures BlockOf(file, stale, i / MSS)[i % MSS] == file[i]
    {
      assert i == MSS * (i / MSS) + i % MSS;
    }
  }

  /** What no byte of the file has overwritten in the last block is what the send buffer held
      before: the end of the block sent just before, or of the initial buffer. */
  lemma TailIsStale(file: seq<byte>, stale: Block, i: nat)
    requires |file| % MSS <= i < MSS
    ensures var blocks := Blocks(file, stale); var last := |blocks| - 1;
            blocks[last][i] == if last == 0 then stale[i] else blocks[last - 1][i]
  {
    var last := |file| / MSS;
    assert |file| - last * MSS == |file| % MSS;
    assert last > 0 ==> Blocks(file, stale)[last - 1] == file[(last - 1) * MSS..last * MSS];
  }

  /** The acknowledged bytes never run ahead of the data and end up at the file size. */
  lemma {:induction false} AckTotalIs(size: nat, j: nat)
    requires j <= BlockCount(size)
    ensures AckTotal(size, j) == Min2(MSS * j, size)
  {
    if j == 0 {
    } else {
      AckTotalIs(size, j - 1);
    }
  }
}
