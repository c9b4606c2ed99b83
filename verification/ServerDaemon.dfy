/** The server daemon: it acknowledges what its buffer accepts, hands packets on in
    order, and counts the bytes the server acknowledges.  What the buffer answers to
    a push or a pop is given as input. */
module ServerDaemons {
  import opened Common
  import opened FileTransfer

  /** A packet that arrived, and the buffer's answer to storing it. */
  datatype Arrival = Arrival(seqNo: int, rem: int)

  /** One iteration: perhaps an arrival, and the buffer's answer to popping the next packet. */
  datatype Input = Input(arrival: Option<Arrival>, usd: int)

  datatype Daemon = Daemon(handed: nat, acked: int, remaining: int, acksSent: seq<int>, done: bool)

  function Start(size: nat): Daemon
  {
    Daemon(0, 0, size, [], false)
  }

  /** One iteration; the server's reply to a packet is AckOf its position.  A daemon that
      is not done has a packet left to hand over (see Accounting). */
  function Turn(d: Daemon, size: nat, input: Input): Daemon
  {
    if d.done then d else
    var a := if input.arrival.Some? && input.arrival.value.rem >= 0
             then d.(acksSent := d.acksSent + [input.arrival.value.seqNo]) else d;
    var h := if input.usd >= 0 && a.handed < BlockCount(size)
             then a.(handed := a.handed + 1, acked := a.acked + AckOf(size, a.handed),
                     remaining := a.remaining - AckOf(size, a.handed))
             else a;
    h.(done := h.acked >= size)
  }

  class ServerDaemon {
    var packetCountServer: nat
    var fileSizeSentToClient: int
    var remainingFileSize: int
    const fileSize: nat
    var acks: seq<int>
    var done: bool

    ghost function Value(): Daemon
      reads this
    {
      Daemon(packetCountServer, fileSizeSentToClient, remainingFileSize, acks, done)
    }

    constructor (size: nat)
      ensures fileSize == size && Value() == Start(size)
    {
      fileSize, remainingFileSize := size, size;
      packetCountServer, fileSizeSentToClient, acks, done := 0, 0, [], false;
    }

    /** freeSize is the server's reply when a packet is handed over. */
    method Iterate(arrival: Option<Arrival>, usd: int, freeSize: int)
      requires !done && packetCountServer < BlockCount(fileSize)
      requires freeSize == AckOf(fileSize, packetCountServer)
      modifies this
      ensures Value() == Turn(old(Value()), fileSize, Input(arrival, usd))
    {
      if arrival.Some? {
        if arrival.value.rem >= 0 {
          acks := acks + [arrival.value.seqNo];
        }
      }
      if usd >= 0 {
        fileSizeSentToClient := fileSizeSentToClient + freeSize;
        remainingFileSize := remainingFileSize - freeSize;
        packetCountServer := packetCountServer + 1;
      }
      if fileSizeSentToClient >= fileSize {
        done := true;
      }
    }
  }

  function Run(size: nat, inputs: seq<Input>, n: nat): Daemon
    requires n <= |inputs|
  {
    if n == 0 then Start(size) else Turn(Run(size, inputs, n - 1), size, inputs[n - 1])
  }

  /** In every run the bytes sent on and the bytes remaining add up to the file size, and
      the daemon is done exactly when the replies of the server total the file size,
      that is when the packets holding its bytes have been handed over. */
  lemma {:induction false} Accounting(size: nat, inputs: seq<Input>, n: nat)
    requires n <= |inputs|
    ensures var d := Run(size, inputs, n);
            && d.acked + d.remaining == size
            && d.handed <= BlockCount(size) && d.acked == AckTotal(size, d.handed) == Min2(MSS * d.handed, size)
            && (n > 0 ==> (d.done <==> d.acked == size) && (d.done <==> d.handed >= (size + MSS - 1) / MSS))
            && (!d.done ==> d.handed < BlockCount(size))
  {
    if n == 0 {
    } else {
      Accounting(size, inputs, n - 1);
    }
    AckTotalIs(size, Run(size, inputs, n).handed);
  }

  /** The answers among the first n inputs that make the daemon hand a packet over. */
  function Poppable(inputs: seq<Input>, n: nat): (p: nat)
    requires n <= |inputs|
    ensures p <= n
  {
    if n == 0 then 0 else Poppable(inputs, n - 1) + if inputs[n - 1].usd >= 0 then 1 else 0
  }

  lemma {:induction false} HandsOverAll(size: nat, inputs: seq<Input>, n: nat)
    requires n <= |inputs|
    ensures Run(size, inputs, n).handed <= Poppable(inputs, n)
    ensures n == 0 || !Run(size, inputs, n - 1).done ==> Run(size, inputs, n).handed == Poppable(inputs, n)
  {
    if n == 0 {
    } else {
      HandsOverAll(size, inputs, n - 1);
      Accounting(size, inputs, n - 1);
    }
  }

  /** The daemon hands a packet over in every iteration in which the buffer has the next one,
      whatever space is left, and is done from exactly the iteration on in which these are
      as many as the packets that hold the file's bytes. */
  lemma {:induction false} DoneIff(size: nat, inputs: seq<Input>, n: nat)
    requires n <= |inputs|
    ensures var d := Run(size, inputs, n); var all := (size + MSS - 1) / MSS;
            && (n > 0 ==> (d.done <==> Poppable(inputs, n) >= all))
            && (!d.done ==> d.handed == Poppable(inputs, n))
            && (n > 0 && d.done ==> d.handed == all || (size == 0 && d.handed <= 1))
  {
    HandsOverAll(size, inputs, n);
    Accounting(size, inputs, n);
    if n == 0 {
    } else {
      DoneIff(size, inputs, n - 1);
      Accounting(size, inputs, n - 1);
    }
  }

  /** The numbers of the packets among the first n inputs that the buffer accepted. */
  function Accepted(inputs: seq<Input>, n: nat): seq<int>
    requires n <= |inputs|
  {
    if n == 0 then []
    else
      var a := inputs[n - 1].arrival;
      Accepted(inputs, n - 1) + if a.Some? && a.value.rem >= 0 then [a.value.seqNo] else []
  }

  /** Until the daemon is done it has acknowledged exactly the accepted packets, each
      under its own number and in order of arrival, and afterwards nothing more. */
  lemma {:induction false} AcksAreAccepted(size: nat, inputs: seq<Input>, n: nat)
    requires n <= |inputs|
    ensures Run(size, inputs, n).acksSent <= Accepted(inputs, n)
    ensures n == 0 || !Run(size, inputs, n - 1).done ==> Run(size, inputs, n).acksSent == Accepted(inputs, n)
  {
    if n == 0 {
    } else {
      AcksAreAccepted(size, inputs, n - 1);
    }
  }
}
