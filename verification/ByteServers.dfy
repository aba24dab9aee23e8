/** The byte servers between tasks and the serial lines (usr/ioserver.c). */
module ByteServers {
  import opened Basics
  import opened RingBuffer

  // ---------- generic_tx_server ----------

  datatype TxMessage = TxNotify | Putc(c: char) | Printf(text: string)

  /** `pending` is what the buffer holds; `canPut` that the line is known to be idle. */
  datatype Tx = Tx(pending: string, canPut: bool)

  datatype TxResult = TxStopped | TxNext(tx: Tx, sent: string)

  /** Text goes in at the end; an idle line takes the first byte at once. */
  function Accept(tx: Tx, text: string, size: nat): TxResult {
    if |tx.pending| + |text| > size then TxStopped
    else if text != [] && tx.canPut then
      var all := tx.pending + text;
      TxNext(Tx(all[1..], false), all[..1])
    else TxNext(Tx(tx.pending + text, tx.canPut), [])
  }

  /** One message. TxStopped is the failed assertion that the buffer has room. */
  function TxStep(tx: Tx, m: TxMessage, size: nat): TxResult {
    match m
    case TxNotify =>
      if tx.pending != [] then TxNext(Tx(tx.pending[1..], false), tx.pending[..1]) else TxNext(Tx([], true), [])
    case Putc(c) => Accept(tx, [c], size)
    case Printf(text) => Accept(tx, text, size)
  }

  function TextOf(m: TxMessage): string {
    match m
    case TxNotify => []
    case Putc(c) => [c]
    case Printf(text) => text
  }

  /** What a server has taken, written and been told so far (`redundant` counts the notifications that found
      the line known to be idle already); once an assertion fails it does nothing more. */
  datatype TxHistory = TxHistory(tx: Tx, accepted: string, output: string, notified: nat, redundant: nat, stopped: bool)

  function TxFeed(h: TxHistory, m: TxMessage, size: nat): TxHistory {
    if h.stopped then h
    else match TxStep(h.tx, m, size)
      case TxStopped => h.(stopped := true)
      case TxNext(tx, sent) =>
        TxHistory(tx, h.accepted + TextOf(m), h.output + sent,
                  if m.TxNotify? then h.notified + 1 else h.notified,
                  if m.TxNotify? && h.tx.canPut then h.redundant + 1 else h.redundant, false)
  }

  function TxRun(messages: seq<TxMessage>, size: nat): TxHistory {
    if messages == [] then TxHistory(Tx([], false), [], [], 0, 0, false)
    else TxFeed(TxRun(messages[..|messages| - 1], size), messages[|messages| - 1], size)
  }

  /** Nothing is lost, reordered or made up; an idle line means an empty buffer; and each notification that
      is not redundant is worth exactly one byte, written or still to be written. */
  ghost predicate TxInv(h: TxHistory, size: nat) {
    && h.output <= h.accepted
    && h.tx.pending == h.accepted[|h.output|..]
    && (h.tx.canPut ==> h.tx.pending == [])
    && |h.output| + (if h.tx.canPut then 1 else 0) + h.redundant == h.notified
    && |h.tx.pending| <= size
  }

  lemma TxFeedKeepsInv(h: TxHistory, m: TxMessage, size: nat)
    requires TxInv(h, size)
    ensures TxInv(TxFeed(h, m, size), size)
  {
    if h.tx.pending == [] {
      assert h.output == h.accepted;
    }
  }

  lemma {:induction false} TxConserves(messages: seq<TxMessage>, size: nat)
    ensures TxInv(TxRun(messages, size), size)
  {
    if messages != [] {
      var before := messages[..|messages| - 1];
      TxConserves(before, size);
      TxFeedKeepsInv(TxRun(before, size), messages[|messages| - 1], size);
    }
  }

  /** The server stops exactly at a text that does not fit behind what is accepted and not yet written, and then for
      good. */
  lemma TxStopsExactly(messages: seq<TxMessage>, m: TxMessage, size: nat)
    ensures var h := TxRun(messages, size);
            TxRun(messages + [m], size).stopped <==> h.stopped || |h.accepted| - |h.output| + |TextOf(m)| > size
    ensures TxRun(messages, size).stopped ==> TxRun(messages + [m], size) == TxRun(messages, size)
  {
    TxConserves(messages, size);
    assert (messages + [m])[..|messages|] == messages;
  }

  class TxServer {
    const buf: RingBuffer<char>
    var canPut: bool

    ghost predicate Valid()
      reads this, buf
    {
      buf.Valid()
    }

    ghost function State(): Tx
      requires Valid()
      reads this, buf, buf.data
    {
      Tx(buf.Contents(), canPut)
    }

    constructor (size: nat)
      ensures Valid() && fresh(buf) && fresh(buf.data) && buf.Size() == size && State() == Tx([], false)
    {
      buf := new RingBuffer<char>(size);
      canPut := false;
    }

    /** The notifier's case of the server loop; `sent` is what it writes to the line. */
    method OnNotify() returns (sent: string)
      requires Valid()
      modifies this, buf
      ensures Valid() && TxNext(State(), sent) == TxStep(old(State()), TxNotify, buf.Size())
    {
      if !buf.IsEmpty() {
        canPut := false;
        var c := buf.Get();
        return [c];
      } else {
        canPut := true;
        return [];
      }
    }

    /** After input: the first byte is written if the line is idle. */
    method SendFirst() returns (sent: string)
      requires Valid() && buf.Contents() != []
      modifies this, buf
      ensures Valid()
      ensures (State(), sent) == if old(canPut) then (Tx(old(buf.Contents())[1..], false), old(buf.Contents())[..1])
                                 else (old(State()), [])
    {
      if canPut {
        var first := buf.Get();
        canPut := false;
        return [first];
      }
      return [];
    }

    method OnPutc(c: char) returns (ok: bool, sent: string)
      requires Valid()
      modifies this, buf, buf.data
      ensures Valid()
      ensures (if ok then TxNext(State(), sent) else TxStopped) == TxStep(old(State()), Putc(c), buf.Size())
    {
      if buf.IsFull() {
        return false, [];
      }
      buf.Put(c);
      sent := SendFirst();
      return true, sent;
    }

    /** The loop of the printf case; an assertion stops it when the buffer is full. */
    method PutAll(text: string) returns (ok: bool)
      requires Valid()
      modifies this, buf, buf.data
      ensures Valid() && canPut == old(canPut)
      ensures ok <==> |old(buf.Contents())| + |text| <= buf.Size()
      ensures ok ==> buf.Contents() == old(buf.Contents()) + text
    {
      hide RingBuffer.Contents;
      for i := 0 to |text|
        invariant Valid() && canPut == old(canPut) && buf.Contents() == old(buf.Contents()) + text[..i]
      {
        if buf.IsFull() {
          return false;
        }
        buf.Put(text[i]);
      }
      assert text[..|text|] == text;
      return true;
    }

    method OnPrintf(text: string) returns (ok: bool, sent: string)
      requires Valid()
      modifies this, buf, buf.data
      ensures Valid()
      ensures (if ok then TxNext(State(), sent) else TxStopped) == TxStep(old(State()), Printf(text), buf.Size())
    {
      hide RingBuffer.Contents;
      ok := PutAll(text);
      if !ok {
        return false, [];
      }
      if |text| == 0 {
        return true, [];
      }
      sent := SendFirst();
      return true, sent;
    }
  }

  // ---------- generic_rx_server ----------

  datatype RxMessage = Received(c: char) | Getc(tid: int)

  datatype Rx = Rx(buffered: string, waiting: seq<int>)

  /** An answer to a Getc. */
  datatype Delivery = Delivery(tid: int, c: char)

  datatype RxResult = RxStopped | RxNext(rx: Rx, replies: seq<Delivery>)

  function RxStep(rx: Rx, m: RxMessage, size: nat): RxResult {
    match m
    case Received(c) =>
      if |rx.buffered| >= size then RxStopped
      else
        var all := rx.buffered + [c];
        if rx.waiting != [] then RxNext(Rx(all[1..], rx.waiting[1..]), [Delivery(rx.waiting[0], all[0])])
        else RxNext(Rx(all, []), [])
    case Getc(tid) =>
      if rx.buffered != [] then RxNext(rx.(buffered := rx.buffered[1..]), [Delivery(tid, rx.buffered[0])])
      else RxNext(rx.(waiting := rx.waiting + [tid]), [])
  }

  datatype RxHistory = RxHistory(rx: Rx, bytes: string, asked: seq<int>, replies: seq<Delivery>, stopped: bool)

  function RxFeed(h: RxHistory, m: RxMessage, size: nat): RxHistory {
    if h.stopped then h
    else match RxStep(h.rx, m, size)
      case RxStopped => h.(stopped := true)
      case RxNext(rx, replies) =>
        RxHistory(rx,
                  if m.Received? then h.bytes + [m.c] else h.bytes,
                  if m.Getc? then h.asked + [m.tid] else h.asked,
                  h.replies + replies, false)
  }

  function RxRun(messages: seq<RxMessage>, size: nat): RxHistory {
    if messages == [] then RxHistory(Rx([], []), [], [], [], false)
    else RxFeed(RxRun(messages[..|messages| - 1], size), messages[|messages| - 1], size)
  }

  /** The k-th reply answers the k-th Getc with the k-th byte. */
  ghost predicate Paired(replies: seq<Delivery>, asked: seq<int>, bytes: string) {
    && |replies| <= |asked| && |replies| <= |bytes|
    && forall k :: 0 <= k < |replies| ==> replies[k] == Delivery(asked[k], bytes[k])
  }

  /** Replies come as soon as both a Getc and a byte are there: what is left over is only ever the
      later bytes or the later Getcs. */
  ghost predicate RxInv(h: RxHistory) {
    && Paired(h.replies, h.asked, h.bytes)
    && h.rx.buffered == h.bytes[|h.replies|..]
    && h.rx.waiting == h.asked[|h.replies|..]
    && (h.rx.buffered == [] || h.rx.waiting == [])
  }

  lemma RxFeedKeepsInv(h: RxHistory, m: RxMessage, size: nat)
    requires RxInv(h)
    ensures RxInv(RxFeed(h, m, size))
  {
  }

  lemma {:induction false} RxDeliversInOrder(messages: seq<RxMessage>, size: nat)
    ensures RxInv(RxRun(messages, size))
  {
    if messages != [] {
      var before := messages[..|messages| - 1];
      RxDeliversInOrder(before, size);
      RxFeedKeepsInv(RxRun(before, size), messages[|messages| - 1], size);
    }
  }

  /** The server stops exactly at a byte that finds the buffer full of bytes that nobody has got, and then for good. */
  lemma RxStopsExactly(messages: seq<RxMessage>, m: RxMessage, size: nat)
    ensures var h := RxRun(messages, size);
            RxRun(messages + [m], size).stopped <==> h.stopped || (m.Received? && |h.bytes| - |h.replies| >= size)
    ensures RxRun(messages, size).stopped ==> RxRun(messages + [m], size) == RxRun(messages, size)
  {
    RxDeliversInOrder(messages, size);
    assert (messages + [m])[..|messages|] == messages;
  }

  class RxServer {
    const buf: RingBuffer<char>
    const waitBuf: RingBuffer<int>

    ghost predicate Valid()
      reads this, buf, waitBuf
    {
      buf.Valid() && waitBuf.Valid() && waitBuf.Size() == MAX_TASKS && buf.data as object != waitBuf.data
    }

    ghost function State(): Rx
      requires Valid()
      reads this, buf, buf.data, waitBuf, waitBuf.data
    {
      Rx(buf.Contents(), waitBuf.Contents())
    }

    constructor (size: nat)
      ensures Valid() && fresh(buf) && fresh(buf.data) && fresh(waitBuf) && fresh(waitBuf.data)
      ensures buf.Size() == size && State() == Rx([], [])
    {
      buf := new RingBuffer<char>(size);
      waitBuf := new RingBuffer<int>(MAX_TASKS);
    }

    /** MESSAGE_NOTIFIER: the line has a byte. */
    method OnReceived(c: char) returns (ok: bool, replies: seq<Delivery>)
      requires Valid()
      modifies buf, buf.data, waitBuf
      ensures Valid()
      ensures (if ok then RxNext(State(), replies) else RxStopped) == RxStep(old(State()), Received(c), buf.Size())
    {
      hide RingBuffer.Contents;
      if buf.IsFull() {
        return false, [];
      }
      buf.Put(c);
      if !waitBuf.IsEmpty() {
        var first := buf.Get();
        var tid := waitBuf.Get();
        return true, [Delivery(tid, first)];
      }
      return true, [];
    }

    /** MESSAGE_GETC; the wait buffer has a slot for every task, so it has room for one that is not in it. */
    method OnGetc(tid: int) returns (replies: seq<Delivery>)
      requires Valid() && |State().waiting| < MAX_TASKS
      modifies buf, waitBuf, waitBuf.data
      ensures Valid() && RxNext(State(), replies) == RxStep(old(State()), Getc(tid), buf.Size())
    {
      if !buf.IsEmpty() {
        var c := buf.Get();
        return [Delivery(tid, c)];
      } else {
        waitBuf.Put(tid);
        return [];
      }
    }
  }
}
