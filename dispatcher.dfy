/**
 * Event delivery (src/sensu/snmp/dispatcher.py): a consumer loop takes events
 * from the head of a double-ended queue and hands each to a transport that
 * opens a fresh connection per attempt; a failed event goes back to the head
 * and the loop idles for a configured number of one-second ticks.
 */
module Dispatcher {
  import opened Wrappers
  import opened Event

  // ---------------------------------------------------------------------------
  // The queue and its one-tick step
  // ---------------------------------------------------------------------------

  /** The pending events, head first, and the backoff countdown in ticks. */
  datatype QueueState<E> = QueueState(events: seq<E>, backoff: int)

  /** The next tick tries to deliver the head event. */
  predicate WillAttempt<E>(s: QueueState<E>)
  {
    s.backoff <= 0 && s.events != []
  }

  /**
   * One iteration of the consumer loop, given whether the transport would
   * deliver the head: idle while backing off, nothing on an empty queue,
   * drop the head on success, keep it at the head and back off on failure.
   */
  function Step<E>(s: QueueState<E>, retry: int, delivered: bool): (r: QueueState<E>)
    ensures WillAttempt(s) && delivered ==> r.events == s.events[1..]
    ensures !(WillAttempt(s) && delivered) ==> r.events == s.events
    ensures s.backoff > 0 ==> r.backoff == s.backoff - 1
    ensures WillAttempt(s) && !delivered ==> r.backoff == retry
    ensures s.backoff <= 0 && (s.events == [] || delivered) ==> r.backoff == s.backoff
  {
    if s.backoff > 0 then QueueState(s.events, s.backoff - 1)
    else if s.events == [] then s
    else if delivered then QueueState(s.events[1..], s.backoff)
    else QueueState(s.events, retry)
  }

  /** What happens to the queue: the producer enqueues, or the consumer ticks. */
  datatype Input<E> = Enqueue(e: E) | Tick(delivered: bool)

  function Apply<E>(s: QueueState<E>, retry: int, i: Input<E>): QueueState<E>
  {
    match i
    case Enqueue(e) => QueueState(s.events + [e], s.backoff)
    case Tick(ok) => Step(s, retry, ok)
  }

  /** The state after a run of inputs. */
  function Run<E>(s: QueueState<E>, retry: int, ins: seq<Input<E>>): QueueState<E>
    decreases |ins|
  {
    if ins == [] then s else Run(Apply(s, retry, ins[0]), retry, ins[1..])
  }

  /** The events delivered during a run, in delivery order. */
  function Delivered<E>(s: QueueState<E>, retry: int, ins: seq<Input<E>>): seq<E>
    decreases |ins|
  {
    if ins == [] then []
    else
      var now := if ins[0].Tick? && ins[0].delivered && WillAttempt(s) then [s.events[0]] else [];
      now + Delivered(Apply(s, retry, ins[0]), retry, ins[1..])
  }

  /** The events whose delivery was attempted during a run, one per attempting tick. */
  function Attempts<E>(s: QueueState<E>, retry: int, ins: seq<Input<E>>): seq<E>
    decreases |ins|
  {
    if ins == [] then []
    else
      var now := if ins[0].Tick? && WillAttempt(s) then [s.events[0]] else [];
      now + Attempts(Apply(s, retry, ins[0]), retry, ins[1..])
  }

  function Enqueued<E>(ins: seq<Input<E>>): seq<E>
  {
    if ins == [] then [] else (if ins[0].Enqueue? then [ins[0].e] else []) + Enqueued(ins[1..])
  }

  function TickCount<E>(ins: seq<Input<E>>): nat
  {
    if ins == [] then 0 else (if ins[0].Tick? then 1 else 0) + TickCount(ins[1..])
  }

  /**
   * FIFO delivery: whatever the transport outcomes, the delivered events
   * followed by the events still queued are exactly the queued events followed
   * by the enqueued ones; nothing is lost, duplicated or reordered, and the
   * delivered events are a prefix of the enqueue order.
   */
  lemma {:induction false} FifoDelivery<E>(s: QueueState<E>, retry: int, ins: seq<Input<E>>)
    ensures Delivered(s, retry, ins) + Run(s, retry, ins).events == s.events + Enqueued(ins)
    decreases |ins|
  {
    if ins != [] {
      var s' := Apply(s, retry, ins[0]);
      FifoDelivery(s', retry, ins[1..]);
      match ins[0]
      case Enqueue(e) =>
        calc {
          Delivered(s, retry, ins) + Run(s, retry, ins).events;
          Delivered(s', retry, ins[1..]) + Run(s', retry, ins[1..]).events;
          (s.events + [e]) + Enqueued(ins[1..]);
          s.events + ([e] + Enqueued(ins[1..]));
        }
      case Tick(ok) =>
        if ok && WillAttempt(s) {
          calc {
            Delivered(s, retry, ins) + Run(s, retry, ins).events;
            ([s.events[0]] + Delivered(s', retry, ins[1..])) + Run(s', retry, ins[1..]).events;
            [s.events[0]] + (s.events[1..] + Enqueued(ins[1..]));
            { assert [s.events[0]] + s.events[1..] == s.events; }
            s.events + Enqueued(ins[1..]);
          }
        } else {
          assert Delivered(s, retry, ins) == Delivered(s', retry, ins[1..]);
          assert s'.events == s.events && Enqueued(ins) == Enqueued(ins[1..]);
        }
    }
  }

  /** Until an event is delivered, every attempt is made on the same head event. */
  lemma {:induction false} HeadOfLine<E>(s: QueueState<E>, retry: int, ins: seq<Input<E>>)
    requires s.events != [] && Delivered(s, retry, ins) == []
    ensures forall i :: 0 <= i < |Attempts(s, retry, ins)| ==> Attempts(s, retry, ins)[i] == s.events[0]
    ensures Run(s, retry, ins).events != [] && Run(s, retry, ins).events[0] == s.events[0]
    decreases |ins|
  {
    if ins != [] {
      var s' := Apply(s, retry, ins[0]);
      assert s'.events != [] && s'.events[0] == s.events[0];
      HeadOfLine(s', retry, ins[1..]);
    }
  }

  /** While the countdown lasts no attempt is made, and each tick takes one off it. */
  lemma {:induction false} BackoffIdle<E>(s: QueueState<E>, retry: int, ins: seq<Input<E>>)
    requires 0 <= s.backoff && TickCount(ins) <= s.backoff
    ensures Attempts(s, retry, ins) == []
    ensures Run(s, retry, ins) == QueueState(s.events + Enqueued(ins), s.backoff - TickCount(ins))
    decreases |ins|
  {
    if ins != [] {
      var s' := Apply(s, retry, ins[0]);
      BackoffIdle(s', retry, ins[1..]);
      if ins[0].Enqueue? {
        assert s.events + Enqueued(ins) == (s.events + [ins[0].e]) + Enqueued(ins[1..]);
      }
    }
  }

  /**
   * After a failed attempt with configured backoff `retry >= 0`, exactly
   * `retry` ticks pass without an attempt, whatever is enqueued meanwhile, and
   * the next attempt is on the event that failed.
   */
  lemma RetryAfterFailure<E>(s: QueueState<E>, retry: int, ins: seq<Input<E>>)
    requires WillAttempt(s) && 0 <= retry && TickCount(ins) <= retry
    ensures Step(s, retry, false) == QueueState(s.events, retry)
    ensures Attempts(Step(s, retry, false), retry, ins) == []
    ensures WillAttempt(Run(Step(s, retry, false), retry, ins)) <==> TickCount(ins) == retry
    ensures Run(Step(s, retry, false), retry, ins).events != []
    ensures Run(Step(s, retry, false), retry, ins).events[0] == s.events[0]
  {
    BackoffIdle(Step(s, retry, false), retry, ins);
  }

  // ---------------------------------------------------------------------------
  // Acknowledgement
  // ---------------------------------------------------------------------------

  /** The characters Python's `str.strip()` removes. */
  predicate IsSpace(c: char)
  {
    c == ' ' || c == '\t' || c == '\n' || c == '\r' || c == '\U{000B}' || c == '\U{000C}'
  }

  predicate AllSpace(s: string)
  {
    forall i :: 0 <= i < |s| ==> IsSpace(s[i])
  }

  /** Python's `str.lstrip()`: what it removes is whitespace, and what remains does not start with whitespace. */
  function StripLeft(s: string): (r: string)
    ensures |r| <= |s| && r == s[|s| - |r|..] && AllSpace(s[..|s| - |r|])
    ensures r != [] ==> !IsSpace(r[0])
  {
    if s != [] && IsSpace(s[0]) then
      var r := StripLeft(s[1..]);
      assert s[..|s| - |r|] == [s[0]] + s[1..][..|s[1..]| - |r|];
      r
    else s
  }

  /** Python's `str.rstrip()`: what it removes is whitespace, and what remains does not end with whitespace. */
  function StripRight(s: string): (r: string)
    ensures |r| <= |s| && r == s[..|r|] && AllSpace(s[|r|..])
    ensures r != [] ==> !IsSpace(r[|r| - 1])
  {
    if s != [] && IsSpace(s[|s| - 1]) then
      var r := StripRight(s[..|s| - 1]);
      assert s[|r|..] == s[..|s| - 1][|r|..] + [s[|s| - 1]];
      r
    else s
  }

  /** `r` is `s` with some whitespace cut from each end and nothing else. */
  ghost predicate TrimmedOf(s: string, r: string)
  {
    exists i :: 0 <= i <= |s| - |r| && r == s[i..i + |r|] && AllSpace(s[..i]) && AllSpace(s[i + |r|..])
  }

  /** Python's `str.strip()`: leading and trailing whitespace removed, so neither end is whitespace. */
  function Strip(s: string): (r: string)
    ensures TrimmedOf(s, r)
    ensures r != [] ==> !IsSpace(r[0]) && !IsSpace(r[|r| - 1])
  {
    var l := StripLeft(s);
    var r := StripRight(l);
    TrimBoth(s, l, r);
    assert r != [] ==> r[0] == l[0];
    r
  }

  /** Cutting whitespace from the front and then from the back is a trim. */
  lemma TrimBoth(s: string, l: string, r: string)
    requires |l| <= |s| && l == s[|s| - |l|..] && AllSpace(s[..|s| - |l|])
    requires |r| <= |l| && r == l[..|r|] && AllSpace(l[|r|..])
    ensures TrimmedOf(s, r)
  {
    var i := |s| - |l|;
    assert s[i + |r|..] == l[|r|..];
    assert r == s[i..i + |r|];
  }

  /** "ok" with nothing but whitespace around it. */
  ghost predicate PaddedOk(data: string)
  {
    exists p :: 0 <= p <= |data| - 2 && AllSpace(data[..p]) && data[p..p + 2] == "ok" && AllSpace(data[p + 2..])
  }

  /** The reply check of `dispatch`: some data arrived and, stripped, it is "ok". */
  predicate IsAck(data: string)
    ensures IsAck(data) <==> PaddedOk(data)
  {
    StripOk(data);
    |data| > 0 && Strip(data) == "ok"
  }

  lemma {:induction false} StripLeftPadded(l: string, r: string)
    requires AllSpace(l) && r != [] && !IsSpace(r[0])
    ensures StripLeft(l + r) == r
  {
    if l != [] {
      assert (l + r)[1..] == l[1..] + r;
      StripLeftPadded(l[1..], r);
    }
  }

  lemma {:induction false} StripRightPadded(l: string, r: string)
    requires AllSpace(r) && l != [] && !IsSpace(l[|l| - 1])
    ensures StripRight(l + r) == l
  {
    if r != [] {
      assert (l + r)[..|l + r| - 1] == l + r[..|r| - 1];
      StripRightPadded(l, r[..|r| - 1]);
    }
  }

  /** "ok" surrounded by any whitespace strips to "ok". */
  lemma AckPadded(l: string, r: string)
    requires AllSpace(l) && AllSpace(r)
    ensures Strip(l + "ok" + r) == "ok"
  {
    assert l + "ok" + r == l + ("ok" + r);
    StripLeftPadded(l, "ok" + r);
    StripRightPadded("ok", r);
  }

  /** Data that strips to "ok" is "ok" surrounded by whitespace, and nothing else. */
  lemma AckShape(data: string)
    requires Strip(data) == "ok"
    ensures PaddedOk(data)
  {
    var t := StripLeft(data);
    var p := |data| - |t|;
    assert StripRight(t) == "ok";
    assert t[..2] == "ok" && AllSpace(t[2..]);
    assert data[p..p + 2] == t[..2];
    assert data[p + 2..] == t[2..];
  }

  /** Data that is "ok" surrounded by whitespace strips to "ok". */
  lemma PaddedAck(data: string)
    requires PaddedOk(data)
    ensures |data| > 0 && Strip(data) == "ok"
  {
    var p :| 0 <= p <= |data| - 2 && AllSpace(data[..p]) && data[p..p + 2] == "ok" && AllSpace(data[p + 2..]);
    assert data == data[..p] + "ok" + data[p + 2..];
    AckPadded(data[..p], data[p + 2..]);
  }

  /** Stripping leaves "ok" exactly when the data is "ok" surrounded by whitespace. */
  lemma StripOk(data: string)
    ensures (|data| > 0 && Strip(data) == "ok") <==> PaddedOk(data)
  {
    if Strip(data) == "ok" {
      AckShape(data);
    }
    if PaddedOk(data) {
      PaddedAck(data);
    }
  }

  // ---------------------------------------------------------------------------
  // The transport: TrapEventDispatcher
  // ---------------------------------------------------------------------------

  /** What the network does during one delivery attempt. */
  datatype LinkOutcome =
    | ConnectFailed      // socket.connect raised
    | SendFailed         // sendall (or the reply handling) raised
    | Sent(reply: string)// the event was written; `reply` is the first data read, "" if none before the timeout

  /** `dispatch` returns True: the event was written and, when replies are checked, acknowledged. */
  predicate Delivers(checkResponse: bool, link: LinkOutcome)
    ensures Delivers(checkResponse, link) <==> link.Sent? && (!checkResponse || PaddedOk(link.reply))
  {
    link.Sent? && (!checkResponse || IsAck(link.reply))
  }

  /** A client connection. */
  class Socket {
    var isOpen: bool

    constructor ()
      ensures isOpen
    {
      isOpen := true;
    }

    method Close()
      modifies this
      ensures !isOpen
    {
      isOpen := false;
    }
  }

  class TrapEventDispatcher {
    const checkResponse: bool
    var socket: Socket?

    constructor (checkResponse: bool)
      ensures this.checkResponse == checkResponse && socket == null
    {
      this.checkResponse := checkResponse;
      socket := null;
    }

    /** `_close`: close the held connection, if any, and hold none. */
    method Close()
      modifies this, socket
      ensures socket == null
      ensures old(socket) != null ==> !old(socket).isOpen
      ensures old(socket) == null ==> unchanged(this)
    {
      if socket != null {
        socket.Close();
      }
      socket := null;
    }

    /** `_connect`: a fresh connection; on a connect failure it is closed again. */
    method Connect(link: LinkOutcome) returns (ghost conn: Socket)
      modifies this
      ensures fresh(conn)
      ensures link.ConnectFailed? ==> socket == null && !conn.isOpen
      ensures !link.ConnectFailed? ==> socket == conn && conn.isOpen
    {
      socket := new Socket();
      conn := socket;
      if link.ConnectFailed? {
        Close();
      }
    }

    /**
     * `dispatch`: connect, send, check the reply when configured, and close
     * the connection on every path.
     */
    method Dispatch(event: TrapEvent, link: LinkOutcome) returns (ok: bool, ghost conn: Socket)
      modifies this
      ensures ok == Delivers(checkResponse, link)
      ensures socket == null && fresh(conn) && !conn.isOpen
    {
      conn := Connect(link);
      if socket == null {
        ok := false;   // sendall on None raises, the handler swallows it
      } else if link.SendFailed? {
        ok := false;
      } else if checkResponse && !IsAck(link.reply) {
        ok := false;
      } else {
        ok := true;
      }
      Close();
    }
  }

  // ---------------------------------------------------------------------------
  // The consumer: TrapEventDispatcherThread
  // ---------------------------------------------------------------------------

  class TrapEventDispatcherThread {
    var events: seq<TrapEvent>
    var backoff: int
    var running: bool
    /** The configured `dispatcher.backoff`, in ticks. */
    const retry: int
    const transport: TrapEventDispatcher

    function State(): QueueState<TrapEvent>
      reads this
    {
      QueueState(events, backoff)
    }

    constructor (retry: int, checkResponse: bool)
      ensures events == [] && backoff == 0 && !running && this.retry == retry
      ensures fresh(transport) && transport.checkResponse == checkResponse && transport.socket == null
    {
      events := [];
      backoff := 0;
      running := false;
      this.retry := retry;
      transport := new TrapEventDispatcher(checkResponse);
    }

    /** `dispatch`: the producer's enqueue; it appends at the tail and always succeeds. */
    method Dispatch(event: TrapEvent) returns (ok: bool)
      modifies this`events
      ensures events == old(events) + [event] && ok
    {
      events := events + [event];
      ok := true;
    }

    /** The preamble of `run`: the loop is running and the countdown starts at zero. */
    method Start()
      modifies this`running, this`backoff
      ensures running && backoff == 0
    {
      running := true;
      backoff := 0;
    }

    /** `stop`: clear the run flag and release any held connection. */
    method Stop()
      modifies this`running, transport, transport.socket
      ensures !running && transport.socket == null
      ensures old(transport.socket) != null ==> !old(transport.socket).isOpen
    {
      running := false;
      transport.Close();
    }

    /** One iteration of the `run` loop; `link` is what the network does if an attempt is made. */
    method Tick(link: LinkOutcome) returns (attempted: Option<TrapEvent>, delivered: bool)
      modifies this`events, this`backoff, transport
      ensures State() == Step(old(State()), retry, delivered)
      ensures attempted == if WillAttempt(old(State())) then Some(old(events)[0]) else None
      ensures delivered == (attempted.Some? && Delivers(transport.checkResponse, link))
      ensures attempted.Some? ==> transport.socket == null
      ensures attempted.None? ==> transport.socket == old(transport.socket)
    {
      attempted, delivered := None, false;
      if backoff <= 0 {
        if events != [] {
          var event := events[0];
          events := events[1..];                 // popleft
          attempted := Some(event);
          ghost var conn;
          delivered, conn := transport.Dispatch(event, link);
          if !delivered {
            events := [event] + events;          // appendleft
            backoff := retry;
          }
        }
        // an empty queue raises IndexError, which the loop ignores
      } else {
        backoff := backoff - 1;
      }
    }
  }
}
