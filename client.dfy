/**
 * The chat client's side of the frame format: the handshake it sends on
 * connecting, the one frame it sends per message, and the receiver that
 * reads (name, message) frame pairs off a non-blocking socket and shows
 * them as chat lines.
 *
 * The socket is modelled by what the server has sent that the client has
 * not read yet, and by the state of the connection behind those bytes:
 * still open (a read past the end would block), closed, or reset.
 */
module Client {
  import opened Wrappers
  import opened PyText
  import opened Wire

  /** The connection behind the unread bytes. */
  datatype Tail = Open | Closed | Reset

  /** The bytes waiting in the socket, then the state of the connection. */
  datatype Incoming = Incoming(data: Bytes, tail: Tail)

  /**
   * The outcome of one `recv(n)` on a non-blocking socket: bytes and what
   * is left; `EAGAIN`/`EWOULDBLOCK`; another `IOError` (a reset); or the
   * `ValueError` a negative size raises.
   */
  datatype Read = Got(bytes: Bytes, rest: Incoming) | WouldBlock | IoError | BadSize

  /** Why the receiver stops: an empty name header, an I/O error, or any other exception. */
  datatype Why = ServerClosed | ReadError | BadFrame

  /** One pass of the inner loop of `check_messages`. */
  datatype Step = Shown(name: Bytes, text: Bytes) | Blocked | Stopped(why: Why)

  /**
   * `client_socket.recv(n)`: up to `n` waiting bytes; with nothing waiting,
   * an empty result once the server has closed, a would-block error while
   * it is open, and an I/O error after a reset.
   */
  function Recv(inc: Incoming, n: int): (r: Read)
    ensures r.Got? ==> inc.data == r.bytes + r.rest.data && r.rest.tail == inc.tail
    ensures r.Got? ==> |r.bytes| == if n < |inc.data| then n else |inc.data|
    ensures r.BadSize? <==> n < 0
    ensures r.WouldBlock? <==> n > 0 && inc.data == [] && inc.tail == Open
    ensures r.IoError? <==> n > 0 && inc.data == [] && inc.tail == Reset
  {
    if n < 0 then BadSize
    else if n == 0 then Got([], inc)
    else if inc.data == [] then
      match inc.tail
      case Open => WouldBlock
      case Closed => Got([], inc)
      case Reset => IoError
    else
      var k := if n < |inc.data| then n else |inc.data|;
      assert inc.data == inc.data[..k] + inc.data[k..];
      Read.Got(inc.data[..k], Incoming(inc.data[k..], inc.tail))
  }

  /** How a failed read ends the pass: would-block waits, any other error stops the receiver. */
  function Failed(r: Read): Step
    requires !r.Got?
  {
    if r.WouldBlock? then Blocked
    else if r.IoError? then Stopped(ReadError)
    else Stopped(BadFrame)
  }

  /** A header and the payload it announces, or how reading them ended the pass. */
  datatype Field = Field(value: Bytes, rest: Incoming) | Fail(step: Step, rest: Incoming)

  /**
   * Read a header, parse it and read that many bytes. For the name
   * header (`first`) an empty read means the server has closed; for the
   * message header it is a header `int` cannot parse.
   */
  function ReadField(inc: Incoming, first: bool): (f: Field)
    ensures |f.rest.data| <= |inc.data|
    ensures f.Field? ==> |f.rest.data| < |inc.data|
    ensures f.Fail? ==> !f.step.Shown?
  {
    var h := Recv(inc, HeaderLength);
    if !h.Got? then Fail(Failed(h), inc)
    else if first && |h.bytes| == 0 then Fail(Stopped(ServerClosed), h.rest)
    else
      EmptyHeaderUnreadable();
      match ParseHeader(h.bytes)
      case None => Fail(Stopped(BadFrame), h.rest)
      case Some(n) =>
        var p := Recv(h.rest, n);
        if p.Got? then Field(p.bytes, p.rest) else Fail(Failed(p), h.rest)
  }

  /**
   * One pass of the inner loop: the name field, then the message field.
   * A failed read ends the pass, and the bytes already taken from the
   * socket are lost with it.
   */
  function ReadPair(inc: Incoming): (Step, Incoming)
  {
    match ReadField(inc, true)
    case Fail(step, rest) => (step, rest)
    case Field(name, afterName) =>
      match ReadField(afterName, false)
      case Fail(step, rest) => (step, rest)
      case Field(text, rest) => (Shown(name, text), rest)
  }

  /** A pass never gives bytes back, and a pass that shows a line takes at least one byte. */
  lemma ReadPairShrinks(inc: Incoming)
    ensures |ReadPair(inc).1.data| <= |inc.data|
    ensures ReadPair(inc).0.Shown? ==> |ReadPair(inc).1.data| < |inc.data|
  {
  }

  /** What the inner loop does before it leaves: the lines shown, how it ended, what is left unread. */
  datatype Drained = Drained(lines: seq<Bytes>, end: Step, rest: Incoming)

  /** Passes of the inner loop until one does not show a line. */
  function Drain(inc: Incoming): (d: Drained)
    decreases |inc.data|
  {
    ReadPairShrinks(inc);
    var (step, rest) := ReadPair(inc);
    if step.Shown? then
      var d := Drain(rest);
      Drained([ChatLine(step.name, step.text)] + d.lines, d.end, d.rest)
    else Drained([], step, rest)
  }

  /** The inner loop only leaves on a pass that shows nothing. */
  lemma {:induction false} DrainEnds(inc: Incoming)
    ensures !Drain(inc).end.Shown?
    ensures |Drain(inc).rest.data| <= |inc.data|
    decreases |inc.data|
  {
    ReadPairShrinks(inc);
    var (step, rest) := ReadPair(inc);
    if step.Shown? {
      DrainEnds(rest);
    }
  }

  // ---------------------------------------------------------------------------
  // Reading what a sender wrote
  // ---------------------------------------------------------------------------

  /** `recv(len(a))` with `a` waiting in front returns exactly `a`. */
  lemma RecvFront(a: Bytes, b: Bytes, tail: Tail)
    ensures Recv(Incoming(a + b, tail), |a|) == Got(a, Incoming(b, tail))
  {
    if a != [] {
      assert (a + b)[..|a|] == a && (a + b)[|a|..] == b;
    }
  }

  /** A frame in front of the socket is read as its payload, whichever header it is read for. */
  lemma ReadFrame(payload: Bytes, more: Bytes, tail: Tail, first: bool)
    requires |payload| < Pow10(HeaderLength)
    ensures ReadField(Incoming(Frame(payload) + more, tail), first) == Field(payload, Incoming(more, tail))
  {
    var h := HeaderBytes(|payload|);
    HeaderRoundTrip(|payload|);
    assert Frame(payload) + more == h + (payload + more);
    RecvFront(h, payload + more, tail);
    RecvFront(payload, more, tail);
  }

  /**
   * A name frame followed by a message frame is one pass: exactly
   * 10 + |name| + 10 + |text| bytes are taken and `<name>: text` is shown.
   */
  lemma ReadPairOfFrames(name: Bytes, text: Bytes, more: Bytes, tail: Tail)
    requires |name| < Pow10(HeaderLength) && |text| < Pow10(HeaderLength)
    ensures |Frame(name) + Frame(text)| == HeaderLength + |name| + HeaderLength + |text|
    ensures ReadPair(Incoming(Frame(name) + Frame(text) + more, tail)) == (Shown(name, text), Incoming(more, tail))
  {
    var inc := Incoming(Frame(name) + Frame(text) + more, tail);
    var rest := Frame(text) + more;
    assert ReadField(inc, true) == Field(name, Incoming(rest, tail)) by {
      assert inc.data == Frame(name) + rest;
      ReadFrame(name, rest, tail, true);
    }
    ReadFrame(text, more, tail, false);
    PairOfFields(inc, name, Incoming(rest, tail), text, Incoming(more, tail));
    assert |Frame(name)| == HeaderLength + |name| by { HeaderRoundTrip(|name|); }
    assert |Frame(text)| == HeaderLength + |text| by { HeaderRoundTrip(|text|); }
  }

  /** A pass that reads a name field and then a message field shows them. */
  lemma PairOfFields(inc: Incoming, name: Bytes, afterName: Incoming, text: Bytes, rest: Incoming)
    requires ReadField(inc, true) == Field(name, afterName) && ReadField(afterName, false) == Field(text, rest)
    ensures ReadPair(inc) == (Shown(name, text), rest)
  {
  }

  /** The frame pairs a sequence of (name, message) pairs is written as. */
  function Pairs(ps: seq<(Bytes, Bytes)>): Bytes
  {
    if ps == [] then [] else Frame(ps[0].0) + Frame(ps[0].1) + Pairs(ps[1..])
  }

  /** The chat lines of a sequence of (name, message) pairs. */
  function Lines(ps: seq<(Bytes, Bytes)>): seq<Bytes>
  {
    if ps == [] then [] else [ChatLine(ps[0].0, ps[0].1)] + Lines(ps[1..])
  }

  predicate Framable(ps: seq<(Bytes, Bytes)>) {
    forall i :: 0 <= i < |ps| ==> |ps[i].0| < Pow10(HeaderLength) && |ps[i].1| < Pow10(HeaderLength)
  }

  /** Lines shown before what a later drain does. */
  function Prepend(lines: seq<Bytes>, d: Drained): Drained
  {
    Drained(lines + d.lines, d.end, d.rest)
  }

  /** A pass that shows a line is followed by the rest of the drain. */
  lemma DrainShown(inc: Incoming, name: Bytes, text: Bytes, next: Incoming)
    requires ReadPair(inc) == (Shown(name, text), next)
    ensures Drain(inc) == Prepend([ChatLine(name, text)], Drain(next))
  {
  }

  /** One pass, and then the rest of the drain when it showed a line. */
  lemma DrainStep(inc: Incoming)
    ensures var (step, rest) := ReadPair(inc);
      Drain(inc) == if step.Shown? then Prepend([ChatLine(step.name, step.text)], Drain(rest)) else Drained([], step, rest)
  {
  }

  lemma PrependNothing(d: Drained)
    ensures Prepend([], d) == d
  {
    assert [] + d.lines == d.lines;
  }

  /** A pass that shows a line moves it from the drain still to come to the lines shown. */
  lemma PassShown(shown: seq<Bytes>, inc: Incoming)
    requires ReadPair(inc).0.Shown?
    ensures var (step, rest) := ReadPair(inc);
      && |rest.data| < |inc.data|
      && Prepend(shown, Drain(inc)) == Prepend(shown + [ChatLine(step.name, step.text)], Drain(rest))
  {
    ReadPairShrinks(inc);
    DrainStep(inc);
    var (step, rest) := ReadPair(inc);
    PrependTwice(shown, [ChatLine(step.name, step.text)], Drain(rest));
  }

  /** A pass that shows nothing ends the drain where it stopped. */
  lemma PassEnds(shown: seq<Bytes>, inc: Incoming)
    requires !ReadPair(inc).0.Shown?
    ensures Prepend(shown, Drain(inc)) == Drained(shown, ReadPair(inc).0, ReadPair(inc).1)
  {
    DrainStep(inc);
    assert shown + [] == shown;
  }

  lemma PrependTwice(a: seq<Bytes>, b: seq<Bytes>, d: Drained)
    ensures Prepend(a, Prepend(b, d)) == Prepend(a + b, d)
  {
    assert a + (b + d.lines) == (a + b) + d.lines;
  }

  /**
   * Reading a stream of frame pairs shows the pairs in the order they were
   * written, and then goes on with whatever follows them.
   */
  lemma {:induction false} DrainPairs(ps: seq<(Bytes, Bytes)>, more: Bytes, tail: Tail)
    requires Framable(ps)
    ensures Drain(Incoming(Pairs(ps) + more, tail)) == Prepend(Lines(ps), Drain(Incoming(more, tail)))
  {
    if ps == [] {
      assert Pairs(ps) + more == more;
      assert Lines(ps) + Drain(Incoming(more, tail)).lines == Drain(Incoming(more, tail)).lines;
    } else {
      var name, text := ps[0].0, ps[0].1;
      var rest := Pairs(ps[1..]) + more;
      PairsCons(ps, more);
      ReadPairOfFrames(name, text, rest, tail);
      DrainShown(Incoming(Pairs(ps) + more, tail), name, text, Incoming(rest, tail));
      FramableTail(ps);
      DrainPairs(ps[1..], more, tail);
      PrependTwice([ChatLine(name, text)], Lines(ps[1..]), Drain(Incoming(more, tail)));
    }
  }

  lemma PairsCons(ps: seq<(Bytes, Bytes)>, more: Bytes)
    requires ps != []
    ensures Pairs(ps) + more == Frame(ps[0].0) + Frame(ps[0].1) + (Pairs(ps[1..]) + more)
  {
  }

  lemma FramableTail(ps: seq<(Bytes, Bytes)>)
    requires Framable(ps) && ps != []
    ensures Framable(ps[1..])
    ensures |ps[0].0| < Pow10(HeaderLength) && |ps[0].1| < Pow10(HeaderLength)
  {
    forall i | 0 <= i < |ps[1..]| ensures |ps[1..][i].0| < Pow10(HeaderLength) && |ps[1..][i].1| < Pow10(HeaderLength) {
      assert ps[1..][i] == ps[i + 1];
    }
  }

  /**
   * Everything received over a connection still open, as whole frame
   * pairs, is shown in order and the receiver waits for more.
   */
  lemma DrainAllOpen(ps: seq<(Bytes, Bytes)>)
    requires Framable(ps)
    ensures Drain(Incoming(Pairs(ps), Open)) == Drained(Lines(ps), Blocked, Incoming([], Open))
  {
    DrainPairs(ps, [], Open);
    assert Pairs(ps) + [] == Pairs(ps);
  }

  /** The same stream from a server that has then closed ends the receiver once it is shown. */
  lemma DrainAllClosed(ps: seq<(Bytes, Bytes)>)
    requires Framable(ps)
    ensures Drain(Incoming(Pairs(ps), Closed)) == Drained(Lines(ps), Stopped(ServerClosed), Incoming([], Closed))
  {
    DrainPairs(ps, [], Closed);
    assert Pairs(ps) + [] == Pairs(ps);
  }

  /** An empty read of the name header, the server having closed, ends the receiver. */
  lemma ClosedEnds(tail: Tail)
    ensures ReadPair(Incoming([], tail)).0 == match tail
      case Open => Blocked
      case Closed => Stopped(ServerClosed)
      case Reset => Stopped(ReadError)
  {
  }

  /** A name header that is not a decimal number stops the receiver with an error. */
  lemma BadHeaderStops(inc: Incoming)
    requires inc.data != []
    requires ParseHeader(HeaderPart(inc.data)).None?
    ensures ReadPair(inc).0 == Stopped(BadFrame)
  {
    assert Recv(inc, HeaderLength).bytes == HeaderPart(inc.data);
  }

  /**
   * When only the name frame of a pair has arrived, the pass blocks on the
   * message header and the name it has read is lost: nothing is kept
   * between passes.
   */
  lemma PartialPairDiscarded(name: Bytes)
    requires |name| < Pow10(HeaderLength)
    ensures ReadPair(Incoming(Frame(name), Open)) == (Blocked, Incoming([], Open))
  {
    assert Frame(name) == Frame(name) + [];
    ReadFrame(name, [], Open, true);
  }

  /**
   * A field read whole is the header at the front of the stream, which
   * parses, followed by at most that many bytes; fewer only when nothing
   * more was waiting.
   */
  lemma ReadFieldShape(inc: Incoming, first: bool)
    ensures var f := ReadField(inc, first);
      f.Field? ==>
      var h := HeaderPart(inc.data);
      && h != [] && ParseHeader(h).Some?
      && inc.data == h + f.value + f.rest.data
      && |f.value| <= ParseHeader(h).value
      && (|f.value| < ParseHeader(h).value ==> f.rest.data == [])
      && f.rest.tail == inc.tail
  {
    var h := Recv(inc, HeaderLength);
    if h.Got? && ReadField(inc, first).Field? {
      HeaderRead(inc);
      EmptyHeaderUnreadable();
      var p := Recv(h.rest, ParseHeader(h.bytes).value);
      assert ReadField(inc, first) == Field(p.bytes, p.rest);
    }
  }

  /** The header `recv(10)` returns is the front of what is waiting. */
  lemma HeaderRead(inc: Incoming)
    ensures Recv(inc, HeaderLength).Got? ==> Recv(inc, HeaderLength).bytes == HeaderPart(inc.data)
  {
  }

  // ---------------------------------------------------------------------------
  // The session
  // ---------------------------------------------------------------------------

  /** The page on screen. */
  datatype Page = ConnectionPage | ChatPage

  /** The receiving thread: not started, polling, or ended by `sys.exit`. */
  datatype Receiver = Idle | Running | Ended(why: Why)

  /** An error box the client shows. */
  datatype Alert = ConnectionRefused | ReadingError

  /** What one client process holds: its globals, its two pages and the socket's two directions. */
  class ChatSession {
    var page: Page
    /** my_username */
    var myName: Bytes
    /** everything written to the socket */
    var sent: Bytes
    /** what the server has sent that has not been read */
    var incoming: Incoming
    /** the lines of the chat box */
    var chat: seq<Bytes>
    /** the text input entry */
    var entry: Bytes
    var receiver: Receiver
    var alerts: seq<Alert>

    /** The receiver runs only once the chat page is up. */
    ghost predicate Valid()
      reads this`page, this`receiver
    {
      page == ConnectionPage ==> receiver == Idle
    }

    /** A client on its connection page, not connected. */
    constructor ()
      ensures Valid()
      ensures page == ConnectionPage && receiver == Idle
      ensures sent == [] && incoming == Incoming([], Open)
      ensures chat == [] && entry == [] && alerts == [] && myName == []
    {
      page := ConnectionPage;
      myName := [];
      sent := [];
      incoming := Incoming([], Open);
      chat := [];
      entry := [];
      receiver := Idle;
      alerts := [];
    }

    /**
     * `connect`, given `port`, what `int()` makes of the port entry
     * (`PyText.ParseInt`): a port entry that is not a number raises out of
     * the handler and nothing changes; a refused connection shows an error;
     * otherwise the handshake, the header of the name's length and then the
     * name, is the first thing sent, the chat page comes up and its
     * receiver starts.
     */
    method Connect(name: Bytes, port: Option<int>, refused: bool)
      requires Valid()
      requires page == ConnectionPage
      modifies this
      ensures Valid()
      ensures port.None? ==> unchanged(this)
      ensures port.Some? && refused ==>
        && alerts == old(alerts) + [ConnectionRefused]
        && page == old(page) && receiver == old(receiver) && sent == old(sent)
        && myName == old(myName) && chat == old(chat) && entry == old(entry) && incoming == old(incoming)
      ensures port.Some? && !refused ==>
        && sent == HeaderBytes(|name|) + name
        && myName == name
        && incoming == Incoming([], Open)
        && page == ChatPage && receiver == Running
        && alerts == old(alerts) && chat == old(chat) && entry == old(entry)
    {
      if port.None? {
        return;
      }
      if refused {
        alerts := alerts + [ConnectionRefused];
        return;
      }
      incoming := Incoming([], Open);
      myName := name;
      sent := HeaderBytes(|name|) + name;
      page := ChatPage;
      receiver := Running;
    }

    /** The user types into the entry. */
    method Type(text: Bytes)
      modifies this`entry
      ensures entry == text
    {
      entry := text;
    }

    /**
     * `send_msg`: a non-empty entry is echoed as `<my name>: text` and sent
     * as one frame, header and text, with no name frame; the entry is
     * cleared either way.
     */
    method SendMsg()
      requires page == ChatPage
      modifies this`chat, this`sent, this`entry
      ensures entry == []
      ensures old(entry) == [] ==> chat == old(chat) && sent == old(sent)
      ensures old(entry) != [] ==>
        && chat == old(chat) + [ChatLine(myName, old(entry))]
        && sent == old(sent) + Frame(old(entry))
    {
      var text := entry;
      if text != [] {
        chat := chat + [ChatLine(myName, text)];
        sent := sent + Frame(text);
      }
      entry := [];
    }

    /** The server's bytes arrive at the socket. */
    method Deliver(bytes: Bytes)
      requires incoming.tail == Open
      modifies this`incoming
      ensures incoming == Incoming(old(incoming).data + bytes, Open)
    {
      incoming := Incoming(incoming.data + bytes, Open);
    }

    /** The server closes the connection, or it is reset. */
    method Hangup(reset: bool)
      requires incoming.tail == Open
      modifies this`incoming
      ensures incoming == Incoming(old(incoming).data, if reset then Reset else Closed)
    {
      incoming := Incoming(incoming.data, if reset then Reset else Closed);
    }

    /**
     * The pass that showed nothing: the socket is left as it read; a
     * would-block keeps the receiver polling, anything else ends it, with
     * an error box unless the server had simply closed.
     */
    method EndPass(step: Step, rest: Incoming)
      requires Valid() && receiver == Running && !step.Shown?
      modifies this`incoming, this`receiver, this`alerts
      ensures Valid()
      ensures incoming == rest
      ensures receiver == if step.Stopped? then Ended(step.why) else Running
      ensures alerts == old(alerts) + if step.Stopped? && step.why != ServerClosed then [ReadingError] else []
    {
      incoming := rest;
      if step.Stopped? {
        receiver := Ended(step.why);
        if step.why != ServerClosed {
          alerts := alerts + [ReadingError];
        }
      }
    }

    /**
     * The receiver's inner loop, run until a pass shows nothing: every
     * pair read is shown; a would-block leaves the receiver polling; an
     * empty name header, an I/O error or a bad frame ends it, the last two
     * with an error box.
     */
    method Poll()
      requires Valid() && receiver == Running
      modifies this`incoming, this`chat, this`receiver, this`alerts
      ensures Valid()
      ensures var d := Drain(old(incoming));
        && chat == old(chat) + d.lines
        && incoming == d.rest
        && receiver == (if d.end.Stopped? then Ended(d.end.why) else Running)
        && alerts == old(alerts) + (if d.end.Stopped? && d.end.why != ServerClosed then [ReadingError] else [])
    {
      ghost var shown: seq<Bytes> := [];
      PrependNothing(Drain(incoming));
      var (step, rest) := ReadPair(incoming);
      while step.Shown?
        invariant receiver == Running && alerts == old(alerts)
        invariant chat == old(chat) + shown
        invariant Drain(old(incoming)) == Prepend(shown, Drain(incoming))
        invariant (step, rest) == ReadPair(incoming)
        decreases |incoming.data|
      {
        var line := ChatLine(step.name, step.text);
        PassShown(shown, incoming);
        chat := chat + [line];
        shown := shown + [line];
        incoming := rest;
        step, rest := ReadPair(incoming).0, ReadPair(incoming).1;
      }
      PassEnds(shown, incoming);
      EndPass(step, rest);
    }
  }
}
