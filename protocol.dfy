/**
 * The two programs together: what a client writes, the server reads and
 * relays, and the other clients display.
 */
module Protocol {
  import opened Wrappers
  import opened PyText
  import opened Wire
  import Server
  import Client

  /**
   * The relay the server builds from a user's name and message, each read
   * from a client frame, is those two frames again, and every other client
   * reads it as one displayed line.
   */
  lemma RelayShown(name: Bytes, text: Bytes, after: Bytes, tail: Client.Tail)
    requires |name| < Pow10(HeaderLength) && |text| < Pow10(HeaderLength)
    ensures var relay := Server.RelayBytes(Server.Message(HeaderBytes(|name|), name), Server.Message(HeaderBytes(|text|), text));
      && relay == Frame(name) + Frame(text)
      && Client.ReadPair(Client.Incoming(relay + after, tail)) == (Client.Shown(name, text), Client.Incoming(after, tail))
  {
    var relay := Server.RelayBytes(Server.Message(HeaderBytes(|name|), name), Server.Message(HeaderBytes(|text|), text));
    assert relay == Frame(name) + Frame(text);
    Client.ReadPairOfFrames(name, text, after, tail);
  }

  /** The relays of a sequence of messages, one after the other. */
  function Relays(ps: seq<(Server.Message, Server.Message)>): Bytes
  {
    if ps == [] then [] else Server.RelayBytes(ps[0].0, ps[0].1) + Relays(ps[1..])
  }

  /** The (name, message) pairs of relays whose messages were read from client frames. */
  function Payloads(ps: seq<(Server.Message, Server.Message)>): seq<(Bytes, Bytes)>
  {
    seq(|ps|, i requires 0 <= i < |ps| => (ps[i].0.data, ps[i].1.data))
  }

  /** A message as the server reads it from a client frame. */
  predicate FromFrame(m: Server.Message) {
    |m.data| < Pow10(HeaderLength) && m.header == HeaderBytes(|m.data|)
  }

  /**
   * A client that receives a run of relays displays every relayed message,
   * in order, as `<name>: message`, and then waits for more.
   */
  lemma {:induction false} ConversationShown(ps: seq<(Server.Message, Server.Message)>)
    requires forall i :: 0 <= i < |ps| ==> FromFrame(ps[i].0) && FromFrame(ps[i].1)
    ensures Client.Drain(Client.Incoming(Relays(ps), Client.Open))
         == Client.Drained(Client.Lines(Payloads(ps)), Client.Blocked, Client.Incoming([], Client.Open))
  {
    RelaysArePairs(ps);
    Client.DrainAllOpen(Payloads(ps));
  }

  /** Relays of messages read from frames are the clients' frame pairs. */
  lemma {:induction false} RelaysArePairs(ps: seq<(Server.Message, Server.Message)>)
    requires forall i :: 0 <= i < |ps| ==> FromFrame(ps[i].0) && FromFrame(ps[i].1)
    ensures Relays(ps) == Client.Pairs(Payloads(ps))
    ensures Client.Framable(Payloads(ps))
    decreases |ps|
  {
    if ps != [] {
      assert Payloads(ps)[1..] == Payloads(ps[1..]);
      RelaysArePairs(ps[1..]);
      assert Server.RelayBytes(ps[0].0, ps[0].1) == Frame(ps[0].0.data) + Frame(ps[0].1.data);
    }
  }

  /**
   * A server notice declares one byte more than its text, so a client
   * that has the notice and a following byte in its buffer shows the
   * notice with that byte appended, signed by the server's name, and loses
   * the byte from what follows.
   */
  lemma NoticeTakesNextByte(msg: Bytes, more: Bytes, tail: Client.Tail)
    requires |msg| + 1 < Pow10(HeaderLength) && more != []
    ensures Client.ReadPair(Client.Incoming(ServerNotice(msg) + more, tail))
         == (Client.Shown(Ascii(ServerName), msg + [more[0]]), Client.Incoming(more[1..], tail))
  {
    NoticeFrames(msg, more);
    Client.ReadPairOfFrames(Ascii(ServerName), msg + [more[0]], more[1..], tail);
  }

  /** A notice followed by other bytes is the frame of the name and a frame one byte longer than the text. */
  lemma NoticeFrames(msg: Bytes, more: Bytes)
    requires more != []
    ensures ServerNotice(msg) + more == Frame(Ascii(ServerName)) + Frame(msg + [more[0]]) + more[1..]
  {
    assert Ascii(ServerHeader()) == HeaderBytes(|Ascii(ServerName)|);
    assert more == [more[0]] + more[1..];
  }

  /**
   * When nothing follows the notice yet, the short read of its text
   * returns what there is, and the client shows the notice as sent.
   */
  lemma NoticeAlone(msg: Bytes, tail: Client.Tail)
    requires |msg| + 1 < Pow10(HeaderLength) && msg != []
    ensures Client.ReadPair(Client.Incoming(ServerNotice(msg), tail))
         == (Client.Shown(Ascii(ServerName), msg), Client.Incoming([], tail))
  {
    var name := Ascii(ServerName);
    var rest := HeaderBytes(|msg| + 1) + msg;
    assert Ascii(ServerHeader()) == HeaderBytes(|name|);
    assert ServerNotice(msg) == Frame(name) + rest;
    Client.ReadFrame(name, rest, tail, true);
    NoticeTextShort(msg, tail);
  }

  /** The text field of a notice alone: the header asks one byte more than there is. */
  lemma NoticeTextShort(msg: Bytes, tail: Client.Tail)
    requires |msg| + 1 < Pow10(HeaderLength) && msg != []
    ensures Client.ReadField(Client.Incoming(HeaderBytes(|msg| + 1) + msg, tail), false)
         == Client.Field(msg, Client.Incoming([], tail))
  {
    HeaderRoundTrip(|msg| + 1);
    Client.RecvFront(HeaderBytes(|msg| + 1), msg, tail);
    ShortRecv(msg, tail);
  }

  /** `recv` for one byte more than the buffer holds returns the whole buffer. */
  lemma ShortRecv(msg: Bytes, tail: Client.Tail)
    requires msg != []
    ensures Client.Recv(Client.Incoming(msg, tail), |msg| + 1) == Client.Got(msg, Client.Incoming([], tail))
  {
  }
}
