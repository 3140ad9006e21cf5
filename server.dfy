/**
 * The chat server's connection bookkeeping: reading one frame from a
 * client (`_receive_message`) and the three things its event loop does
 * with a ready socket: accept a newcomer and read its name, read a
 * message from a registered client and relay it, or drop a client
 * reported in an exceptional state.
 *
 * Sockets are abstract ids. A client socket is blocking, so a read waits
 * for the peer: each client's input is modelled as everything the peer
 * still sends, and how its connection ends (orderly close or reset).
 * What is sent to each socket is recorded as one growing byte string.
 */
module Server {
  import opened Wrappers
  import opened PyText
  import opened Wire

  type Sock = nat

  /** What `_receive_message` returns on success: the raw header and the payload read after it. */
  datatype Message = Message(header: Bytes, data: Bytes)

  /** The bytes a peer still delivers and whether its connection then resets instead of closing. */
  datatype PeerInput = PeerInput(data: Bytes, resets: bool)

  /** The outcome of one `recv`: some bytes and what is left, or an exception. */
  datatype Read = Read(bytes: Bytes, rest: PeerInput) | Raised

  /**
   * `sock.recv(n)` on a blocking socket: up to `n` of the peer's bytes; an
   * empty result at an orderly end; an exception for a negative size or at
   * a reset.
   */
  function Recv(inp: PeerInput, n: int): (r: Read)
    ensures r.Read? ==> inp.data == r.bytes + r.rest.data && r.rest.resets == inp.resets
    ensures r.Read? && n >= 0 ==> |r.bytes| == if n < |inp.data| then n else |inp.data|
    ensures r.Raised? <==> n < 0 || (n > 0 && inp.data == [] && inp.resets)
  {
    if n < 0 then Raised
    else if n == 0 then Read([], inp)
    else if inp.data == [] then (if inp.resets then Raised else Read([], inp))
    else
      var k := if n < |inp.data| then n else |inp.data|;
      assert inp.data == inp.data[..k] + inp.data[k..];
      Read(inp.data[..k], PeerInput(inp.data[k..], inp.resets))
  }

  /**
   * `_receive_message`: read a header, parse it, read that many bytes.
   * `None` stands for its `False`: an empty first read, or any exception
   * (a header that is not a number, a negative length, a reset).
   */
  function ReceiveMessage(inp: PeerInput): (Option<Message>, PeerInput)
  {
    match Recv(inp, HeaderLength)
    case Raised => (None, inp)
    case Read(header, afterHeader) =>
      if |header| == 0 then (None, afterHeader)
      else
        match ParseHeader(header)
        case None => (None, afterHeader)
        case Some(n) =>
          match Recv(afterHeader, n)
          case Raised => (None, afterHeader)
          case Read(data, rest) => (Some(Message(header, data)), rest)
  }

  /**
   * A message, when there is one, is the raw header at the front of the
   * stream, which parses as a length, followed by at most that many payload
   * bytes; fewer only when the peer has nothing left.
   */
  lemma ReceiveShape(inp: PeerInput)
    ensures var (m, rest) := ReceiveMessage(inp);
      m.Some? ==>
      && m.value.header == HeaderPart(inp.data) != []
      && inp.data == m.value.header + m.value.data + rest.data
      && rest.resets == inp.resets
      && ParseHeader(m.value.header).Some?
      && |m.value.data| <= ParseHeader(m.value.header).value
      && (|m.value.data| < ParseHeader(m.value.header).value ==> rest.data == [])
  {
    match Recv(inp, HeaderLength)
    case Raised =>
    case Read(header, afterHeader) =>
      assert header == HeaderPart(inp.data);
  }

  /** An empty first read, an orderly close or a reset before any byte, is `False`. */
  lemma ReceiveNothing(resets: bool)
    ensures ReceiveMessage(PeerInput([], resets)).0.None?
  {
  }

  /** A header that is not a decimal number is `False`: the `ValueError` is swallowed. */
  lemma ReceiveBadHeader(inp: PeerInput)
    requires ParseHeader(HeaderPart(inp.data)).None?
    ensures ReceiveMessage(inp).0.None?
  {
    match Recv(inp, HeaderLength)
    case Raised =>
    case Read(header, afterHeader) =>
      assert header == HeaderPart(inp.data);
  }

  /** A frame written by a client is read back whole: its header unchanged and its payload. */
  lemma ReceiveFrame(payload: Bytes, more: Bytes, resets: bool)
    requires |payload| < Pow10(HeaderLength)
    ensures ReceiveMessage(PeerInput(Frame(payload) + more, resets))
         == (Some(Message(HeaderBytes(|payload|), payload)), PeerInput(more, resets))
  {
    var h := HeaderBytes(|payload|);
    HeaderRoundTrip(|payload|);
    assert Frame(payload) + more == h + (payload + more);
    RecvFront(h, payload + more, resets);
    RecvFront(payload, more, resets);
  }

  /** `recv(len(a))` on a stream that starts with `a` returns `a`. */
  lemma RecvFront(a: Bytes, b: Bytes, resets: bool)
    ensures Recv(PeerInput(a + b, resets), |a|) == Read(a, PeerInput(b, resets))
  {
    if a != [] {
      assert (a + b)[..|a|] == a && (a + b)[|a|..] == b;
    }
  }

  // ---------------------------------------------------------------------------
  // Texts the server writes
  // ---------------------------------------------------------------------------

  function JoinText(name: Bytes): Bytes
  {
    name + Ascii(" has entered the room!")
  }

  function LeaveText(name: Bytes): Bytes
  {
    name + Ascii(" has disconnected!")
  }

  /** The event-box line for a notice: `f"<SERVER> {msg}"`. */
  function ServerLine(msg: Bytes): Bytes
  {
    Ascii("<") + Ascii(ServerName) + Ascii("> ") + msg
  }

  /** The event-box line for a newcomer, with the address `accept` reported. */
  function AcceptedLine(host: Bytes, port: nat, name: Bytes): Bytes
  {
    Ascii("Accepted new connection from ") + host + Ascii(":") + Ascii(Decimal(port)) + Ascii(" username:") + name
  }

  /** What the server relays for a message: the sender's stored header and name, then the message as read. */
  function RelayBytes(user: Message, msg: Message): Bytes
  {
    user.header + user.data + msg.header + msg.data
  }

  /** The names of the given registered sockets, in order. */
  function Names(socks: seq<Sock>, clients: map<Sock, Message>): (names: seq<Bytes>)
    requires forall s :: s in socks ==> s in clients
    ensures |names| == |socks|
  {
    if socks == [] then [] else [clients[socks[0]].data] + Names(socks[1..], clients)
  }

  /** The name of a registered socket is among the names of any list that holds it. */
  lemma {:induction false} NamesHold(socks: seq<Sock>, clients: map<Sock, Message>, s: Sock)
    requires forall x :: x in socks ==> x in clients
    requires s in socks
    ensures clients[s].data in multiset(Names(socks, clients))
  {
    if socks[0] != s {
      NamesHold(socks[1..], clients, s);
    }
  }

  /** Appending a socket appends its name. */
  lemma {:induction false} NamesSnoc(socks: seq<Sock>, clients: map<Sock, Message>, s: Sock, user: Message)
    requires forall x :: x in socks ==> x in clients
    requires s !in socks
    ensures Names(socks + [s], clients[s := user]) == Names(socks, clients) + [user.data]
  {
    if socks != [] {
      assert (socks + [s])[1..] == socks[1..] + [s];
      NamesSnoc(socks[1..], clients, s, user);
    }
  }

  /** Names only depend on the entries of the sockets listed. */
  lemma {:induction false} NamesFrame(socks: seq<Sock>, clients: map<Sock, Message>, other: map<Sock, Message>)
    requires forall x :: x in socks ==> x in clients && x in other && clients[x] == other[x]
    ensures Names(socks, clients) == Names(socks, other)
  {
    if socks != [] {
      NamesFrame(socks[1..], clients, other);
    }
  }

  /** The bytes sent to `s` so far, given what was sent to every socket. */
  function SentOn(outbox: map<Sock, Bytes>, s: Sock): Bytes
  {
    if s in outbox then outbox[s] else []
  }

  predicate Distinct<T(==)>(s: seq<T>) {
    forall i, j :: 0 <= i < j < |s| ==> s[i] != s[j]
  }

  /** Unregistering one socket takes exactly its name out of the names of the registered sockets. */
  lemma {:induction false} NamesWithout(order: seq<Sock>, clients: map<Sock, Message>, s: Sock)
    requires forall x :: x in order ==> x in clients
    requires Distinct(order) && s in order
    ensures forall x :: x in RemoveFirst(order, s) ==> x in clients - {s}
    ensures multiset(Names(RemoveFirst(order, s), clients - {s})) + multiset{clients[s].data}
         == multiset(Names(order, clients))
  {
    RemoveKeepsDistinct(order, s);
    var tail := order[1..];
    assert Distinct(tail) by {
      forall i, j | 0 <= i < j < |tail| ensures tail[i] != tail[j] {
        assert tail[i] == order[i + 1] && tail[j] == order[j + 1];
      }
    }
    if order[0] == s {
      assert s !in tail by {
        forall k | 0 <= k < |tail| ensures tail[k] != s { assert tail[k] == order[k + 1]; }
      }
      NamesFrame(tail, clients - {s}, clients);
    } else {
      NamesWithout(tail, clients, s);
      var rest := RemoveFirst(tail, s);
      assert RemoveFirst(order, s) == [order[0]] + rest;
      assert Names([order[0]] + rest, clients - {s}) == [clients[order[0]].data] + Names(rest, clients - {s});
    }
  }

  /** `list.remove` of a socket other than the head keeps the head in front. */
  lemma RemoveBehindHead(head: Sock, rest: seq<Sock>, s: Sock)
    requires s != head && s in rest
    ensures RemoveFirst([head] + rest, s) == [head] + RemoveFirst(rest, s)
  {
    assert ([head] + rest)[1..] == rest;
  }

  /** Removing a socket from a list of distinct sockets keeps the rest distinct and drops it. */
  lemma RemoveKeepsDistinct(order: seq<Sock>, s: Sock)
    requires Distinct(order) && s in order
    ensures Distinct(RemoveFirst(order, s))
    ensures forall x :: x in RemoveFirst(order, s) <==> x in order && x != s
  {
    RemoveFirstAt(order, s);
    var i := FirstIndex(order, s);
    var rest := RemoveFirst(order, s);
    assert rest == order[..i] + order[i + 1..];
    assert forall k :: 0 <= k < |rest| ==> rest[k] == if k < i then order[k] else order[k + 1];
    forall x | x in order && x != s ensures x in rest {
      var k :| 0 <= k < |order| && order[k] == x;
      if k < i { assert rest[k] == x; } else { assert k != i && rest[k - 1] == x; }
    }
    RemoveFirstUnique(order, s);
  }

  /**
   * The select list is the listener followed by the registered sockets in
   * registration order, each registered once.
   */
  ghost predicate Registered(listener: Sock, socketsList: seq<Sock>, order: seq<Sock>, clients: map<Sock, Message>)
  {
    && socketsList == [listener] + order
    && (forall s :: s in clients <==> s in order)
    && Distinct(order)
    && listener !in clients
  }

  /**
   * The bookkeeping invariant of the server, on the values of its fields:
   * the registration above, every registered client has a stream to read,
   * every registered name is on the roster, and the counter is the roster's size.
   */
  ghost predicate Bookkeeping(listener: Sock, socketsList: seq<Sock>, order: seq<Sock>, clients: map<Sock, Message>,
                              inbox: map<Sock, PeerInput>, roster: seq<Bytes>, connected: int)
  {
    && Registered(listener, socketsList, order, clients)
    && clients.Keys <= inbox.Keys
    && multiset(Names(order, clients)) <= multiset(roster)
    && connected == |roster|
  }

  /** Unregistering a client, without touching the roster, keeps the bookkeeping. */
  lemma UnregisterKeeps(listener: Sock, socketsList: seq<Sock>, order: seq<Sock>, clients: map<Sock, Message>,
                        inbox: map<Sock, PeerInput>, roster: seq<Bytes>, connected: int, s: Sock)
    requires Bookkeeping(listener, socketsList, order, clients, inbox, roster, connected)
    requires s in clients
    ensures s in socketsList && s in order
    ensures Bookkeeping(listener, RemoveFirst(socketsList, s), RemoveFirst(order, s), clients - {s},
                        inbox, roster, connected)
  {
    NamesWithout(order, clients, s);
    RemoveBehindHead(listener, order, s);
    RemoveKeepsDistinct(order, s);
  }

  /** Registering a newcomer, with its name added to the roster and the counter raised, keeps the bookkeeping. */
  lemma RegisterKeeps(listener: Sock, socketsList: seq<Sock>, order: seq<Sock>, clients: map<Sock, Message>,
                      inbox: map<Sock, PeerInput>, roster: seq<Bytes>, connected: int,
                      s: Sock, user: Message, rest: PeerInput)
    requires Bookkeeping(listener, socketsList, order, clients, inbox, roster, connected)
    requires s != listener && s !in clients
    ensures Bookkeeping(listener, socketsList + [s], order + [s], clients[s := user],
                        inbox[s := rest], roster + [user.data], connected + 1)
  {
    NamesSnoc(order, clients, s, user);
  }

  /** Reading from a registered client only replaces what it still sends, which keeps the bookkeeping. */
  lemma ReadKeeps(listener: Sock, socketsList: seq<Sock>, order: seq<Sock>, clients: map<Sock, Message>,
                  inbox: map<Sock, PeerInput>, roster: seq<Bytes>, connected: int, s: Sock, rest: PeerInput)
    requires Bookkeeping(listener, socketsList, order, clients, inbox, roster, connected)
    ensures Bookkeeping(listener, socketsList, order, clients, inbox[s := rest], roster, connected)
  {
  }

  /**
   * A client leaving, with the first roster entry of its name removed and
   * the counter lowered, keeps the bookkeeping; and that name was on the roster.
   */
  lemma DepartKeeps(listener: Sock, socketsList: seq<Sock>, order: seq<Sock>, clients: map<Sock, Message>,
                    inbox: map<Sock, PeerInput>, roster: seq<Bytes>, connected: int, s: Sock)
    requires Bookkeeping(listener, socketsList, order, clients, inbox, roster, connected)
    requires s in clients
    ensures s in socketsList && s in order && clients[s].data in roster
    ensures Bookkeeping(listener, RemoveFirst(socketsList, s), RemoveFirst(order, s), clients - {s},
                        inbox - {s}, RemoveFirst(roster, clients[s].data), connected - 1)
  {
    var name := clients[s].data;
    NamesHold(order, clients, s);
    NamesWithout(order, clients, s);
    RemoveFirstCounts(roster, name);
    RemoveBehindHead(listener, order, s);
    RemoveKeepsDistinct(order, s);
  }

  // ---------------------------------------------------------------------------
  // The event loop's state
  // ---------------------------------------------------------------------------

  /** The state `run_server` works on, and what it has shown and sent. */
  class ChatServer {
    /** server_socket */
    const listener: Sock
    /** sockets_list: the sockets handed to `select` */
    var socketsList: seq<Sock>
    /** the keys of the `clients` dict, in insertion order */
    var order: seq<Sock>
    /** clients: socket to the message its handshake read */
    var clients: map<Sock, Message>
    /** client_username_list, mirrored line for line by the clients box */
    var roster: seq<Bytes>
    /** connected_clients_var */
    var connected: int
    /** the lines of the event box */
    var events: seq<Bytes>
    /** what each registered client still sends */
    var inbox: map<Sock, PeerInput>
    /** everything sent to each socket so far */
    var outbox: map<Sock, Bytes>

    /**
     * The bookkeeping invariant: the select list is the listener followed
     * by the clients in registration order, each registered once; every
     * registered name is on the roster, and the counter is the roster's size.
     */
    ghost predicate Valid()
      reads this`socketsList, this`order, this`clients, this`inbox, this`roster, this`connected
    {
      Bookkeeping(listener, socketsList, order, clients, inbox, roster, connected)
    }

    /** The server right after `start`: only the listener is watched, nobody is registered. */
    constructor (listener: Sock)
      ensures Valid()
      ensures this.listener == listener && socketsList == [listener]
      ensures order == [] && clients == map[] && roster == [] && connected == 0
      ensures events == [] && inbox == map[] && outbox == map[]
    {
      this.listener := listener;
      socketsList := [listener];
      order := [];
      clients := map[];
      roster := [];
      connected := 0;
      events := [];
      inbox := map[];
      outbox := map[];
    }

    /** Installs new values of the bookkept fields, which must satisfy the invariant together. */
    method SetBookkeeping(socketsList': seq<Sock>, order': seq<Sock>, clients': map<Sock, Message>,
                          inbox': map<Sock, PeerInput>, roster': seq<Bytes>, connected': int)
      requires Bookkeeping(listener, socketsList', order', clients', inbox', roster', connected')
      modifies this`socketsList, this`order, this`clients, this`inbox, this`roster, this`connected
      ensures Valid() && Registered(listener, socketsList, order, clients)
      ensures socketsList == socketsList' && order == order' && clients == clients'
      ensures inbox == inbox' && roster == roster' && connected == connected'
    {
      socketsList, order, clients := socketsList', order', clients';
      inbox, roster, connected := inbox', roster', connected';
    }

    /** `for client_socket in clients: if client_socket != skip: client_socket.send(payload)`. */
    method SendToAllBut(skip: Sock, payload: Bytes)
      requires Registered(listener, socketsList, order, clients)
      modifies this`outbox
      ensures forall s :: SentOn(outbox, s) == if s in clients && s != skip then SentOn(old(outbox), s) + payload else SentOn(old(outbox), s)
    {
      var i := 0;
      while i < |order|
        invariant 0 <= i <= |order|
        invariant forall s :: SentOn(outbox, s) == if s in order[..i] && s != skip then SentOn(old(outbox), s) + payload else SentOn(old(outbox), s)
      {
        var c := order[i];
        assert c !in order[..i];
        if c != skip {
          outbox := outbox[c := SentOn(outbox, c) + payload];
        }
        assert order[..i + 1] == order[..i] + [c];
        i := i + 1;
      }
      assert order[..|order|] == order;
    }

    /**
     * The listener is ready: the accepted socket `sock` (whose peer sends
     * `input`, from address `host`:`port`) is read for its name. If that
     * read fails nothing changes; otherwise the newcomer is registered.
     */
    method Accept(sock: Sock, input: PeerInput, host: Bytes, port: nat) returns (joined: bool)
      requires Valid()
      requires sock != listener && sock !in clients
      modifies this
      ensures Valid()
      ensures joined == ReceiveMessage(input).0.Some?
      ensures !joined ==> unchanged(this)
      ensures joined ==>
        var user := ReceiveMessage(input).0.value;
        && socketsList == old(socketsList) + [sock]
        && order == old(order) + [sock]
        && clients == old(clients)[sock := user]
        && roster == old(roster) + [user.data]
        && connected == old(connected) + 1
        && events == old(events) + [AcceptedLine(host, port, user.data), ServerLine(JoinText(user.data))]
        && inbox == old(inbox)[sock := ReceiveMessage(input).1]
        && forall s :: SentOn(outbox, s) == if s in clients then SentOn(old(outbox), s) + ServerNotice(JoinText(user.data)) else SentOn(old(outbox), s)
    {
      var (m, rest) := ReceiveMessage(input);
      if m.None? {
        return false;
      }
      Register(sock, m.value, rest, host, port);
      joined := true;
    }

    /**
     * A newcomer whose name was read: the socket joins the select list and
     * the clients, its name joins the roster, the counter goes up, two lines
     * are logged and every registered client, the newcomer included, is
     * sent the join notice.
     */
    method Register(sock: Sock, user: Message, rest: PeerInput, host: Bytes, port: nat)
      requires Valid()
      requires sock != listener && sock !in clients
      modifies this
      ensures Valid()
      ensures socketsList == old(socketsList) + [sock]
      ensures order == old(order) + [sock]
      ensures clients == old(clients)[sock := user]
      ensures roster == old(roster) + [user.data]
      ensures connected == old(connected) + 1
      ensures events == old(events) + [AcceptedLine(host, port, user.data), ServerLine(JoinText(user.data))]
      ensures inbox == old(inbox)[sock := rest]
      ensures forall s :: SentOn(outbox, s) == if s in clients then SentOn(old(outbox), s) + ServerNotice(JoinText(user.data)) else SentOn(old(outbox), s)
    {
      RegisterKeeps(listener, socketsList, order, clients, inbox, roster, connected, sock, user, rest);
      SetBookkeeping(socketsList + [sock], order + [sock], clients[sock := user],
                     inbox[sock := rest], roster + [user.data], connected + 1);
      var msg := JoinText(user.data);
      events := events + [AcceptedLine(host, port, user.data), ServerLine(msg)];
      SendToAllBut(listener, ServerNotice(msg));
    }

    /**
     * A registered client is ready. If a message can be read from it, it is
     * relayed; if not, the client has left.
     */
    method ServeClient(sock: Sock) returns (relayed: bool)
      requires Valid()
      requires sock in clients
      modifies this
      ensures Valid()
      ensures relayed == ReceiveMessage(old(inbox[sock])).0.Some?
      ensures relayed ==>
        var msg := ReceiveMessage(old(inbox[sock])).0.value;
        var user := old(clients[sock]);
        && socketsList == old(socketsList) && order == old(order) && clients == old(clients)
        && roster == old(roster) && connected == old(connected)
        && events == old(events) + [ChatLine(user.data, msg.data)]
        && inbox == old(inbox)[sock := ReceiveMessage(old(inbox[sock])).1]
        && forall s :: SentOn(outbox, s) == if s in clients && s != sock then SentOn(old(outbox), s) + RelayBytes(user, msg) else SentOn(old(outbox), s)
      ensures !relayed ==>
        var name := old(clients[sock]).data;
        && name in old(roster)
        && socketsList == RemoveFirst(old(socketsList), sock)
        && order == RemoveFirst(old(order), sock)
        && clients == old(clients) - {sock}
        && roster == RemoveFirst(old(roster), name)
        && connected == old(connected) - 1
        && events == old(events) + [ServerLine(LeaveText(name))]
        && inbox == old(inbox) - {sock}
        && forall s :: SentOn(outbox, s) == if s in old(clients) && s != sock then SentOn(old(outbox), s) + ServerNotice(LeaveText(name)) else SentOn(old(outbox), s)
    {
      var (m, rest) := ReceiveMessage(inbox[sock]);
      if m.None? {
        Depart(sock);
        return false;
      }
      Relay(sock, m.value, rest);
      relayed := true;
    }

    /**
     * A message read from a registered client: it is logged as a chat line
     * and relayed byte for byte, behind the sender's stored header and name,
     * to every other registered client.
     */
    method Relay(sock: Sock, msg: Message, rest: PeerInput)
      requires Valid()
      requires sock in clients
      modifies this
      ensures Valid()
      ensures socketsList == old(socketsList) && order == old(order) && clients == old(clients)
      ensures roster == old(roster) && connected == old(connected)
      ensures events == old(events) + [ChatLine(clients[sock].data, msg.data)]
      ensures inbox == old(inbox)[sock := rest]
      ensures forall s :: SentOn(outbox, s) == if s in clients && s != sock then SentOn(old(outbox), s) + RelayBytes(clients[sock], msg) else SentOn(old(outbox), s)
    {
      var user := clients[sock];
      ReadKeeps(listener, socketsList, order, clients, inbox, roster, connected, sock, rest);
      SetBookkeeping(socketsList, order, clients, inbox[sock := rest], roster, connected);
      events := events + [ChatLine(user.data, msg.data)];
      SendToAllBut(sock, RelayBytes(user, msg));
    }

    /**
     * A registered client that could not be read has left: the others are
     * told, the first roster entry with its name goes, the counter goes
     * down and the socket is unregistered; everything else keeps its order.
     */
    method Depart(sock: Sock)
      requires Valid()
      requires sock in clients
      modifies this
      ensures Valid()
      ensures old(clients[sock]).data in old(roster)
      ensures socketsList == RemoveFirst(old(socketsList), sock)
      ensures order == RemoveFirst(old(order), sock)
      ensures clients == old(clients) - {sock}
      ensures roster == RemoveFirst(old(roster), old(clients[sock]).data)
      ensures connected == old(connected) - 1
      ensures events == old(events) + [ServerLine(LeaveText(old(clients[sock]).data))]
      ensures inbox == old(inbox) - {sock}
      ensures forall s :: SentOn(outbox, s) == if s in old(clients) && s != sock then SentOn(old(outbox), s) + ServerNotice(LeaveText(old(clients[sock]).data)) else SentOn(old(outbox), s)
    {
      var name := clients[sock].data;
      DepartKeeps(listener, socketsList, order, clients, inbox, roster, connected, sock);
      SendToAllBut(sock, ServerNotice(LeaveText(name)));
      events := events + [ServerLine(LeaveText(name))];
      SetBookkeeping(RemoveFirst(socketsList, sock), RemoveFirst(order, sock), clients - {sock},
                     inbox - {sock}, RemoveFirst(roster, name), connected - 1);
    }

    /**
     * A registered client is reported in an exceptional state: it leaves
     * the select list and the clients dict. Nothing is sent, and its name
     * stays on the roster and in the counter.
     */
    method DropExceptional(sock: Sock)
      requires Valid()
      requires sock in clients
      modifies this
      ensures Valid()
      ensures socketsList == RemoveFirst(old(socketsList), sock)
      ensures order == RemoveFirst(old(order), sock)
      ensures clients == old(clients) - {sock}
      ensures roster == old(roster) && connected == old(connected) && events == old(events)
      ensures inbox == old(inbox) && outbox == old(outbox)
    {
      UnregisterKeeps(listener, socketsList, order, clients, inbox, roster, connected, sock);
      SetBookkeeping(RemoveFirst(socketsList, sock), RemoveFirst(order, sock), clients - {sock},
                     inbox, roster, connected);
    }
  }
}
