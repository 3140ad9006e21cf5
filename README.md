# Chat relay: a Dafny model of its frame format, server, client and widgets

The system is a small Tk chat application. A **server** (`server.py`) accepts
clients on a listening socket, reads each newcomer's user name, relays every
chat message to the other clients and tells everyone when someone joins or
leaves. A **client** (`client.py`) connects with a user name, sends one frame
per message and polls its non-blocking socket for (name, message) frame pairs,
showing each as `<name>: message`. Both sides frame every payload with a
10-byte header holding the payload length in decimal, left-justified and
padded with spaces. A widget module (`xtra_widgets.py`) adds a navigation list
box, driven by `command@p1, p2` statements, and a database search box that
builds an SQL query from the text typed into it.

The model is split into one Dafny module per concern:

- `wrappers.dfy` (`Wrappers`): `Option` and `Result`.
- `pytext.dfy` (`PyText`): the Python built-ins the programs rely on, modelled
  with the edge cases the programs meet on ASCII text. These are `int()` of a
  `str` (surrounding whitespace, a sign, single underscores between digits), `str(n)`,
  `format` left justification, `strip`, `split`, `join`, `replace`, `index`
  and `remove`.
- `wire.dfy` (`Wire`): the header format, frames, server notices and chat lines.
- `server.dfy` (`Server`): `_receive_message` as a function of what a peer
  sends, and the state of `run_server` as the class `ChatServer`, with one
  method per event of its loop.
- `client.dfy` (`Client`): the non-blocking `recv`, one pass of the receiving
  loop (`ReadPair`), the loop run until it stops showing lines (`Drain`,
  implemented by `ChatSession.Poll`), and the session's `connect` and
  `send_msg`.
- `navigation.dfy` (`Navigation`): the `NavigationBox` class, its statement
  parser and `set_var`'s type dispatch.
- `search.dfy` (`Search`): the query `DBSearchBox.search` builds, and the
  widget's list of queries run and lines shown.
- `protocol.dfy` (`Protocol`): the two programs together. What a client writes
  is what the server reads. What the server relays is what the other clients
  display. A server notice reaches a client in a particular way, described at
  the end of the next paragraph.

Two quirks of the source are modelled as written and proved about:

- **The join notice goes to everyone.** The server sends the join notice to
  every registered client, the newcomer included. The loop compares against
  the listening socket rather than the newcomer (`server.py:146-147`).
- **Notices declare one byte too many.** The header of a notice's text
  declares `len(msg) + 1` bytes (`server.py:149`, `server.py:163`).
  - If the client's buffer holds only the notice, the short read returns the
    text as sent.
  - If another frame already follows, the client takes that frame's first
    byte as part of the notice (`Protocol.NoticeTakesNextByte`).

## Model

| member | source | states |
|---|---|---|
| `Wire.HeaderRoundTrip` | server.py:187 | for a length below 10^10 the header is exactly 10 bytes and `int(header.decode().strip())` reads the length back |
| `Wire.HeaderLayout` | server.py:149 | the header is the decimal digits of the length followed by spaces up to 10 characters, never truncated |
| `Wire.HeaderWidth` | server.py:9 | the header is exactly `HEADER_LENGTH` wide precisely when the length is below 10^10, and wider above |
| `Wire.HeaderText` | server.py:187 | `int()` of the header text is the length written into it |
| `Wire.HeaderIsAscii` | client.py:90 | the header text is ASCII (digits and spaces), so its UTF-8 encoding is one byte per character |
| `Wire.AsciiDecodes` | server.py:187 | decoding the encoding of ASCII text gives the text back |
| `Wire.ServerHeaderText` | server.py:13 | `SERVER_HEADER` is "6" followed by nine spaces |
| `Wire.FrameParts` | client.py:125-126 | a frame is 10 header bytes declaring the payload's length, then the payload |
| `Wire.EmptyHeaderUnreadable` | client.py:144-145 | an empty message header is not a number, so `int()` raises |
| `Wire.DecodeAscii` | server.py:187 | a successful decode has one character per byte and re-encodes to the same bytes |
| `Server.Recv` | server.py:182 | a blocking `recv(n)` returns the first `min(n, what the peer still sends)` bytes and leaves the rest; it raises exactly for a negative size or at a reset with nothing left |
| `Server.ReceiveShape` | server.py:182-188 | a received message is the raw header (the first 10 bytes of the stream, non-empty, parsing as a length) followed by at most that many payload bytes, fewer only at the end of the stream |
| `Server.ReceiveNothing` | server.py:184-185 | an empty first read gives `False` |
| `Server.ReceiveBadHeader` | server.py:187-190 | a header that is not a number gives `False` because the exception is swallowed |
| `Server.ReceiveFrame` | server.py:182-188 | a client frame is read back as its unchanged header plus its payload, and what follows is left unread |
| `Server.NamesHold` | server.py:155 | the name of a registered socket is among the registered names |
| `Server.NamesSnoc` | server.py:134-139 | registering a socket appends its name to the registered names |
| `Server.NamesWithout` | server.py:165-166 | unregistering a socket removes exactly its name from the multiset of registered names |
| `Server.RemoveKeepsDistinct` | server.py:165 | removing a socket from distinct sockets keeps them distinct and drops only that socket |
| `Server.UnregisterKeeps` | server.py:175-177 | removing an exceptional socket from `sockets_list` and `clients` keeps the bookkeeping invariant |
| `Server.RegisterKeeps` | server.py:134-145 | a join keeps the bookkeeping invariant: listener first, then clients in insertion order, names on the roster, counter equal to the roster's size |
| `Server.ReadKeeps` | server.py:153 | reading from a client keeps the bookkeeping invariant |
| `Server.DepartKeeps` | server.py:155-166 | a departure keeps the bookkeeping invariant, and the departing name was on the roster |
| `Server.ChatServer.constructor` | server.py:84-86 | at start only the listener is watched and nobody is registered |
| `Server.ChatServer.SendToAllBut` | server.py:146-150 | every registered client except the skipped socket receives the payload appended to what it was sent; nobody else receives anything |
| `Server.ChatServer.Accept` | server.py:130-133 | a failed handshake changes nothing; a successful one registers the newcomer |
| `Server.ChatServer.Register` | server.py:134-150 | the socket is appended to `sockets_list`, mapped to its user in `clients`, its name appended to the roster and the counter raised by one; two event lines are logged, and every registered client, the newcomer included, is sent the join notice |
| `Server.ChatServer.ServeClient` | server.py:153-173 | a readable client is relayed when its message reads and departs when it does not, with the full new state in each case |
| `Server.ChatServer.Relay` | server.py:168-173 | the message is logged as `<name>: text` and sent, as stored header + name + message header + message, to every registered client except the sender; the bookkeeping is unchanged |
| `Server.ChatServer.Depart` | server.py:154-167 | the others are sent the disconnect notice; the first roster entry with the name is removed and the counter drops by one; the socket leaves `sockets_list` and `clients`, and all other entries keep their order |
| `Server.ChatServer.DropExceptional` | server.py:175-177 | the socket leaves `sockets_list` and `clients`; the roster, counter, events and sent bytes are unchanged |
| `Client.Recv` | client.py:134 | a non-blocking `recv(n)` returns the first `min(n, available)` bytes; with nothing waiting it raises would-block while the connection is open, returns nothing once it is closed and raises an I/O error after a reset |
| `Client.ReadField` | client.py:134-146 | reading one header and its payload consumes input, and a failure never shows a line |
| `Client.ReadPairShrinks` | client.py:134-149 | a pass never grows the unread input, and a pass that shows a line consumes some |
| `Client.DrainEnds` | client.py:131-159 | the receiving loop leaves on a pass that shows nothing, without growing the unread input |
| `Client.ReadFrame` | client.py:134-142 | a frame at the front of the buffer is read as its payload, leaving what follows |
| `Client.ReadPairOfFrames` | client.py:134-149 | when the reads are full, one pass consumes exactly 10 + name length + 10 + message length bytes and shows `<name>: message` |
| `Client.DrainPairs` | client.py:134-149 | frame pairs built the way senders build them are shown in order, and the loop then continues on what follows |
| `Client.DrainAllOpen` | client.py:151-155 | pairs followed by nothing on an open connection are all shown, and the loop then waits |
| `Client.DrainAllClosed` | client.py:136-138 | pairs followed by a close are all shown, then the receiver ends without an error box |
| `Client.ClosedEnds` | client.py:136-159 | with nothing waiting, a pass blocks while open, ends quietly once closed and ends with an error after a reset |
| `Client.BadHeaderStops` | client.py:140 | a name header that is not a number ends the receiver with an error |
| `Client.PartialPairDiscarded` | client.py:142-146 | when only the name frame has arrived, the pass blocks and the name already read is lost |
| `Client.ReadFieldShape` | client.py:134-142 | a field read is a non-empty header parsing as a length, then at most that many payload bytes, fewer only when nothing is left |
| `Client.ChatSession.constructor` | client.py:17-20 | a client starts on its connection page, not connected |
| `Client.ChatSession.Connect` | client.py:77-96 | a port entry that is not a number changes nothing; a refused connection shows an error box; otherwise the first bytes sent are the 10-byte header of the name's length followed by the name, and the chat page comes up |
| `Client.ChatSession.Type` | client.py:109-110 | the entry holds what the user typed |
| `Client.ChatSession.SendMsg` | client.py:119-127 | a non-empty entry is echoed as `<my name>: text` and sent as one frame with no name frame; the entry is cleared whether or not a message was sent (a send never fails in this model) |
| `Client.ChatSession.Deliver` | client.py:134 | bytes from the server are appended to the unread input |
| `Client.ChatSession.Hangup` | client.py:136 | the server's close or reset is recorded behind the unread input |
| `Client.ChatSession.EndPass` | client.py:151-159 | a would-block keeps polling; an I/O error or any other exception ends the receiver with an error box; an empty name header ends it quietly |
| `Client.ChatSession.Poll` | client.py:129-159 | the chat box gains exactly the lines the receiving loop shows; the unread input, the receiver's state and the error boxes are as the loop leaves them |
| `Navigation.UnsupportedMessageNames` | xtra_widgets.py:7-14 | the message of `UnsupportedType` names the type, and different types give different messages |
| `Navigation.CharsJoin` | xtra_widgets.py:265-268 | every item of `list(s)` and `tuple(s)` is a single character, and joining the items gives `s` back |
| `Navigation.ConvertCases` | xtra_widgets.py:257-274 | `str` keeps the value, `int` parses it, `list`/`tuple` split it into characters, `bytes` raises, and `UnsupportedType` is raised exactly for names other than the six |
| `Navigation.ParseStatement` | xtra_widgets.py:218-219 | a statement that splits yields at least one parameter |
| `Navigation.ParseStatementShape` | xtra_widgets.py:218 | a statement splits into command and parameters exactly when it holds one `@` |
| `Navigation.ParseStatementOf` | xtra_widgets.py:218-219 | `command@p1, p2, ...` gives back the command and the parameters when none of them holds `@` or a comma |
| `Navigation.GotoFromStatement` | xtra_widgets.py:235-240 | from a statement, `goto@id` and `goto@id, False` both register the visit; only an empty second parameter does not |
| `Navigation.Lookup` | xtra_widgets.py:216 | a statement is found exactly for an entry text of the page |
| `Navigation.LookupAt` | xtra_widgets.py:214-216 | with distinct entry texts, the text shown at a position leads to that entry's statement |
| `Navigation.NavigationBox.constructor` | xtra_widgets.py:186-200 | page 0 is current, the history is empty and the variable is `None` |
| `Navigation.NavigationBox.GotoPage` | xtra_widgets.py:241-246 | after the clear, a missing page raises with the box empty and the history unchanged; otherwise the box shows exactly that page's entry texts, in order, the page becomes current, and it is appended to the history (enabling the back button) exactly when registered |
| `Navigation.NavigationBox.Grid` | xtra_widgets.py:202-210 | after `grid` the current page is 0, the history is `[0]` and the back button is disabled; without a page 0 it raises |
| `Navigation.NavigationBox.Goto` | xtra_widgets.py:224-246 | the page id is parsed with `int` when it is a string, the visit is registered when there is no second argument or when the second argument is truthy, and a registered visit leaves the current page last in the history |
| `Navigation.NavigationBox.Back` | xtra_widgets.py:277-283 | with fewer than two recorded pages it raises and changes nothing; otherwise it removes exactly the last entry, shows the one before it without re-registering it, keeps the current page last in the history and disables the button when one entry remains |
| `Navigation.NavigationBox.SetVar` | xtra_widgets.py:248-274 | anything but two arguments raises; otherwise the variable becomes the converted value, or is unchanged when the conversion raises |
| `Navigation.NavigationBox.OnSelect` | xtra_widgets.py:212-222 | the selected entry's statement is split into a command and parameters; `goto` and `set_var` run with the parameters as strings, and any other command or a statement without exactly one `@` raises and changes nothing |
| `Navigation.NavigationBox.StatementAt` | xtra_widgets.py:214-216 | the statement of the entry shown at a position is that entry's statement on the current page |
| `Search.FieldListOfNone` | xtra_widgets.py:86 | `show_fields=None` selects the text `None` |
| `Search.FieldListOfEmpty` | xtra_widgets.py:86 | an empty tuple of fields selects nothing |
| `Search.FieldListOfTuple` | xtra_widgets.py:86 | a tuple of field names becomes the names separated by `, `, and a one-element tuple keeps its trailing comma |
| `Search.Unquote` | xtra_widgets.py:86 | deleting the quotes from the joined quoted names gives the names joined by `, ` |
| `Search.DefaultQuery` | xtra_widgets.py:86-94 | without custom SQL the query is `SELECT <fields> FROM <table>`, followed by ` WHERE <field> LIKE '%<text>%'` only when the text is non-empty |
| `Search.CustomQuery` | xtra_widgets.py:82-84 | with custom SQL and a non-empty text, the query is the SQL, a space, and `pfilter` with the text in place of every `{sv}` |
| `Search.QueryWithoutFilter` | xtra_widgets.py:82-94 | building the query raises exactly when there is custom SQL and no filter, whatever the text; an empty text runs the bare SQL or `SELECT ... FROM ...` |
| `Search.RowLineSplits` | xtra_widgets.py:98 | a row whose values hold no space is read back from its line |
| `Search.DBSearchBox.constructor` | xtra_widgets.py:45-61 | the text starts empty, nothing has run and nothing is shown |
| `Search.DBSearchBox.Search` | xtra_widgets.py:78-98 | the query for the current text is run and the box then shows exactly one line per returned row, in order; when building the query raises, nothing runs and the box is kept |
| `Search.DBSearchBox.ShowRows` | xtra_widgets.py:96-98 | after the clear, the box shows one line per row, in order |
| `Search.DBSearchBox.Grid` | xtra_widgets.py:64-70 | every `grid` installs one more trace on the text and runs the search for the current text once |
| `Search.DBSearchBox.Edit` | xtra_widgets.py:69 | a change of the text runs the search for the new text once per installed trace. Each run records the query, and the box then shows the rows. With no trace, only the text changes. A query that cannot be built runs nothing |
| `Protocol.RelayShown` | server.py:173 | the relay of a name and a message read from client frames is those two frames, and a receiving client shows `<name>: message` |
| `Protocol.ConversationShown` | client.py:129-155 | a client receiving a run of relays shows every relayed message in order, then waits |
| `Protocol.RelaysArePairs` | server.py:173 | relays of messages read from client frames are exactly the clients' frame pairs |
| `Protocol.NoticeTakesNextByte` | server.py:149 | a notice followed by other bytes is shown signed `SERVER` with its text plus the next byte, which is lost from what follows |
| `Protocol.NoticeFrames` | server.py:163-164 | a notice followed by other bytes reads as the frame of `SERVER` and a frame one byte longer than its text |
| `Protocol.NoticeAlone` | server.py:149 | a notice alone in the buffer is shown as sent, signed `SERVER` |
| `PyText.StripLeft` | server.py:187 | `lstrip` drops the longest prefix of dropped characters |
| `PyText.StripRight` | server.py:187 | `rstrip` drops the longest suffix of dropped characters |
| `PyText.StripKeeps` | server.py:187 | a character that is not dropped survives `strip` |
| `PyText.StripPadded` | xtra_widgets.py:86 | stripping a core whose ends are kept, surrounded by dropped characters, gives the core |
| `PyText.Decimal` | server.py:149 | `str(n)` is a non-empty string of digits with no leading zero |
| `PyText.ValueOfDecimal` | server.py:187 | the digits of `str(n)` denote `n` |
| `PyText.DecimalLength` | server.py:149 | `str(n)` has at most `k` digits exactly when `n < 10^k` |
| `PyText.ParseIntOfDecimal` | xtra_widgets.py:235 | `int(str(n)) == n` |
| `PyText.ParseIntDecimal` | server.py:187 | `int()` reads `str(n)` back whatever whitespace surrounds it |
| `PyText.ParseIntBlank` | server.py:184-187 | a whitespace-only string, an empty read in particular, is not a number |
| `PyText.ParseIntCharset` | server.py:187 | what `int()` accepts holds only digits, underscores, signs and whitespace |
| `PyText.LeftJustify` | server.py:149 | `format(s, '<w')` pads with spaces on the right to width `w` and never truncates |
| `PyText.JoinSplit` | xtra_widgets.py:219 | joining the pieces of a split with the separator gives the string back |
| `PyText.SplitNone` | xtra_widgets.py:218 | a string without the separator is one piece |
| `PyText.SplitFirst` | xtra_widgets.py:218 | the first separator ends the first piece |
| `PyText.SplitCount` | xtra_widgets.py:218 | splitting on a character gives one more piece than it occurs |
| `PyText.SplitJoin` | xtra_widgets.py:219 | splitting a join gives the pieces back when none holds the separator's first character |
| `PyText.ReplaceOnce` | xtra_widgets.py:84 | `replace` puts the new text where the one occurrence of the old text stood |
| `PyText.ReplaceNone` | xtra_widgets.py:84 | `replace` leaves a string without the old text alone |
| `PyText.DeleteFirst` | xtra_widgets.py:86 | `replace(c, '')` keeps the stretch before the first `c` |
| `PyText.DeleteAfter` | xtra_widgets.py:86 | `replace(c, '')` keeps a `c`-free stretch in front |
| `PyText.FirstIndex` | server.py:158 | `list.index` is the position of the first occurrence |
| `PyText.RemoveFirstAt` | server.py:158-159 | `list.remove` cuts the list at the position `index` reports |
| `PyText.RemoveFirstCounts` | server.py:159 | `list.remove` takes exactly one copy out and shortens the list by one |
| `PyText.RemoveFirstUnique` | server.py:165 | removing an element that occurs once leaves a list without it |

## Left out

- The Tk user interface: layouts, scroll bars, message boxes and the random
  default user name. Displays are modelled as sequences of lines, and error
  boxes as a list of alerts.
- Real sockets, `select`, `accept`, `connect` and `setblocking`. Sockets are
  abstract identifiers. What a peer sends is a byte sequence with the state of
  its connection behind it. Which socket is ready is the caller's choice of
  `ChatServer` method.
- The daemon threads. Each loop body is one sequential step
  (`ChatServer.ServeClient`, `ChatSession.Poll`), and their interleaving is not
  modelled.
- `sys.exit` and `print`. The end of the client's receiver is a terminal
  receiver state.
- UTF-8. Names and messages are byte sequences, and the texts the programs
  build around them are ASCII. User names are assumed to be ASCII. For such a
  name `len(msg)` of a notice (`server.py:149`) is its byte length. For a name
  with multi-byte characters Python declares the character count plus one,
  and the model declares the byte count plus one. Received payloads are not
  decoded.
- A partial `send`. Every `send` delivers all its bytes.
- Server.ChatServer.SendToAllBut: a `send` never fails in the model. In the
  source a send to a peer that has reset raises out of `run_server`
  (`server.py:148`, `server.py:163`, `server.py:173`), which ends the server
  thread, and the clients after that peer receive nothing. `Register`,
  `Depart` and `Relay` inherit this.
- Client.ChatSession.SendMsg: a `send` never fails in the model. In the
  source a send on a closed connection raises at `client.py:126`, after the
  echo line is shown and before the entry is cleared (`client.py:127`).
- Wire.DecodeAscii: decodes ASCII only. Python's `decode('utf-8')` also
  accepts valid multi-byte sequences, so a header whose digits are, say,
  full-width digits is read by the source but makes the sender depart in the
  model.
- PyText.ParseIntCharset: `int()` is modelled on ASCII digits and ASCII
  whitespace. Python's `int()` also accepts every Unicode decimal digit and
  Unicode whitespace, so `goto@` with a non-ASCII digit navigates in the
  source but is not a number in the model (`PyText.ParseInt`).
- Client.ChatSession.Connect: takes the port as what `int()` made of the
  entry, and the refusal as a flag. Opening the connection is not modelled.
- Server.ChatServer.DropExceptional: requires the socket to still be
  registered. In the source this loop sits inside the read loop, so a socket
  can be removed twice, which raises. That nesting and the double removal are
  not modelled.
- Server.Recv: the input of a peer is everything it will ever send, so a
  blocking `recv(n)` returns `n` bytes unless the stream ends first. A frame
  therefore always arrives whole unless the peer's stream ends. A real
  `recv` may return fewer bytes mid-stream, and the source then misframes
  (`server.py:188`). Short reads on the server are not modelled, and
  `Server.ReceiveMessage`, `Server.ReceiveFrame` and the `Protocol` lemmas
  rest on this.
- Navigation.Convert: the `float` branch stores the text unconverted. It does
  not model floating point, or the `ValueError` `float()` raises for text that
  is not a number. The `bytes` branch is the `TypeError` it always raises for
  a `str` argument.
- Navigation.NavigationBox.Goto: requires `grid` to have run. Calling `goto`
  before `grid` is not modelled, and neither is calling `grid` twice
  (`Navigation.NavigationBox.Grid` requires it has not run).
- Navigation.NavigationBox.SetVar: external calls with arguments that are not
  strings are not modelled. From a statement they are always strings.
- Navigation.NavigationBox.OnSelect: the selection is a position in the box.
  Tk's `curselection` with several selected entries is not modelled.
- Search.FieldList: field names whose `repr` would escape characters are not
  modelled. These are names with a quote, a backslash or a character outside
  printable ASCII.
- `cursor.execute` and the database. The queries run are recorded, and the
  rows returned are a parameter, given as the `str` of each value.
