/**
 * The length-prefixed frame format shared by the chat server and its
 * clients: a 10-byte header holding the payload length in decimal,
 * left-justified and space-padded, followed by the payload; and the
 * fixed texts the two programs build around it.
 */
module Wire {
  import opened Wrappers
  import opened PyText

  type byte = b: int | 0 <= b < 256
  type Bytes = seq<byte>

  /** HEADER_LENGTH in both programs. */
  const HeaderLength: nat := 10

  /** SERVER_USRNAME, the identity the server signs its notices with. */
  const ServerName: string := "SERVER"

  /** `s.encode('utf-8')` for ASCII text (non-ASCII text is not part of this model). */
  function Ascii(s: string): (b: Bytes)
    ensures |b| == |s|
    ensures forall i :: 0 <= i < |s| && s[i] as int < 128 ==> b[i] == s[i] as int
  {
    seq(|s|, i requires 0 <= i < |s| => (s[i] as int) % 256)
  }

  predicate IsAscii(s: string) {
    forall i :: 0 <= i < |s| ==> s[i] as int < 128
  }

  /** `b.decode('utf-8')` where every byte is ASCII; any other byte makes the header unreadable. */
  function DecodeAscii(b: Bytes): (r: Option<string>)
    ensures r.Some? ==> |r.value| == |b| && Ascii(r.value) == b
  {
    if forall i :: 0 <= i < |b| ==> b[i] < 128 then
      Some(seq(|b|, i requires 0 <= i < |b| => b[i] as char))
    else None
  }

  /** The header text for a payload of `n` bytes: `f"{n:<10}"`. */
  function Header(n: nat): string
  {
    LeftJustify(Decimal(n), HeaderLength)
  }

  function HeaderBytes(n: nat): Bytes
  {
    Ascii(Header(n))
  }

  /** What a reader does with a header: `int(header.decode('utf-8').strip())`. */
  function ParseHeader(h: Bytes): Option<int>
  {
    match DecodeAscii(h)
    case None => None
    case Some(t) => ParseInt(t)
  }

  /** The header a reader takes from the front of `data`: `recv(10)` of a stream that holds it all. */
  function HeaderPart(data: Bytes): Bytes
  {
    if |data| < HeaderLength then data else data[..HeaderLength]
  }

  /** An empty header, what `recv` returns at the end of the stream, is not a number. */
  lemma EmptyHeaderUnreadable()
    ensures ParseHeader([]) == None
  {
    assert DecodeAscii([]) == Some("");
    ParseIntBlank("");
  }

  /** A frame as the clients write it: the header of the payload's length, then the payload. */
  function Frame(payload: Bytes): Bytes
  {
    HeaderBytes(|payload|) + payload
  }

  /** SERVER_HEADER: the header in front of the server's name. */
  function ServerHeader(): string
  {
    Header(|ServerName|)
  }

  /**
   * A notice from the server: its name as one frame, then a frame whose
   * header declares one byte more than the text that follows it.
   */
  function ServerNotice(msg: Bytes): Bytes
  {
    Ascii(ServerHeader()) + Ascii(ServerName) + HeaderBytes(|msg| + 1) + msg
  }

  /** A chat line as both programs display it: `f'<{name}>: {text}'`. */
  function ChatLine(name: Bytes, text: Bytes): Bytes
  {
    Ascii("<") + name + Ascii(">: ") + text
  }

  // ---------------------------------------------------------------------------
  // Properties of the header
  // ---------------------------------------------------------------------------

  /** The header is the digits of `n` followed by spaces up to the header width. */
  lemma HeaderLayout(n: nat)
    ensures var d := Decimal(n);
      && Header(n)[..|d|] == d
      && (forall i :: |d| <= i < |Header(n)| ==> Header(n)[i] == ' ')
      && |Header(n)| == if |d| < HeaderLength then HeaderLength else |d|
  {
  }

  /**
   * The header is exactly 10 bytes wide precisely for lengths below 10^10;
   * longer payloads get a wider header, which no reader expects.
   */
  lemma HeaderWidth(n: nat)
    ensures |Header(n)| == HeaderLength <==> n < Pow10(HeaderLength)
    ensures n >= Pow10(HeaderLength) ==> |Header(n)| > HeaderLength
  {
    DecimalLength(n, HeaderLength);
  }

  /** Reading a header back gives the length that was written into it. */
  lemma HeaderRoundTrip(n: nat)
    requires n < Pow10(HeaderLength)
    ensures |HeaderBytes(n)| == HeaderLength
    ensures ParseHeader(HeaderBytes(n)) == Some(n)
  {
    HeaderWidth(n);
    HeaderText(n);
    HeaderIsAscii(n);
    AsciiDecodes(Header(n));
  }

  /** The header text is read by `int()` as the length it holds. */
  lemma HeaderText(n: nat)
    ensures ParseInt(Header(n)) == Some(n)
  {
    var d := Decimal(n);
    var h := Header(n);
    HeaderLayout(n);
    var pad := h[|d|..];
    assert h == [] + d + pad;
    assert forall i :: 0 <= i < |pad| ==> IsSpace(pad[i]) by {
      forall i | 0 <= i < |pad| ensures IsSpace(pad[i]) {
        assert pad[i] == h[|d| + i] == ' ';
      }
    }
    ParseIntDecimal([], n, pad);
  }

  /** The header is plain ASCII: digits and spaces. */
  lemma HeaderIsAscii(n: nat)
    ensures IsAscii(Header(n))
  {
    var d := Decimal(n);
    var h := Header(n);
    HeaderLayout(n);
    forall i | 0 <= i < |h| ensures h[i] as int < 128 {
      if i < |d| { assert h[i] == d[i] && IsDigit(d[i]); }
    }
  }

  /** ASCII text survives encoding and decoding. */
  lemma AsciiDecodes(s: string)
    requires IsAscii(s)
    ensures DecodeAscii(Ascii(s)) == Some(s)
  {
    var b := Ascii(s);
    assert forall i :: 0 <= i < |b| ==> b[i] < 128;
    assert DecodeAscii(b).value == s;
  }

  /** The server's name header is the text "6" and nine spaces. */
  lemma ServerHeaderText()
    ensures ServerHeader() == "6         "
  {
    assert Decimal(6) == "6";
  }

  /** A frame splits into the header for its length and the payload itself. */
  lemma FrameParts(payload: Bytes)
    requires |payload| < Pow10(HeaderLength)
    ensures |Frame(payload)| == HeaderLength + |payload|
    ensures Frame(payload)[..HeaderLength] == HeaderBytes(|payload|)
    ensures Frame(payload)[HeaderLength..] == payload
    ensures ParseHeader(Frame(payload)[..HeaderLength]) == Some(|payload|)
  {
    HeaderRoundTrip(|payload|);
  }
}
