/** What a cart asks of the network and what it is told: the vocabulary the
    contract, the host's link and the worker's wire share. Strings are their
    UTF-8 bytes, which is what every size bound counts. */
module NetTypes {
  import opened Numbers
  import opened Wrappers

  type Str = seq<byte>

  const MAX_DATA := 1024
  const MAX_TICKET := 1024
  const MAX_DETAIL := 256
  const INBOX_CAP := 256
  const MAX_BATCH := 64
  const MAX_SENDS := 16
  const MAX_COMMANDS := 32
  const PENDING_CAP := INBOX_CAP

  datatype Command = Host | Join(ticket: Str) | Send(data: seq<byte>) | Leave {
    /** No field is too long, and no message is empty. */
    predicate Check() {
      match this
      case Join(ticket) => |ticket| <= MAX_TICKET
      case Send(data) => 0 < |data| <= MAX_DATA
      case _ => true
    }
  }

  datatype Reason = Left | Lost | Closed

  datatype FailCode =
    Denied | Declined | QueueFull | Disabled | NoAddress | Ticket | Connect
  | ProtocolMismatch | Handshake | Frame | Timeout | Busy | Cancelled

  datatype Event =
    Hosting(ticket: Str)
  | Connected(peer: nat)
  | Message(from: nat, data: seq<byte>)
  | Disconnected(reason: Reason)
  | Failed(code: FailCode, detail: Str)
  | Permission(granted: bool)
  {
    /** A full inbox takes it all the same. */
    predicate IsControl() { Permission? }

    predicate Check() {
      match this
      case Hosting(ticket) => |ticket| <= MAX_TICKET
      case Connected(peer) => peer == 1
      case Message(from, data) => from == 1 && 0 < |data| <= MAX_DATA
      case Failed(_, detail) => |detail| <= MAX_DETAIL
      case _ => true
    }
  }

  // ----- names on the wire -------------------------------------------------------

  function Ascii(s: string): (b: Str)
    requires forall i :: 0 <= i < |s| ==> s[i] < 128 as char
  {
    seq(|s|, i requires 0 <= i < |s| => s[i] as int)
  }

  function ReasonName(r: Reason): string {
    match r case Left => "left" case Lost => "lost" case Closed => "closed"
  }

  function CodeName(c: FailCode): string {
    match c
    case Denied => "net_denied"
    case Declined => "net_declined"
    case QueueFull => "net_queue_full"
    case Disabled => "net_disabled"
    case NoAddress => "net_no_address"
    case Ticket => "net_ticket"
    case Connect => "net_connect"
    case ProtocolMismatch => "net_protocol_mismatch"
    case Handshake => "net_handshake"
    case Frame => "net_frame"
    case Timeout => "net_timeout"
    case Busy => "net_busy"
    case Cancelled => "net_cancelled"
  }

  lemma CodeNamesAscii(c: FailCode)
    ensures forall i :: 0 <= i < |CodeName(c)| ==> CodeName(c)[i] < 128 as char
    ensures 8 <= |CodeName(c)| <= 21
  {
  }

  function ReasonStr(r: Reason): (s: Str)
    ensures |s| == |ReasonName(r)| <= 16
    ensures forall i :: 0 <= i < |s| ==> s[i] == ReasonName(r)[i] as int && s[i] < 128
  {
    Ascii(ReasonName(r))
  }

  function CodeStr(c: FailCode): (s: Str)
    ensures 8 <= |s| == |CodeName(c)| <= 21
    ensures forall i :: 0 <= i < |s| ==> s[i] == CodeName(c)[i] as int && s[i] < 128
  {
    CodeNamesAscii(c);
    Ascii(CodeName(c))
  }

  const ALL_CODES := [Denied, Declined, QueueFull, Disabled, NoAddress, Ticket, Connect,
                      ProtocolMismatch, Handshake, Frame, Timeout, Busy, Cancelled]

  function ParseReason(s: Str): Option<Reason> {
    if s == ReasonStr(Left) then Some(Left)
    else if s == ReasonStr(Lost) then Some(Lost)
    else if s == ReasonStr(Closed) then Some(Closed)
    else None
  }

  /** The first code of that name, looking along the list. */
  function FindCode(s: Str, codes: seq<FailCode>): Option<FailCode> {
    if codes == [] then None
    else if CodeStr(codes[0]) == s then Some(codes[0])
    else FindCode(s, codes[1..])
  }

  function ParseCode(s: Str): Option<FailCode> { FindCode(s, ALL_CODES) }

  lemma ReasonsApart(r: Reason)
    ensures ParseReason(ReasonStr(r)) == Some(r)
  {
    assert ReasonName(Left)[1] == 'e' && ReasonName(Lost)[1] == 'o';
    assert ReasonStr(Left)[1] == 'e' as int && ReasonStr(Lost)[1] == 'o' as int;
    assert |ReasonStr(Closed)| == 6 && |ReasonStr(Left)| == 4;
  }

  lemma ReasonParsed(s: Str)
    ensures ParseReason(s).Some? ==> s == ReasonStr(ParseReason(s).value)
  {
  }

  /** Length and two letters tell the codes apart. */
  lemma CodesApart(c: FailCode, c': FailCode)
    requires CodeStr(c) == CodeStr(c')
    ensures c == c'
  {
    assert CodeStr(c)[4] == CodeName(c)[4] as int && CodeStr(c')[4] == CodeName(c')[4] as int;
    assert CodeStr(c)[5] == CodeName(c)[5] as int && CodeStr(c')[5] == CodeName(c')[5] as int;
    assert |CodeName(c)| == |CodeName(c')|;
  }

  lemma {:induction false} FindCodeMeans(s: Str, codes: seq<FailCode>)
    ensures FindCode(s, codes).Some? ==> s == CodeStr(FindCode(s, codes).value)
    ensures FindCode(s, codes).None? ==> forall c :: c in codes ==> CodeStr(c) != s
  {
    hide CodeStr;
    if codes != [] {
      FindCodeMeans(s, codes[1..]);
    }
  }

  lemma CodeRoundTrip(c: FailCode)
    ensures ParseCode(CodeStr(c)) == Some(c)
  {
    hide CodeStr;
    FindCodeMeans(CodeStr(c), ALL_CODES);
    assert c in ALL_CODES by { EveryCodeListed(c); }
    CodesApart(c, ParseCode(CodeStr(c)).value);
  }

  lemma EveryCodeListed(c: FailCode)
    ensures c in ALL_CODES
  {
    var a := ALL_CODES;
    assert a[0] == Denied && a[1] == Declined && a[2] == QueueFull && a[3] == Disabled && a[4] == NoAddress;
    assert a[5] == Ticket && a[6] == Connect && a[7] == ProtocolMismatch && a[8] == Handshake;
    assert a[9] == Frame && a[10] == Timeout && a[11] == Busy && a[12] == Cancelled;
  }
}
