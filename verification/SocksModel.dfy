/** The incremental SOCKS4, SOCKS4A and SOCKS5 parser of a dynamic forwarding channel. */
module SocksModel {
  import opened Bytes

  datatype Option<+T> = None | Some(value: T)

  const MAXLEN := 1024

  /** Where to connect: an address to be printed, or a name. */
  datatype Host = Ip4(addr: seq<Byte>) | Ip6(addr: seq<Byte>) | Name(name: seq<Byte>)

  datatype Target = Target(host: Host, port: int)

  datatype Phase = Dynamic | Connecting | Dead | Fatal

  datatype Socks = Socks(input: seq<Byte>, output: seq<Byte>, authDone: bool,
                         target: Option<Target>, phase: Phase)

  /** Outcome of looking at the front of the buffer. */
  datatype Parsed<T> = More | Bad | Crash | Got(value: T, rest: seq<Byte>)

  // ---------- sshbuf_get_nulterminated_string ----------

  function FindNul(b: seq<Byte>): (k: nat)
    ensures k <= |b| && (forall i | 0 <= i < k :: b[i] != 0) && (k < |b| ==> b[k] == 0)
  {
    if b == [] || b[0] == 0 then 0 else 1 + FindNul(b[1..])
  }

  function GetNulTerminated(b: seq<Byte>): Parsed<seq<Byte>> {
    var k := FindNul(b);
    if k == |b| then if |b| < MAXLEN then More else Bad
    else if k > MAXLEN then Bad
    else Got(b[..k], b[k + 1..])
  }

  // ---------- SOCKS4 ----------

  predicate Is4a(addr: seq<Byte>)
    requires |addr| == 4
  {
    addr[0] == 0 && addr[1] == 0 && addr[2] == 0 && addr[3] != 0
  }

  function U16(hi: Byte, lo: Byte): int { 256 * (hi as int) + lo as int }

  function Parse4(b: seq<Byte>): Parsed<Target> {
    if |b| < 9 then More else Strings4(b[1], U16(b[2], b[3]), b[4..8], b[8..])
  }

  /** The user name and, for SOCKS4A, the host name that follow the fixed part. */
  function Strings4(cmd: Byte, port: int, addr: seq<Byte>, b: seq<Byte>): Parsed<Target>
    requires |addr| == 4
  {
    match GetNulTerminated(b)
    case More => More
    case Bad => Bad
    case Crash => Crash
    case Got(_, rest) =>
      if Is4a(addr) then
        match GetNulTerminated(rest)
        case More => More
        case Bad => Bad
        case Crash => Crash
        case Got(name, rest') => if cmd != 1 then Bad else Got(Target(Name(name), port), rest')
      else if cmd != 1 then Bad
      else Got(Target(Ip4(addr), port), rest)
  }

  /** What a decoding that does not ask for more leaves in the buffer: a request that was read to its end is
      consumed even when its command is then refused. */
  function Unread4(b: seq<Byte>): seq<Byte> {
    if |b| < 9 then b
    else
      match GetNulTerminated(b[8..])
      case Got(_, rest) =>
        if !Is4a(b[4..8]) then rest
        else (match GetNulTerminated(rest) case Got(_, rest') => rest' case _ => b)
      case _ => b
  }

  const REPLY4: seq<Byte> := [0, 90, 0, 0, 0, 0, 0, 0]

  // ---------- SOCKS5 ----------

  function ParseAuth(b: seq<Byte>): Parsed<()> {
    if |b| < 1 then More
    else if b[0] != 5 then Crash
    else if |b| < 2 || |b| < 2 + b[1] as int then More
    else if 0 !in b[2..2 + b[1] as int] then Bad
    else Got((), b[2 + b[1] as int..])
  }

  const AUTH_REPLY: seq<Byte> := [5, 0]

  function ParseRequest(b: seq<Byte>): Parsed<Target> {
    if |b| < 1 then More
    else if b[0] != 5 then Crash
    else if |b| < 4 then More
    else if b[1] != 1 || b[2] != 0 then Bad
    else if b[3] == 1 then Address(b, 4, 4)
    else if b[3] == 3 then if |b| < 5 then More else Address(b, 5, b[4])
    else if b[3] == 4 then Address(b, 4, 16)
    else Bad
  }

  /** The address of `len` bytes at `off`, then the port. */
  function Address(b: seq<Byte>, off: nat, len: nat): Parsed<Target>
    requires 4 <= off <= |b|
  {
    var end := off + len;
    if |b| < end + 2 then More
    else
      var addr, port := b[off..end], U16(b[end], b[end + 1]);
      var host := if b[3] == 1 then Ip4(addr) else if b[3] == 4 then Ip6(addr)
                  else Name(addr[..FindNul(addr)]);
      Got(Target(host, port), b[end + 2..])
  }

  function Reply5(port: int): seq<Byte>
    requires 0 <= port < 65536
  {
    [5, 0, 0, 1, 0, 0, 0, 0, port / 256, port % 256]
  }

  lemma RequestPort(b: seq<Byte>)
    ensures ParseRequest(b).Got? ==> 0 <= ParseRequest(b).value.port < 65536
  {
  }

  // ---------- channel_pre_dynamic ----------

  function Pre(s: Socks): Socks {
    if |s.input| < 3 then s
    else if s.input[0] == 4 then
      match Parse4(s.input)
      case More => s
      case Got(t, rest) =>
        s.(input := rest, output := s.output + REPLY4, target := Some(t), phase := Connecting)
      case _ => s.(phase := Dead, input := Unread4(s.input))
    else if s.input[0] == 5 then Decode5(s)
    else s.(phase := Dead)
  }

  /** The greeting, unless it has been answered, and then the request. */
  function Decode5(s: Socks): Socks {
    if s.authDone then Request(s)
    else
      match ParseAuth(s.input)
      case More => s
      case Got(_, rest) => Request(s.(input := rest, output := s.output + AUTH_REPLY, authDone := true))
      case Bad => s.(phase := Dead)
      case Crash => s.(phase := Fatal)
  }

  function Request(s: Socks): Socks {
    RequestPort(s.input);
    match ParseRequest(s.input)
    case More => s
    case Bad => s.(phase := Dead)
    case Crash => s.(phase := Fatal)
    case Got(t, rest) =>
      s.(input := rest, output := s.output + Reply5(t.port), target := Some(t), phase := Connecting)
  }

  /** Bytes arrive; while the channel is still dynamic the parser looks at the buffer again. */
  function Feed(s: Socks, chunk: seq<Byte>): Socks {
    var t := s.(input := s.input + chunk);
    if s.phase == Dynamic then Pre(t) else t
  }

  function FeedAll(s: Socks, chunks: seq<seq<Byte>>): Socks {
    if chunks == [] then s else Feed(FeedAll(s, chunks[..|chunks| - 1]), chunks[|chunks| - 1])
  }

  const FRESH := Socks([], [], false, None, Dynamic)
}
