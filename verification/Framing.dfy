/**
 The three stream formats, told apart by their first four bytes.

 A read may return any non-empty part of what is still to come, so every fragmentation of a
 stream is covered.  The message serializer is a parameter.
*/
module Framing {
  import opened Wrappers

  type byte = x: int | 0 <= x < 256
  type u16 = x: int | 0 <= x < 0x1_0000
  type u32 = x: int | 0 <= x < 0x1_0000_0000
  type DeviceId = nat

  const MAX_MESSAGE_SIZE := 16 * 1024 * 1024
  const PORT_HANDSHAKE: seq<byte> := ['F' as int, 'S' as int, 'P' as int, '1' as int]
  const SHELL_HANDSHAKE: seq<byte> := ['F' as int, 'S' as int, 'H' as int, '1' as int]
  const PORT_INIT_LEN := 7
  const SHELL_INIT_LEN := 8
  const PORT_PROTOCOL_TCP: byte := 0

  datatype PortProtocol = Tcp

  datatype FeatureMessage = FeatureMessage(from: DeviceId, to: DeviceId, feature: string, payload: seq<byte>)

  datatype Serializer = Serializer(write: FeatureMessage -> seq<byte>, read: seq<byte> -> Option<FeatureMessage>)

  ghost predicate Faithful(json: Serializer) {
    forall m :: json.read(json.write(m)) == Some(m)
  }

  // ---------------------------------------------------------------- big-endian numbers

  function Be16(x: u16): seq<byte> { [x / 256, x % 256] }

  function FromBe16(s: seq<byte>): u16
    requires |s| == 2
  {
    (s[0] as int) * 256 + s[1]
  }

  function Be32(x: u32): seq<byte> { Be16(x / 0x1_0000) + Be16(x % 0x1_0000) }

  function FromBe32(s: seq<byte>): u32
    requires |s| == 4
  {
    (FromBe16(s[..2]) as int) * 0x1_0000 + FromBe16(s[2..])
  }

  lemma Be16RoundTrip(x: u16, s: seq<byte>)
    ensures FromBe16(Be16(x)) == x
    ensures |s| == 2 ==> Be16(FromBe16(s)) == s
  {
  }

  lemma Be32RoundTrip(x: u32, s: seq<byte>)
    ensures FromBe32(Be32(x)) == x
    ensures |s| == 4 ==> Be32(FromBe32(s)) == s
  {
    assert Be32(x)[..2] == Be16(x / 0x1_0000) && Be32(x)[2..] == Be16(x % 0x1_0000);
    if |s| == 4 {
      var high, low := FromBe16(s[..2]), FromBe16(s[2..]);
      Be16RoundTrip(high, s[..2]);
      Be16RoundTrip(low, s[2..]);
      assert FromBe32(s) / 0x1_0000 == high && FromBe32(s) % 0x1_0000 == low;
      assert s == s[..2] + s[2..];
    }
  }

  // ---------------------------------------------------------------- the codec

  /** A frame: the length in four bytes, then the payload. */
  function Frame(payload: seq<byte>): seq<byte>
    requires |payload| <= MAX_MESSAGE_SIZE
  {
    Be32(|payload|) + payload
  }

  method Encode(message: FeatureMessage, json: Serializer) returns (frame: Option<seq<byte>>)
    ensures frame.Some? <==> |json.write(message)| <= MAX_MESSAGE_SIZE
    ensures frame.Some? ==> frame.value == Frame(json.write(message))
  {
    var payload := json.write(message);
    if |payload| > MAX_MESSAGE_SIZE {
      return None;
    }
    var bytes: seq<byte> := [];
    bytes := bytes + Be32(|payload|);
    bytes := bytes + payload;
    return Some(bytes);
  }

  function Decode(frame: seq<byte>, json: Serializer): Option<FeatureMessage> {
    if |frame| < 4 then None
    else
      var length := FromBe32(frame[..4]);
      if length > MAX_MESSAGE_SIZE || |frame| < 4 + length then None
      else json.read(frame[4..4 + length])
  }

  /** Decoding undoes encoding, whatever follows the frame; a proper prefix of a frame is refused. */
  lemma FrameRoundTrip(message: FeatureMessage, rest: seq<byte>, json: Serializer, cut: nat)
    requires Faithful(json) && |json.write(message)| <= MAX_MESSAGE_SIZE
    ensures Decode(Frame(json.write(message)) + rest, json) == Some(message)
    ensures cut < |Frame(json.write(message))| ==> Decode(Frame(json.write(message))[..cut], json) == None
  {
    var payload := json.write(message);
    var bytes := Frame(payload) + rest;
    Be32RoundTrip(|payload|, []);
    assert bytes[..4] == Be32(|payload|);
    assert bytes[4..4 + |payload|] == payload;
    if 4 <= cut < |Frame(payload)| {
      assert Frame(payload)[..cut][..4] == Be32(|payload|);
    }
  }

  // ---------------------------------------------------------------- port and shell handshakes

  predicate IsPortHandshake(header: seq<byte>) {
    |header| >= 4 && header[..4] == PORT_HANDSHAKE
  }

  predicate IsShellHandshake(header: seq<byte>) {
    |header| >= 4 && header[..4] == SHELL_HANDSHAKE
  }

  function PortInit(port: u16, protocol: PortProtocol): seq<byte> {
    PORT_HANDSHAKE + Be16(port) + [match protocol case Tcp => PORT_PROTOCOL_TCP]
  }

  function ShellInit(rows: u16, cols: u16): seq<byte> {
    SHELL_HANDSHAKE + Be16(rows) + Be16(cols)
  }

  method CopyFromSlice(buf: array<byte>, at: nat, slice: seq<byte>)
    requires at + |slice| <= buf.Length
    modifies buf
    ensures buf[..] == old(buf[..at]) + slice + old(buf[at + |slice|..])
  {
    for i := 0 to |slice|
      invariant buf[..] == old(buf[..at]) + slice[..i] + old(buf[at + i..])
    {
      buf[at + i] := slice[i];
    }
  }

  method BuildPortInit(port: u16, protocol: PortProtocol) returns (buf: array<byte>)
    ensures fresh(buf) && buf[..] == PortInit(port, protocol)
  {
    buf := new byte[PORT_INIT_LEN](_ => 0);
    CopyFromSlice(buf, 0, PORT_HANDSHAKE);
    CopyFromSlice(buf, 4, Be16(port));
    buf[6] := match protocol case Tcp => PORT_PROTOCOL_TCP;
  }

  method BuildShellInit(rows: u16, cols: u16) returns (buf: array<byte>)
    ensures fresh(buf) && buf[..] == ShellInit(rows, cols)
  {
    buf := new byte[SHELL_INIT_LEN](_ => 0);
    CopyFromSlice(buf, 0, SHELL_HANDSHAKE);
    CopyFromSlice(buf, 4, Be16(rows));
    CopyFromSlice(buf, 6, Be16(cols));
  }

  function ParsePortInit(bytes: seq<byte>): Option<(u16, PortProtocol)> {
    if |bytes| < PORT_INIT_LEN || !IsPortHandshake(bytes) then None
    else if bytes[6] == PORT_PROTOCOL_TCP then Some((FromBe16(bytes[4..6]), Tcp))
    else None
  }

  function ParseShellInit(bytes: seq<byte>): Option<(u16, u16)> {
    if |bytes| < SHELL_INIT_LEN || !IsShellHandshake(bytes) then None
    else Some((FromBe16(bytes[4..6]), FromBe16(bytes[6..8])))
  }

  /** The parser accepts exactly what the builder can produce, followed by anything. */
  lemma PortInitExactly(bytes: seq<byte>, port: u16, protocol: PortProtocol)
    ensures ParsePortInit(bytes) == Some((port, protocol)) <==> PortInit(port, protocol) <= bytes
  {
    Be16RoundTrip(port, if |bytes| >= 6 then bytes[4..6] else []);
    var init := PortInit(port, protocol);
    assert init[..4] == PORT_HANDSHAKE && init[4..6] == Be16(port) && init[6] == PORT_PROTOCOL_TCP;
    if ParsePortInit(bytes) == Some((port, protocol)) {
      assert bytes[..7] == bytes[..4] + bytes[4..6] + [bytes[6]];
    }
    if init <= bytes {
      assert bytes[..7] == init;
      assert bytes[..4] == init[..4] && bytes[4..6] == init[4..6] && bytes[6] == init[6];
    }
  }

  lemma ShellInitExactly(bytes: seq<byte>, rows: u16, cols: u16)
    ensures ParseShellInit(bytes) == Some((rows, cols)) <==> ShellInit(rows, cols) <= bytes
  {
    Be16RoundTrip(rows, if |bytes| >= 8 then bytes[4..6] else []);
    Be16RoundTrip(cols, if |bytes| >= 8 then bytes[6..8] else []);
    var init := ShellInit(rows, cols);
    assert init[..4] == SHELL_HANDSHAKE && init[4..6] == Be16(rows) && init[6..8] == Be16(cols);
    if ParseShellInit(bytes) == Some((rows, cols)) {
      assert bytes[..8] == bytes[..4] + bytes[4..6] + bytes[6..8];
    }
    if init <= bytes {
      assert bytes[..8] == init;
      assert bytes[..4] == init[..4] && bytes[4..6] == init[4..6] && bytes[6..8] == init[6..8];
    }
  }

  // ---------------------------------------------------------------- demultiplexing

  /** Where a stream ends up: a session gets the bytes after the handshake as its own stream. */
  datatype Outcome =
    | Port(from: DeviceId, remotePort: u16, protocol: PortProtocol, rest: seq<byte>)
    | Shell(from: DeviceId, rows: u16, cols: u16, rest: seq<byte>)
    | Feature(message: FeatureMessage)
    | Rejected

  /** What becomes of a stream that carries `bytes`, from a connection authenticated as `device`. */
  function Demux(bytes: seq<byte>, device: DeviceId, local: DeviceId, json: Serializer): Outcome {
    if |bytes| < 4 then Rejected
    else if IsPortHandshake(bytes) then
      match ParsePortInit(bytes)
      case Some((port, protocol)) => Port(device, port, protocol, bytes[PORT_INIT_LEN..])
      case None => Rejected
    else if IsShellHandshake(bytes) then
      match ParseShellInit(bytes)
      case Some((rows, cols)) => Shell(device, rows, cols, bytes[SHELL_INIT_LEN..])
      case None => Rejected
    else
      match Decode(bytes, json)
      case Some(m) => if m.to == local then Feature(m.(from := device)) else Rejected
      case None => Rejected
  }

  /** The length bound keeps every frame prefix apart from both magics. */
  lemma PrefixesDisjoint(payload: seq<byte>, rest: seq<byte>)
    requires |payload| <= MAX_MESSAGE_SIZE
    ensures !IsPortHandshake(Frame(payload) + rest) && !IsShellHandshake(Frame(payload) + rest)
  {
    var bytes := Frame(payload) + rest;
    assert bytes[0] == |payload| / 0x1_0000 / 256;
    assert bytes[0] <= 1;
    assert bytes[..4][0] != PORT_HANDSHAKE[0] && bytes[..4][0] != SHELL_HANDSHAKE[0];
  }

  /** Every port init, shell init and encoded frame reaches its own handler with what was sent; a
      message is delivered exactly when it is addressed to this device, under the connection's identity. */
  lemma EverySenderIsUnderstood(port: u16, protocol: PortProtocol, rows: u16, cols: u16, message: FeatureMessage,
                                rest: seq<byte>, device: DeviceId, local: DeviceId, json: Serializer)
    requires Faithful(json)
    ensures Demux(PortInit(port, protocol) + rest, device, local, json) == Port(device, port, protocol, rest)
    ensures Demux(ShellInit(rows, cols) + rest, device, local, json) == Shell(device, rows, cols, rest)
    ensures |json.write(message)| <= MAX_MESSAGE_SIZE ==>
              Demux(Frame(json.write(message)) + rest, device, local, json) ==
              if message.to == local then Feature(message.(from := device)) else Rejected
  {
    var portBytes := PortInit(port, protocol) + rest;
    PortInitExactly(portBytes, port, protocol);
    assert portBytes[PORT_INIT_LEN..] == rest;
    var shellBytes := ShellInit(rows, cols) + rest;
    ShellInitExactly(shellBytes, rows, cols);
    assert shellBytes[SHELL_INIT_LEN..] == rest;
    assert shellBytes[..4][2] != PORT_HANDSHAKE[2];
    if |json.write(message)| <= MAX_MESSAGE_SIZE {
      PrefixesDisjoint(json.write(message), rest);
      FrameRoundTrip(message, rest, json, 0);
    }
  }

  /** Conversely a session only ever comes from its own handshake, whose numbers it carries. */
  lemma SessionsExactly(bytes: seq<byte>, device: DeviceId, local: DeviceId, json: Serializer, port: u16,
                        protocol: PortProtocol, rows: u16, cols: u16, from: DeviceId, rest: seq<byte>)
    ensures Demux(bytes, device, local, json) == Port(from, port, protocol, rest) <==>
            from == device && bytes == PortInit(port, protocol) + rest
    ensures Demux(bytes, device, local, json) == Shell(from, rows, cols, rest) <==>
            from == device && bytes == ShellInit(rows, cols) + rest
  {
    PortInitExactly(bytes, port, protocol);
    ShellInitExactly(bytes, rows, cols);
    if PortInit(port, protocol) <= bytes {
      assert bytes == PortInit(port, protocol) + bytes[PORT_INIT_LEN..];
    }
    if ShellInit(rows, cols) <= bytes {
      assert bytes == ShellInit(rows, cols) + bytes[SHELL_INIT_LEN..];
      assert bytes[..4][2] != PORT_HANDSHAKE[2];
    }
  }

  predicate IsFrameFor(bytes: seq<byte>, n: nat, local: DeviceId, json: Serializer) {
    && n <= MAX_MESSAGE_SIZE && |bytes| >= 4 + n && bytes[..4] == Be32(n)
    && json.read(bytes[4..4 + n]).Some? && json.read(bytes[4..4 + n]).value.to == local
  }

  /** And a message only comes from a complete frame of admissible length that reads as addressed here. */
  lemma MessagesExactly(bytes: seq<byte>, n: nat, device: DeviceId, local: DeviceId, json: Serializer)
    ensures Demux(bytes, device, local, json).Feature? <==>
            |bytes| >= 4 && IsFrameFor(bytes, FromBe32(bytes[..4]), local, json)
    ensures IsFrameFor(bytes, n, local, json) ==>
              Demux(bytes, device, local, json) == Feature(json.read(bytes[4..4 + n]).value.(from := device))
  {
    if |bytes| >= 4 {
      Be32RoundTrip(0, bytes[..4]);
      var length := FromBe32(bytes[..4]);
      if length <= MAX_MESSAGE_SIZE && |bytes| >= 4 + length {
        assert bytes == Frame(bytes[4..4 + length]) + bytes[4 + length..];
        PrefixesDisjoint(bytes[4..4 + length], bytes[4 + length..]);
      }
    }
    if IsFrameFor(bytes, n, local, json) {
      Be32RoundTrip(n, []);
    }
  }

  // ---------------------------------------------------------------- reading from a stream

  /** The receive half: the bytes still to come before the stream is finished or fails. */
  class RecvStream {
    var data: seq<byte>

    constructor (data: seq<byte>)
      ensures this.data == data
    {
      this.data := data;
    }

    /** One read: some non-empty part of what is to come, or 0 at the end. */
    method Read(buf: array<byte>, offset: nat) returns (n: nat)
      requires offset < buf.Length
      modifies this, buf
      ensures n <= |old(data)| && offset + n <= buf.Length && data == old(data)[n..]
      ensures n == 0 <==> old(data) == []
      ensures buf[..] == old(buf[..offset]) + old(data)[..n] + old(buf[offset + n..])
    {
      if data == [] {
        return 0;
      }
      n :| 1 <= n <= |data| && offset + n <= buf.Length;
      CopyFromSlice(buf, offset, data[..n]);
      data := data[n..];
    }
  }

  /** Fills the buffer with the next bytes of the stream, or fails when fewer are left. */
  method ReadExact(recv: RecvStream, buf: array<byte>) returns (ok: bool)
    modifies recv, buf
    ensures ok == (|old(recv.data)| >= buf.Length)
    ensures ok ==> buf[..] == old(recv.data)[..buf.Length] && recv.data == old(recv.data)[buf.Length..]
  {
    var offset := 0;
    while offset < buf.Length
      invariant offset <= buf.Length && offset <= |old(recv.data)|
      invariant buf[..offset] == old(recv.data)[..offset]
      invariant recv.data == old(recv.data)[offset..]
    {
      var n := recv.Read(buf, offset);
      if n == 0 {
        return false;
      }
      assert buf[..offset + n] == old(recv.data)[..offset] + old(recv.data)[offset..][..n];
      offset := offset + n;
    }
    assert buf[..] == buf[..offset];
    return true;
  }

  // ---------------------------------------------------------------- the handlers

  datatype PortSession = PortSession(from: DeviceId, remotePort: u16, protocol: PortProtocol, recv: RecvStream)

  datatype ShellSession = ShellSession(from: DeviceId, rows: u16, cols: u16, recv: RecvStream)

  /** The three consumers of one device.  A consumer is open when it is registered and its receiver lives. */
  class Acceptors {
    var ports: seq<PortSession>
    var shells: seq<ShellSession>
    var inbox: seq<FeatureMessage>
    const portsOpen: bool
    const shellsOpen: bool
    const inboxOpen: bool

    constructor (portsOpen: bool, shellsOpen: bool, inboxOpen: bool)
      ensures ports == [] && shells == [] && inbox == []
    {
      ports, shells, inbox := [], [], [];
      this.portsOpen, this.shellsOpen, this.inboxOpen := portsOpen, shellsOpen, inboxOpen;
    }

    method TryAcceptPortStream(header: array<byte>, recv: RecvStream, device: DeviceId)
      requires header.Length == 4 && IsPortHandshake(header[..])
      modifies this`ports, recv
      ensures var bytes := header[..] + old(recv.data);
              var init := ParsePortInit(bytes);
              if init.Some? then
                recv.data == bytes[PORT_INIT_LEN..] &&
                ports == old(ports) + if portsOpen then [PortSession(device, init.value.0, init.value.1, recv)] else []
              else ports == old(ports)
    {
      ghost var bytes := header[..] + recv.data;
      var tail := new byte[3](_ => 0);
      var ok := ReadExact(recv, tail);
      if !ok {
        return;
      }
      var init := new byte[PORT_INIT_LEN](_ => 0);
      CopyFromSlice(init, 0, header[..]);
      CopyFromSlice(init, 4, tail[..]);
      assert init[..] == bytes[..7];
      assert bytes[..4] == init[..][..4] && bytes[4..6] == init[..][4..6] && bytes[6] == init[..][6];
      var parsed := ParsePortInit(init[..]);
      if parsed.None? {
        return;
      }
      assert recv.data == bytes[PORT_INIT_LEN..];
      if portsOpen {
        ports := ports + [PortSession(device, parsed.value.0, parsed.value.1, recv)];
      }
    }

    method TryAcceptShellStream(header: array<byte>, recv: RecvStream, device: DeviceId)
      requires header.Length == 4 && IsShellHandshake(header[..])
      modifies this`shells, recv
      ensures var bytes := header[..] + old(recv.data);
              var init := ParseShellInit(bytes);
              if init.Some? then
                recv.data == bytes[SHELL_INIT_LEN..] &&
                shells == old(shells) +
                          if shellsOpen then [ShellSession(device, init.value.0, init.value.1, recv)] else []
              else shells == old(shells)
    {
      ghost var bytes := header[..] + recv.data;
      var size := new byte[4](_ => 0);
      var ok := ReadExact(recv, size);
      if !ok {
        return;
      }
      assert bytes[..4] == header[..];
      assert size[..] == bytes[4..8];
      assert size[..2] == bytes[4..6] && size[2..] == bytes[6..8];
      var rows, cols := FromBe16(size[..2]), FromBe16(size[2..]);
      assert recv.data == bytes[SHELL_INIT_LEN..];
      if shellsOpen {
        shells := shells + [ShellSession(device, rows, cols, recv)];
      }
    }

    method HandleFeatureFrame(header: array<byte>, recv: RecvStream, device: DeviceId, local: DeviceId,
                              json: Serializer)
      requires header.Length == 4
      modifies this`inbox, recv
      ensures var decoded := Decode(header[..] + old(recv.data), json);
              inbox == old(inbox) +
              if decoded.Some? && decoded.value.to == local && inboxOpen then [decoded.value.(from := device)] else []
    {
      ghost var bytes := header[..] + recv.data;
      assert bytes[..4] == header[..];
      var length := FromBe32(header[..]);
      if length > MAX_MESSAGE_SIZE {
        return;
      }
      var payload := new byte[length](_ => 0);
      var ok := ReadExact(recv, payload);
      if !ok {
        return;
      }
      var frame := header[..];
      frame := frame + payload[..];
      assert frame[..4] == header[..] && frame[4..4 + length] == payload[..] == bytes[4..4 + length];
      match Decode(frame, json)
      case Some(message) =>
        if message.to != local {
          return;
        }
        if inboxOpen {
          inbox := inbox + [message.(from := device)];
        }
      case None =>
    }

    /** Reads a stream in whatever fragments it arrives and hands it to the handler its bytes ask for. */
    method HandleIncomingBiStream(recv: RecvStream, device: DeviceId, local: DeviceId, json: Serializer)
      modifies this, recv
      ensures var outcome := Demux(old(recv.data), device, local, json);
              && ports == old(ports) +
                          (if outcome.Port? && portsOpen then
                             [PortSession(outcome.from, outcome.remotePort, outcome.protocol, recv)]
                           else [])
              && shells == old(shells) +
                           (if outcome.Shell? && shellsOpen then
                              [ShellSession(outcome.from, outcome.rows, outcome.cols, recv)]
                            else [])
              && inbox == old(inbox) + (if outcome.Feature? && inboxOpen then [outcome.message] else [])
              && (outcome.Port? || outcome.Shell? ==> recv.data == outcome.rest)
    {
      ghost var bytes := recv.data;
      var header := new byte[4](_ => 0);
      var ok := ReadExact(recv, header);
      if !ok {
        return;
      }
      assert bytes == header[..] + recv.data;
      assert header[..][..4] == header[..];
      if IsPortHandshake(header[..]) {
        TryAcceptPortStream(header, recv, device);
        return;
      }
      if IsShellHandshake(header[..]) {
        TryAcceptShellStream(header, recv, device);
        return;
      }
      HandleFeatureFrame(header, recv, device, local, json);
    }
  }
}
