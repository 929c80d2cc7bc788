/** examples/two_nodes/stack/src/homebus.c: the packet printer and the byte-at-a-time parser. */
module Homebus {
  import opened Bytes

  const HBS_HEADER_SIZE: nat := 4
  const HBS_MAX_DATA_LEN: nat := 255

  datatype Packet = Packet(selfAddr: Byte, destAddr: Byte, operation: Byte, len: Byte, data: seq<Byte>)

  datatype HbsErr = HbsOk | HbsBadParam | HbsCbFailed | HbsTxUnregistered

  datatype RxState = WaitForSelfAddr | WaitForDestAddr | WaitForOpCode | WaitForLen | WaitForData

  // ---------------------------------------------------------------- the byte stream by itself

  /** The bytes of one packet have all arrived. */
  predicate Complete(bytes: seq<Byte>) {
    |bytes| >= HBS_HEADER_SIZE && |bytes| >= HBS_HEADER_SIZE + bytes[3]
  }

  function PacketLength(bytes: seq<Byte>): nat
    requires Complete(bytes)
  {
    HBS_HEADER_SIZE + bytes[3]
  }

  function PacketOf(bytes: seq<Byte>): Packet
    requires Complete(bytes)
  {
    Packet(bytes[0], bytes[1], bytes[2], bytes[3], bytes[HBS_HEADER_SIZE..PacketLength(bytes)])
  }

  datatype Parsed = Parsed(packets: seq<Packet>, rest: seq<Byte>)

  /** A stream is read as packets until less than a packet is left. */
  function ParseStream(stream: seq<Byte>): Parsed {
    if !Complete(stream) then Parsed([], stream)
    else
      var tail := ParseStream(stream[PacketLength(stream)..]);
      Parsed([PacketOf(stream)] + tail.packets, tail.rest)
  }

  function Serialize(self: Byte, dest: Byte, opcode: Byte, data: seq<Byte>): seq<Byte> {
    [self, dest, opcode, Truncate8(|data|)] + data
  }

  // ---------------------------------------------------------------- the parser as a machine over pending bytes

  /** What a stack has received: the bytes of the packet it is in, and what it did with the packets before. */
  datatype Stack = Stack(self: Byte, hasCb: bool, pending: seq<Byte>, delivered: seq<Packet>, unhandled: nat)

  ghost predicate Waiting(s: Stack) {
    !Complete(s.pending)
  }

  function Handle(s: Stack, p: Packet): Stack {
    if p.destAddr != s.self then s
    else if s.hasCb then s.(delivered := s.delivered + [p])
    else s.(unhandled := s.unhandled + 1)
  }

  function Receive(s: Stack, value: Byte): Stack {
    var bytes := s.pending + [value];
    if Complete(bytes) then Handle(s, PacketOf(bytes)).(pending := []) else s.(pending := bytes)
  }

  function ReceiveAll(s: Stack, bytes: seq<Byte>): Stack {
    if bytes == [] then s else Receive(ReceiveAll(s, bytes[..|bytes| - 1]), bytes[|bytes| - 1])
  }

  function AddressedTo(self: Byte, packets: seq<Packet>): seq<Packet> {
    if packets == [] then []
    else
      var last := packets[|packets| - 1];
      AddressedTo(self, packets[..|packets| - 1]) + (if last.destAddr == self then [last] else [])
  }

  /** The stack after the parsed packets, waiting on the unparsed rest. */
  function After(s: Stack, p: Parsed): Stack {
    var mine := AddressedTo(s.self, p.packets);
    if s.hasCb then s.(delivered := s.delivered + mine, pending := p.rest)
    else s.(unhandled := s.unhandled + |mine|, pending := p.rest)
  }

  // ---------------------------------------------------------------- the stack object

  class Hbs {
    var selfAddr: Byte
    var userCb: bool
    var txCb: bool
    var packetSelf: Byte
    var packetDest: Byte
    var packetOperation: Byte
    var packetLen: Byte
    const packetData: array<Byte>
    var rxState: RxState
    var dataRxed: Byte
    var unhandledPktCnt: nat
    /** Every packet given to the user callback, as rx_packet held it at the call. */
    ghost var delivered: seq<Packet>

    ghost predicate Valid()
      reads this, packetData
    {
      && packetData.Length == HBS_MAX_DATA_LEN
      && dataRxed <= HBS_MAX_DATA_LEN
      && (rxState != WaitForData ==> dataRxed == 0)
      && (rxState == WaitForData ==> dataRxed < packetLen)
    }

    /** What the callback is given: the packet the fields hold. */
    function RxPacket(): Packet
      reads this, packetData
      requires packetLen <= packetData.Length
    {
      Packet(packetSelf, packetDest, packetOperation, packetLen, packetData[..packetLen])
    }

    ghost function Pending(): seq<Byte>
      reads this, packetData
      requires Valid()
    {
      match rxState
      case WaitForSelfAddr => []
      case WaitForDestAddr => [packetSelf]
      case WaitForOpCode => [packetSelf, packetDest]
      case WaitForLen => [packetSelf, packetDest, packetOperation]
      case WaitForData => [packetSelf, packetDest, packetOperation, packetLen] + packetData[..dataRxed]
    }

    ghost function View(): Stack
      reads this, packetData
      requires Valid()
    {
      Stack(selfAddr, userCb, Pending(), delivered, unhandledPktCnt)
    }

    /** adi_hbs_Init. The source leaves user_cb as it found it, so it is a parameter here. */
    constructor (self: Byte, tx: bool, cb: bool)
      ensures Valid() && fresh(packetData)
      ensures View() == Stack(self, cb, [], [], 0)
      ensures txCb == tx
    {
      selfAddr, txCb, userCb := self, tx, cb;
      packetSelf, packetDest, packetOperation, packetLen := 0, 0, 0, 0;
      packetData := new Byte[HBS_MAX_DATA_LEN];
      rxState, dataRxed, unhandledPktCnt := WaitForSelfAddr, 0, 0;
      delivered := [];
    }

    method ResetRxingState()
      modifies `rxState, `dataRxed
      ensures rxState == WaitForSelfAddr && dataRxed == 0
    {
      rxState := WaitForSelfAddr;
      dataRxed := 0;
    }

    method RegisterRxCb()
      requires Valid()
      modifies `userCb
      ensures Valid() && View() == old(View()).(hasCb := true)
    {
      userCb := true;
    }

    /** hbs_invoke_callback. `cbOk` is what the user callback returns, if there is one. */
    method InvokeCallback(cbOk: bool) returns (err: HbsErr)
      requires packetLen <= packetData.Length
      modifies `unhandledPktCnt, `delivered
      ensures unhandledPktCnt == old(unhandledPktCnt) + (if userCb then 0 else 1)
      ensures delivered == old(delivered) + (if userCb then [RxPacket()] else [])
      ensures err == if userCb && !cbOk then HbsCbFailed else HbsOk
    {
      if !userCb {
        unhandledPktCnt := unhandledPktCnt + 1;
        return HbsOk;
      }
      delivered := delivered + [RxPacket()];
      return if cbOk then HbsOk else HbsCbFailed;
    }

    method ProcessPacket(cbOk: bool) returns (err: HbsErr)
      requires packetLen <= packetData.Length
      modifies `unhandledPktCnt, `delivered
      ensures unhandledPktCnt == old(unhandledPktCnt) + (if packetDest == selfAddr && !userCb then 1 else 0)
      ensures delivered == old(delivered) + (if packetDest == selfAddr && userCb then [RxPacket()] else [])
      ensures err == if packetDest == selfAddr && userCb && !cbOk then HbsCbFailed else HbsOk
    {
      if packetDest == selfAddr {
        err := InvokeCallback(cbOk);
        return;
      }
      return HbsOk;
    }

    method StoreByte(value: Byte)
      requires Valid() && rxState == WaitForData
      modifies packetData, `dataRxed
      ensures dataRxed == old(dataRxed) + 1
      ensures packetData[..dataRxed] == old(packetData[..dataRxed]) + [value]
    {
      packetData[dataRxed] := value;
      dataRxed := dataRxed + 1;
    }

    /** The last state of adi_hbs_Received: a payload byte, after which the packet may be complete. */
    method ReceivedData(value: Byte, cbOk: bool) returns (err: HbsErr)
      requires Valid() && rxState == WaitForData
      modifies packetData, `dataRxed, `rxState, `unhandledPktCnt, `delivered
      ensures Valid()
      ensures View() == Receive(old(View()), value)
      ensures err == if !cbOk && delivered != old(delivered) then HbsCbFailed else HbsOk
    {
      ghost var bytes := Pending() + [value];
      err := HbsOk;
      StoreByte(value);
      ghost var header := [packetSelf, packetDest, packetOperation, packetLen];
      assert bytes == header + packetData[..dataRxed];
      assert |bytes| == HBS_HEADER_SIZE + dataRxed && bytes[3] == header[3];
      if dataRxed == packetLen {
        assert bytes[HBS_HEADER_SIZE..] == packetData[..packetLen];
        assert RxPacket() == PacketOf(bytes);
        err := ProcessPacket(cbOk);
        ResetRxingState();
      }
    }

    /** adi_hbs_Received. `cbOk` is what the user callback returns, if it is called. */
    method Received(value: Byte, cbOk: bool) returns (err: HbsErr)
      requires Valid()
      modifies `packetSelf, `packetDest, `packetOperation, `packetLen, packetData
      modifies `dataRxed, `rxState, `unhandledPktCnt, `delivered
      ensures Valid()
      ensures View() == Receive(old(View()), value)
      ensures err == if !cbOk && delivered != old(delivered) then HbsCbFailed else HbsOk
    {
      ghost var bytes := Pending() + [value];
      err := HbsOk;
      match rxState {
        case WaitForSelfAddr =>
          packetSelf := value;
          rxState := WaitForDestAddr;
        case WaitForDestAddr =>
          packetDest := value;
          rxState := WaitForOpCode;
        case WaitForOpCode =>
          packetOperation := value;
          rxState := WaitForLen;
        case WaitForLen =>
          packetLen := value;
          if packetLen == 0 {
            assert RxPacket() == PacketOf(bytes);
            err := ProcessPacket(cbOk);
            ResetRxingState();
          } else {
            rxState := WaitForData;
          }
        case WaitForData =>
          err := ReceivedData(value, cbOk);
      }
    }

    /** adi_hbs_Send. `handed` is the buffer given to the transmit callback, `txResult` its answer. */
    method Send(dest: Byte, opcode: Byte, data: array?<Byte>, len: nat, txResult: HbsErr)
        returns (err: HbsErr, handed: Option<seq<Byte>>)
      requires data != null ==> len <= data.Length
      ensures err == if len != 0 && data == null then HbsBadParam else if !txCb then HbsTxUnregistered else txResult
      ensures handed == if (len != 0 && data == null) || !txCb then None
                        else Some(Serialize(selfAddr, dest, opcode, if data == null then [] else data[..len]))
    {
      if len != 0 && data == null {
        return HbsBadParam, None;
      }
      if !txCb {
        return HbsTxUnregistered, None;
      }
      var rawData := new Byte[len + HBS_HEADER_SIZE];
      rawData[0] := selfAddr;
      rawData[1] := dest;
      rawData[2] := opcode;
      rawData[3] := Truncate8(len);
      var i := 0;
      while i < len
        invariant 0 <= i <= len
        invariant rawData[..HBS_HEADER_SIZE] == [selfAddr, dest, opcode, Truncate8(len)]
        invariant i > 0 ==> data != null && rawData[HBS_HEADER_SIZE..HBS_HEADER_SIZE + i] == data[..i]
      {
        rawData[HBS_HEADER_SIZE + i] := data[i];
        i := i + 1;
      }
      assert rawData[..] == rawData[..HBS_HEADER_SIZE] + rawData[HBS_HEADER_SIZE..HBS_HEADER_SIZE + len];
      return txResult, Some(rawData[..]);
    }
  }

  // ---------------------------------------------------------------- the parser agrees with the stream parse

  /** One byte more turns the stream's rest into a longer rest, or into exactly one more packet. */
  lemma {:induction false} ParseOneMore(stream: seq<Byte>, value: Byte)
    ensures var before := ParseStream(stream);
            var bytes := before.rest + [value];
            && !Complete(before.rest)
            && ParseStream(stream + [value])
               == if Complete(bytes) then Parsed(before.packets + [PacketOf(bytes)], [])
                  else Parsed(before.packets, bytes)
    decreases |stream|
  {
    var longer := stream + [value];
    if !Complete(stream) {
      if Complete(longer) {
        assert longer[PacketLength(longer)..] == [];
      }
    } else {
      var n := PacketLength(stream);
      assert longer[n..] == stream[n..] + [value];
      assert PacketOf(longer) == PacketOf(stream);
      ParseOneMore(stream[n..], value);
    }
  }

  lemma OnePacketMore(s: Stack, packets: seq<Packet>, rest: seq<Byte>, p: Packet)
    ensures After(s, Parsed(packets + [p], [])) == Handle(After(s, Parsed(packets, rest)), p).(pending := [])
  {
    assert (packets + [p])[..|packets|] == packets;
    var mine := AddressedTo(s.self, packets);
    assert s.delivered + (mine + [p]) == (s.delivered + mine) + [p];
    assert mine + [] == mine;
  }

  lemma ReceiveOneMore(s: Stack, stream: seq<Byte>, value: Byte)
    ensures Receive(After(s, ParseStream(stream)), value) == After(s, ParseStream(stream + [value]))
  {
    var before := ParseStream(stream);
    var bytes := before.rest + [value];
    ParseOneMore(stream, value);
    if Complete(bytes) {
      OnePacketMore(s, before.packets, before.rest, PacketOf(bytes));
    }
  }

  lemma NothingReceived(s: Stack)
    requires Waiting(s)
    ensures After(s, ParseStream(s.pending)) == s
  {
    assert s.delivered + [] == s.delivered;
  }

  /**
   * Feeding any byte stream through the parser is parsing it into complete packets and a partial tail:
   * every complete packet addressed to the node is handled once, in order, and the tail is what the
   * parser is waiting on.
   */
  lemma {:induction false} ParserIsStreamParse(s: Stack, stream: seq<Byte>)
    requires Waiting(s)
    ensures ReceiveAll(s, stream) == After(s, ParseStream(s.pending + stream))
  {
    if stream == [] {
      assert s.pending + stream == s.pending;
      NothingReceived(s);
    } else {
      var (front, value) := (stream[..|stream| - 1], stream[|stream| - 1]);
      assert s.pending + stream == (s.pending + front) + [value];
      ParserIsStreamParse(s, front);
      ReceiveOneMore(s, s.pending + front, value);
    }
  }

  // ---------------------------------------------------------------- printing and parsing

  function SentPacket(self: Byte, dest: Byte, opcode: Byte, data: seq<Byte>): Packet {
    Packet(self, dest, opcode, Truncate8(|data|), data)
  }

  lemma HeaderThenBody(header: seq<Byte>, body: seq<Byte>)
    requires |header| == HBS_HEADER_SIZE && header[3] <= |body|
    ensures var n := header[3];
            var p := ParseStream(body[n..]);
            ParseStream(header + body)
            == Parsed([Packet(header[0], header[1], header[2], n, body[..n])] + p.packets, p.rest)
  {
    var (n, stream) := (header[3], header + body);
    assert stream[3] == n;
    assert stream[HBS_HEADER_SIZE..HBS_HEADER_SIZE + n] == body[..n];
    assert stream[HBS_HEADER_SIZE + n..] == body[n..];
  }

  /**
   * What a receiver makes of a sent payload of any length: the first packet carries the first
   * L mod 256 bytes, and the rest of the payload is read as a new stream.
   */
  lemma ParseSerialized(self: Byte, dest: Byte, opcode: Byte, data: seq<Byte>, tail: seq<Byte>)
    ensures var kept := |data| % 256;
            var p := ParseStream(data[kept..] + tail);
            ParseStream(Serialize(self, dest, opcode, data) + tail)
            == Parsed([Packet(self, dest, opcode, Truncate8(|data|), data[..kept])] + p.packets, p.rest)
  {
    var kept := |data| % 256;
    var header: seq<Byte> := [self, dest, opcode, Truncate8(|data|)];
    HeaderThenBody(header, data + tail);
    assert Serialize(self, dest, opcode, data) + tail == header + (data + tail);
    assert (data + tail)[..kept] == data[..kept];
    assert (data + tail)[kept..] == data[kept..] + tail;
  }

  lemma {:induction false} NonEmptyStreamIsNotLost(stream: seq<Byte>)
    requires stream != []
    ensures ParseStream(stream).packets != [] || ParseStream(stream).rest != []
  {}

  /** A sent packet comes back as that one packet with nothing left over exactly when its length fits a byte. */
  lemma RoundTripExactlyWhenLengthFits(self: Byte, dest: Byte, opcode: Byte, data: seq<Byte>)
    ensures ParseStream(Serialize(self, dest, opcode, data)) == Parsed([SentPacket(self, dest, opcode, data)], [])
        <==> |data| <= HBS_MAX_DATA_LEN
  {
    var kept := |data| % 256;
    ParseSerialized(self, dest, opcode, data, []);
    assert Serialize(self, dest, opcode, data) + [] == Serialize(self, dest, opcode, data);
    assert data[kept..] + [] == data[kept..];
    if |data| <= HBS_MAX_DATA_LEN {
      assert data[..kept] == data && data[kept..] == [];
    } else {
      NonEmptyStreamIsNotLost(data[kept..]);
    }
  }

  // ---------------------------------------------------------------- streams of packets

  predicate Sendable(p: Packet) {
    p.len == |p.data|
  }

  function Wire(p: Packet): seq<Byte> {
    [p.selfAddr, p.destAddr, p.operation, p.len] + p.data
  }

  function WireAll(packets: seq<Packet>): seq<Byte> {
    if packets == [] then [] else Wire(packets[0]) + WireAll(packets[1..])
  }

  lemma WireOfSent(self: Byte, dest: Byte, opcode: Byte, data: seq<Byte>)
    ensures Serialize(self, dest, opcode, data) == Wire(SentPacket(self, dest, opcode, data))
    ensures Sendable(SentPacket(self, dest, opcode, data)) <==> |data| <= HBS_MAX_DATA_LEN
  {}

  lemma {:induction false} WireAllAppend(packets: seq<Packet>, p: Packet)
    ensures WireAll(packets + [p]) == WireAll(packets) + Wire(p)
  {
    if packets == [] {
      assert [p][1..] == [];
    } else {
      assert (packets + [p])[1..] == packets[1..] + [p];
      WireAllAppend(packets[1..], p);
    }
  }

  lemma PacketThenStream(p: Packet, tail: seq<Byte>)
    requires Sendable(p)
    ensures var rest := ParseStream(tail);
            ParseStream(Wire(p) + tail) == Parsed([p] + rest.packets, rest.rest)
  {
    var header := [p.selfAddr, p.destAddr, p.operation, p.len];
    HeaderThenBody(header, p.data + tail);
    assert Wire(p) + tail == header + (p.data + tail);
    assert (p.data + tail)[..p.len] == p.data && (p.data + tail)[p.len..] == tail;
  }

  /** Packets sent one after the other are read back as those packets, with nothing left over. */
  lemma {:induction false} StreamOfPackets(packets: seq<Packet>)
    requires forall p <- packets :: Sendable(p)
    ensures ParseStream(WireAll(packets)) == Parsed(packets, [])
  {
    if packets != [] {
      StreamOfPackets(packets[1..]);
      PacketThenStream(packets[0], WireAll(packets[1..]));
    }
  }

  lemma FirstPacketRebuilt(stream: seq<Byte>)
    requires Complete(stream)
    ensures Wire(PacketOf(stream)) == stream[..PacketLength(stream)] && Sendable(PacketOf(stream))
  {
    assert stream[..HBS_HEADER_SIZE] == [stream[0], stream[1], stream[2], stream[3]];
    assert stream[..PacketLength(stream)] == stream[..HBS_HEADER_SIZE] + stream[HBS_HEADER_SIZE..PacketLength(stream)];
  }

  /** Printing what was parsed, and appending the rest, gives the stream back: every byte is accounted for. */
  lemma {:induction false} StreamIsRebuilt(stream: seq<Byte>)
    ensures var p := ParseStream(stream); WireAll(p.packets) + p.rest == stream
  {
    if Complete(stream) {
      var n := PacketLength(stream);
      var tail := ParseStream(stream[n..]);
      FirstPacketRebuilt(stream);
      StreamIsRebuilt(stream[n..]);
      assert ([PacketOf(stream)] + tail.packets)[1..] == tail.packets;
      assert Wire(PacketOf(stream)) + WireAll(tail.packets) + tail.rest
          == Wire(PacketOf(stream)) + (WireAll(tail.packets) + tail.rest);
      assert stream[..n] + stream[n..] == stream;
    }
  }

  lemma ParsedOneMorePrefix(stream: seq<Byte>, value: Byte)
    ensures ParseStream(stream).packets <= ParseStream(stream + [value]).packets
  {
    ParseOneMore(stream, value);
  }

  /** A longer stream keeps the packets already read. */
  lemma {:induction false} ParsedPrefix(stream: seq<Byte>, more: seq<Byte>)
    ensures ParseStream(stream).packets <= ParseStream(stream + more).packets
    decreases |more|
  {
    if more == [] {
      assert stream + more == stream;
    } else {
      ParsedOneMorePrefix(stream, more[0]);
      ParsedPrefix(stream + [more[0]], more[1..]);
      assert stream + [more[0]] + more[1..] == stream + more;
    }
  }

  lemma {:induction false} AddressedPrefix(self: Byte, a: seq<Packet>, b: seq<Packet>)
    requires a <= b
    ensures AddressedTo(self, a) <= AddressedTo(self, b)
    decreases |b|
  {
    if |a| < |b| {
      AddressedPrefix(self, a, b[..|b| - 1]);
    } else {
      assert a == b;
    }
  }
}
