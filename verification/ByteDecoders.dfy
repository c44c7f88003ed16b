/**
 * The firmware's byte-at-a-time link decoders. Each is specified by a step on the bytes it holds; the classes keep
 * those bytes in a fixed buffer.
 */
module ByteDecoders {
  import opened Bits
  import opened Crc
  import opened CalibrationRecord
  import opened LinkFrame
  import opened LinkCodecs

  const ML_FRAME_SIZE: nat := 28
  const SENSOR_FRAME_SIZE: nat := 22
  const STATUS_FRAME_SIZE: nat := 18

  datatype Message =
    | MlMessage(ml: Stamped<Observation>)
    | SensorMessage(sensor: Stamped<Sensor>)
    | StatusMessage(status: Stamped<Status>)

  datatype Event = Silent | Delivered(message: Message) | Rejected

  datatype Step = Step(held: seq<byte>, event: Event)

  /** Which decoder: one message type, or the two that the FPGA sends. */
  datatype Profile = OnlyMl | OnlySensor | Fpga

  /** The payload size a decoder demands for a message type; None when it does not take that type. */
  function PayloadFor(p: Profile, messageType: byte): (n: Option<nat>)
    ensures n.Some? ==> 4 <= n.value <= 14
  {
    if p == OnlyMl && messageType == ML_OBSERVATION then Some(ML_PAYLOAD)
    else if (p == OnlySensor || p == Fpga) && messageType == SENSOR_SNAPSHOT then Some(SENSOR_PAYLOAD)
    else if p == Fpga && messageType == LinkFrame.STATUS then Some(STATUS_PAYLOAD)
    else None
  }

  function Capacity(p: Profile): nat
  {
    if p == OnlyMl then ML_FRAME_SIZE else SENSOR_FRAME_SIZE
  }

  /** The message parser that a decoder runs on a complete frame of this type. */
  function ParseMessage(messageType: byte, data: seq<byte>): Parsed<Message>
  {
    if messageType == ML_OBSERVATION then
      match ParseMl(data)
      case Accepted(m) => Accepted(MlMessage(m))
      case Refused(status) => Refused(status)
    else if messageType == SENSOR_SNAPSHOT then
      match ParseSensor(data)
      case Accepted(m) => Accepted(SensorMessage(m))
      case Refused(status) => Refused(status)
    else if messageType == LinkFrame.STATUS then
      match ParseStatusFrame(data)
      case Accepted(m) => Accepted(StatusMessage(m))
      case Refused(status) => Refused(status)
    else Refused(BadType)
  }

  // One step.

  function Restart(b: byte): seq<byte>
  {
    if b == SOF0 then [b] else []
  }

  /** What a decoder may hold between two bytes: an unfinished frame whose header is right so far. */
  predicate InFlight(p: Profile, held: seq<byte>)
  {
    && (|held| >= 1 ==> held[0] == SOF0)
    && (|held| >= 2 ==> held[1] == SOF1)
    && (|held| >= 3 ==> held[2] == PROTOCOL_VERSION)
    && (|held| >= 4 ==>
          var n := PayloadFor(p, held[3]);
          n.Some? && |held| < HEADER_SIZE + n.value + CRC_SIZE && (|held| >= 8 ==> held[6] == n.value && held[7] == 0))
  }

  /** The header check that falls due when h has just reached this length fails. */
  predicate Refuses(p: Profile, h: seq<byte>)
  {
    || (|h| == 3 && h[2] != PROTOCOL_VERSION)
    || (|h| == 4 && PayloadFor(p, h[3]) == None)
    || (|h| == 8 && !(PayloadFor(p, h[3]) == Some(h[6]) && h[7] == 0))
  }

  predicate Complete(p: Profile, h: seq<byte>)
  {
    |h| >= 4 && PayloadFor(p, h[3]).Some? && |h| == HEADER_SIZE + PayloadFor(p, h[3]).value + CRC_SIZE
  }

  function Push(p: Profile, held: seq<byte>, b: byte): Step
  {
    if held == [] then Step(Restart(b), Silent)
    else if |held| == 1 then Step(if b == SOF1 then held + [b] else Restart(b), Silent)
    else
      var h := held + [b];
      if Refuses(p, h) then Step(Restart(b), Rejected)
      else if !Complete(p, h) then Step(h, Silent)
      else
        match ParseMessage(h[3], h)
        case Accepted(m) => Step([], Delivered(m))
        case Refused(_) => Step([], Rejected)
  }

  /** The state stays an unfinished frame that fits the buffer with room for one more byte. */
  lemma PushInFlight(p: Profile, held: seq<byte>, b: byte)
    requires InFlight(p, held)
    ensures InFlight(p, Push(p, held, b).held) && |Push(p, held, b).held| < Capacity(p)
  {
    hide ParseMessage;
    var h := held + [b];
    if |held| >= 2 && !Refuses(p, h) && !Complete(p, h) { StillInFlight(p, held, b); }
  }

  lemma StillInFlight(p: Profile, held: seq<byte>, b: byte)
    requires InFlight(p, held) && |held| >= 2 && !Refuses(p, held + [b]) && !Complete(p, held + [b])
    ensures InFlight(p, held + [b]) && |held| + 1 < Capacity(p)
  {
    var h := held + [b];
    assert forall i :: 0 <= i < |held| ==> h[i] == held[i];
  }

  // Runs.

  /** The state and last event after feeding an input to a fresh decoder. */
  function Run(p: Profile, input: seq<byte>): Step
  {
    if input == [] then Step([], Silent) else Push(p, Run(p, input[..|input| - 1]).held, input[|input| - 1])
  }

  predicate Suffix(t: seq<byte>, s: seq<byte>)
  {
    |t| <= |s| && s[|s| - |t|..] == t
  }

  lemma PushSuffix(p: Profile, held: seq<byte>, b: byte)
    ensures Suffix(Push(p, held, b).held, held + [b])
  {
    hide ParseMessage, Refuses, Complete;
  }

  lemma SuffixTrans(t: seq<byte>, s: seq<byte>, r: seq<byte>)
    requires Suffix(t, s) && Suffix(s, r)
    ensures Suffix(t, r)
  {
    assert r[|r| - |t|..] == r[|r| - |s|..][|s| - |t|..];
  }

  /** After any input the held bytes are exactly the last bytes of the input, and an unfinished frame. */
  lemma {:induction false} HeldIsRecent(p: Profile, input: seq<byte>)
    ensures
      var held := Run(p, input).held;
      Suffix(held, input) && InFlight(p, held) && |held| < Capacity(p)
  {
    hide Push, InFlight;
    if input == [] {
      assert InFlight(p, []) by { EmptyInFlight(p); }
    } else {
      var front, b := input[..|input| - 1], input[|input| - 1];
      HeldIsRecent(p, front);
      var held := Run(p, front).held;
      PushInFlight(p, held, b);
      PushSuffix(p, held, b);
      assert input == front + [b];
      AppendSuffix(held, front, b);
      SuffixTrans(Push(p, held, b).held, held + [b], input);
    }
  }

  lemma EmptyInFlight(p: Profile)
    ensures InFlight(p, [])
  {}

  lemma AppendSuffix(t: seq<byte>, s: seq<byte>, b: byte)
    requires Suffix(t, s)
    ensures Suffix(t + [b], s + [b])
  {
    assert (s + [b])[|s| - |t|..] == s[|s| - |t|..] + [b];
  }

  /** data is a whole frame of a type the decoder takes, and its message is m. */
  predicate ValidFrame(p: Profile, data: seq<byte>, m: Message)
  {
    && |data| >= HEADER_SIZE && PayloadFor(p, data[3]).Some?
    && ParseMessage(data[3], data) == Accepted(m)
  }

  /** A message is delivered only for a valid frame formed by the most recent bytes of the input. */
  lemma DeliveredIsRecent(p: Profile, input: seq<byte>)
    requires Run(p, input).event.Delivered?
    ensures
      exists data :: Suffix(data, input) && ValidFrame(p, data, Run(p, input).event.message)
  {
    hide Run, InFlight, ValidFrame, Push, Suffix;
    LastStep(p, input);
    var front, b := input[..|input| - 1], input[|input| - 1];
    HeldIsRecent(p, front);
    var held := Run(p, front).held;
    assert input == front + [b];
    AppendSuffix(held, front, b);
    DeliveredIsHeld(p, held, b);
    assert ValidFrame(p, held + [b], Run(p, input).event.message);
  }

  lemma DeliveredIsHeld(p: Profile, held: seq<byte>, b: byte)
    requires Push(p, held, b).event.Delivered?
    ensures ValidFrame(p, held + [b], Push(p, held, b).event.message)
  {
    hide ParseMessage;
  }

  predicate Framed(p: Profile, data: seq<byte>)
  {
    && |data| >= HEADER_SIZE && PayloadFor(p, data[3]).Some?
    && var n := PayloadFor(p, data[3]).value;
       && |data| == HEADER_SIZE + n + CRC_SIZE && data[0] == SOF0 && data[1] == SOF1 && data[2] == PROTOCOL_VERSION
       && data[6] == n && data[7] == 0
  }

  /** What every valid frame shows, whatever its type. */
  lemma ValidFrameShape(p: Profile, data: seq<byte>, m: Message)
    requires ValidFrame(p, data, m)
    ensures Framed(p, data)
  {
    var n := PayloadFor(p, data[3]).value;
    assert ValidateCommon(data, data[3], n) == Ok;
    hide ParseMessage, Crc16;
    assert data[6..8] == [data[6], data[7]];
    SmallWord(data[6], data[7]);
  }

  lemma SmallWord(lo: byte, hi: byte)
    ensures FromLe([lo, hi]) == lo + 256 * hi
  {
    assert [lo, hi][1..] == [hi];
    assert FromLe([hi]) == hi;
  }

  /** The messages delivered so far. */
  function Outputs(p: Profile, input: seq<byte>): seq<Message>
  {
    if input == [] then []
    else
      var event := Run(p, input).event;
      Outputs(p, input[..|input| - 1]) + if event.Delivered? then [event.message] else []
  }

  /** One more byte. */
  lemma OneMore(p: Profile, input: seq<byte>, b: byte)
    ensures Run(p, input + [b]) == Push(p, Run(p, input).held, b)
    ensures
      var event := Run(p, input + [b]).event;
      Outputs(p, input + [b]) == Outputs(p, input) + if event.Delivered? then [event.message] else []
  {
    hide Push;
    assert (input + [b])[..|input|] == input;
  }

  /** A start byte pushed now would begin a frame. */
  predicate Starts(p: Profile, s: seq<byte>)
  {
    Run(p, s + [SOF0]).held == [SOF0]
  }

  /**
   * A start byte begins a frame except in the middle of one: it does while the marker, the version or the type is still
   * due, also right after another start byte, and where the high byte of the length is due; nowhere else.
   */
  lemma StartsIff(p: Profile, s: seq<byte>)
    ensures Starts(p, s) <==> |Run(p, s).held| <= 3 || |Run(p, s).held| == 7
  {
    hide Run, ParseMessage;
    HeldIsRecent(p, s);
    OneMore(p, s, SOF0);
  }

  lemma StartIsSilent(p: Profile, s: seq<byte>)
    requires Starts(p, s)
    ensures Outputs(p, s + [SOF0]) == Outputs(p, s)
  {
    hide Run, ParseMessage;
    OneMore(p, s, SOF0);
    assert Outputs(p, s) + [] == Outputs(p, s);
  }

  /** From its start byte on a decoder takes a valid frame byte by byte, in silence, until its last byte. */
  lemma {:induction false} FrameBuildsUp(p: Profile, s: seq<byte>, data: seq<byte>, m: Message, k: nat)
    requires ValidFrame(p, data, m) && 1 <= k < |data| && Starts(p, s)
    ensures Run(p, s + data[..k]).held == data[..k] && Outputs(p, s + data[..k]) == Outputs(p, s)
  {
    hide ValidFrame, Push, Run, Outputs;
    ValidFrameShape(p, data, m);
    if k == 1 {
      assert data[..1] == [SOF0];
      StartIsSilent(p, s);
    } else {
      FrameBuildsUp(p, s, data, m, k - 1);
      PushGrows(p, data, k);
      var before := s + data[..k - 1];
      OneMore(p, before, data[k - 1]);
      assert s + data[..k] == before + [data[k - 1]];
      assert Outputs(p, before) + [] == Outputs(p, before);
    }
  }

  lemma PushGrows(p: Profile, data: seq<byte>, k: nat)
    requires 0 < k < |data| && Framed(p, data)
    ensures Push(p, data[..k - 1], data[k - 1]) == Step(data[..k], Silent)
  {
    hide ParseMessage, PayloadFor;
    assert data[..k - 1] + [data[k - 1]] == data[..k];
  }

  /**
   * A valid frame whose start byte begins a frame is delivered at precisely its last byte, and leaves nothing held: the
   * frames of a clean stream come out one by one, stray start bytes before them included.
   */
  lemma FrameDelivered(p: Profile, s: seq<byte>, data: seq<byte>, m: Message)
    requires ValidFrame(p, data, m) && Starts(p, s)
    ensures Run(p, s + data) == Step([], Delivered(m)) && Outputs(p, s + data) == Outputs(p, s) + [m]
  {
    hide ParseMessage, Run, Framed, Push, Outputs, Starts;
    var k := |data| - 1;
    FrameBuildsUp(p, s, data, m, k);
    ValidFrameShape(p, data, m);
    PushCompletes(p, data, m);
    OneMore(p, s + data[..k], data[k]);
    assert s + data == s + data[..k] + [data[k]];
  }

  lemma PushCompletes(p: Profile, data: seq<byte>, m: Message)
    requires Framed(p, data) && ParseMessage(data[3], data) == Accepted(m)
    ensures Push(p, data[..|data| - 1], data[|data| - 1]) == Step([], Delivered(m))
  {
    hide ParseMessage, PayloadFor;
    assert data[..|data| - 1] + [data[|data| - 1]] == data;
  }

  /** h is the start of something with the shape of a frame that the decoder takes. */
  ghost predicate Begins(p: Profile, h: seq<byte>)
  {
    exists data :: Framed(p, data) && h <= data
  }

  /** An unfinished frame made whole with zeros. */
  function Completion(p: Profile, h: seq<byte>): seq<byte>
    requires InFlight(p, h) && |h| >= 3 && |h| != 7
  {
    var kind := if |h| >= 4 then h[3] else if p == OnlyMl then ML_OBSERVATION else SENSOR_SNAPSHOT;
    var n := PayloadFor(p, kind).value;
    var front := if |h| >= 4 then h else h + [kind];
    var word := if |front| >= 6 then [] else Zeroes(6 - |front|);
    var header := front + word;
    var sized := if |header| == 6 then header + [n, 0] else header;
    sized + Zeroes(HEADER_SIZE + n + CRC_SIZE - |sized|)
  }

  function Zeroes(n: nat): (z: seq<byte>)
    ensures |z| == n
  {
    seq(n, _ => 0)
  }

  lemma CompletionIsFramed(p: Profile, h: seq<byte>)
    requires InFlight(p, h) && |h| >= 3 && |h| != 7
    ensures Framed(p, Completion(p, h)) && h <= Completion(p, h)
  {}

  /** The header checks refuse exactly what no frame begins with. */
  lemma RefusesIff(p: Profile, held: seq<byte>, b: byte)
    requires InFlight(p, held) && |held| >= 2 && |held| != 6
    ensures Refuses(p, held + [b]) <==> !Begins(p, held + [b])
    ensures Framed(p, held + [b]) <==> !Refuses(p, held + [b]) && Complete(p, held + [b])
  {
    var h := held + [b];
    if Begins(p, h) {
      var data :| Framed(p, data) && h <= data;
      assert forall i :: 0 <= i < |h| ==> h[i] == data[i];
    }
    if !Refuses(p, h) {
      if Complete(p, h) {
        assert Framed(p, h) && h <= h;
      } else {
        StillInFlight(p, held, b);
        CompletionIsFramed(p, h);
      }
    }
  }

  lemma SeventhByte(p: Profile, held: seq<byte>, b: byte)
    requires InFlight(p, held) && |held| == 6
    ensures Push(p, held, b).event == Silent
  {
    hide ParseMessage;
  }

  /**
   * A rejection is counted exactly when, behind a whole start marker, the bytes stop being the start of any frame the
   * decoder takes, or are a whole one whose checksum or contents are wrong. The low byte of the length is judged only
   * together with the high one, at the eighth byte.
   */
  lemma RejectedIff(p: Profile, s: seq<byte>, b: byte)
    ensures
      var h := Run(p, s).held + [b];
      Run(p, s + [b]).event == Rejected <==>
        |h| >= 3 && |h| != 7 && (!Begins(p, h) || (Framed(p, h) && ParseMessage(h[3], h).Refused?))
  {
    hide ParseMessage, Run, Begins, Framed, Refuses, Complete;
    HeldIsRecent(p, s);
    OneMore(p, s, b);
    if |Run(p, s).held| == 6 {
      SeventhByte(p, Run(p, s).held, b);
    } else if |Run(p, s).held| >= 2 {
      RefusesIff(p, Run(p, s).held, b);
    }
  }

  lemma LastStep(p: Profile, input: seq<byte>)
    ensures input == [] ==> Run(p, input) == Step([], Silent)
    ensures input != [] ==> Run(p, input) == Push(p, Run(p, input[..|input| - 1]).held, input[|input| - 1])
  {}

  /** In particular every ML frame the host can encode reaches the firmware's ML decoder. */
  lemma HostMlFrameDelivered(s: seq<byte>, o: HostObservation, sequence: int, timestamp: int)
    requires HostEncodeMl(o, sequence, timestamp).Some? && Starts(OnlyMl, s)
    ensures
      var data := HostEncodeMl(o, sequence, timestamp).value;
      Run(OnlyMl, s + data) == Step([], Delivered(MlMessage(Stamped(sequence, timestamp, ToWire(o)))))
  {
    hide Run, ToWire, ParseMl, Bytes, HostSendable, Starts;
    HostFrameParses(o, sequence, timestamp);
    var data := HostEncodeMl(o, sequence, timestamp).value;
    MlType(ToWire(o), sequence, timestamp);
    FrameDelivered(OnlyMl, s, data, MlMessage(Stamped(sequence, timestamp, ToWire(o))));
  }

  lemma MlType(w: Observation, sequence: u16, timestamp: u32)
    ensures MlBytes(w, sequence, timestamp)[3] == ML_OBSERVATION
  {}

  // The decoders as objects.

  /** The decoder's counters are 32-bit words. */
  function Counted(n: u32): u32
  {
    (n + 1) % 0x1_0000_0000
  }

  method Clear(buffer: array<byte>)
    modifies buffer
  {
    for i := 0 to buffer.Length {
      buffer[i] := 0;
    }
  }

  /** The decoder for a single message type. */
  class FixedStreamDecoder {
    const profile: Profile
    const buffer: array<byte>
    var size: nat
    var acceptedFrames: u32
    var rejectedFrames: u32
    ghost var history: seq<byte>

    /** The held bytes are what the run over the history since the last reset holds. */
    ghost predicate Valid()
      reads this, buffer
    {
      && profile != Fpga && buffer.Length == Capacity(profile)
      && size < buffer.Length && buffer[..size] == Run(profile, history).held
    }

    constructor (profile: Profile)
      requires profile != Fpga
      ensures Valid() && history == [] && fresh(buffer) && this.profile == profile
      ensures acceptedFrames == 0 && rejectedFrames == 0
    {
      this.profile := profile;
      buffer := new byte[Capacity(profile)](_ => 0);
      size := 0;
      acceptedFrames, rejectedFrames := 0, 0;
      history := [];
    }

    method Reset()
      requires Valid()
      modifies this, buffer
      ensures Valid() && history == [] && size == 0
      ensures acceptedFrames == old(acceptedFrames) && rejectedFrames == old(rejectedFrames)
    {
      size := 0;
      history := [];
      Clear(buffer);
    }

    method RestartFrom(b: byte)
      requires buffer.Length > 0
      modifies this`size, buffer
      ensures size <= 1 && buffer[..size] == Restart(b)
    {
      size := 0;
      if b == SOF0 {
        buffer[0] := b;
        size := 1;
      }
    }

    /** True when the byte was used up in the search for the start marker. */
    method PushPrefix(b: byte) returns (taken: bool)
      requires buffer.Length >= 14 && size < buffer.Length
      modifies this`size, buffer
      ensures taken == (old(size) < 2)
      ensures taken ==> size < buffer.Length && buffer[..size] == Push(profile, old(buffer[..size]), b).held
      ensures !taken ==> size == old(size) && buffer[..] == old(buffer[..])
    {
      hide ParseMessage;
      taken := size < 2;
      if size == 0 {
        if b == SOF0 {
          buffer[0] := b;
          size := 1;
        }
      } else if size == 1 {
        if b == SOF1 {
          buffer[1] := b;
          size := 2;
        } else if b == SOF0 {
          buffer[0] := b;
          size := 1;
        } else {
          size := 0;
        }
      }
    }

    method PushByte(b: byte) returns (event: Event)
      requires Valid()
      modifies this, buffer
      ensures Valid() && history == old(history) + [b]
      ensures event == Run(profile, history).event
      ensures acceptedFrames == if event.Delivered? then Counted(old(acceptedFrames)) else old(acceptedFrames)
      ensures rejectedFrames == if event.Rejected? then Counted(old(rejectedFrames)) else old(rejectedFrames)
    {
      hide ParseMessage, Run, InFlight, Push, Suffix;
      ghost var was, before := buffer[..size], history;
      history := history + [b];
      assert history[..|history| - 1] == before;
      LastStep(profile, history);
      HeldIsRecent(profile, before);
      HeldIsRecent(profile, history);
      PrefixSilent(profile, was, b);
      var taken := PushPrefix(b);
      if taken { return Silent; }
      assert buffer[..size] == was;
      event := Extend(b);
    }

    /** The bytes after the start marker. */
    method Extend(b: byte) returns (event: Event)
      requires profile != Fpga && buffer.Length == Capacity(profile) && 2 <= size < buffer.Length
      requires InFlight(profile, buffer[..size])
      modifies this`size, this`acceptedFrames, this`rejectedFrames, buffer
      ensures size <= buffer.Length && Step(buffer[..size], event) == Push(profile, old(buffer[..size]), b)
      ensures acceptedFrames == if event.Delivered? then Counted(old(acceptedFrames)) else old(acceptedFrames)
      ensures rejectedFrames == if event.Rejected? then Counted(old(rejectedFrames)) else old(rejectedFrames)
    {
      hide ParseMessage, InFlight, Refuses, Complete, PayloadFor;
      ghost var h := buffer[..size] + [b];
      HeaderOfOne(profile, buffer[..size], b);
      buffer[size] := b;
      size := size + 1;
      assert buffer[..size] == h;
      var messageType := if profile == OnlyMl then ML_OBSERVATION else SENSOR_SNAPSHOT;
      var payloadSize := if profile == OnlyMl then ML_PAYLOAD else SENSOR_PAYLOAD;
      if (size == 3 && buffer[2] != PROTOCOL_VERSION) || (size == 4 && buffer[3] != messageType)
         || (size == 8 && (buffer[6] != payloadSize || buffer[7] != 0)) {
        rejectedFrames := Counted(rejectedFrames);
        RestartFrom(b);
        return Rejected;
      }
      if size < buffer.Length { return Silent; }
      var parsed := ParseMessage(messageType, buffer[..]);
      assert buffer[..] == h;
      size := 0;
      if parsed.Accepted? {
        acceptedFrames := Counted(acceptedFrames);
        return Delivered(parsed.value);
      }
      rejectedFrames := Counted(rejectedFrames);
      event := Rejected;
    }
  }

  lemma PrefixSilent(p: Profile, held: seq<byte>, b: byte)
    ensures |held| < 2 ==> Push(p, held, b).event == Silent
  {}

  /** The header checks and the frame size of a decoder with a single message type. */
  lemma HeaderOfOne(p: Profile, held: seq<byte>, b: byte)
    requires p != Fpga && InFlight(p, held) && 2 <= |held| < Capacity(p)
    ensures
      var h := held + [b];
      var messageType := if p == OnlyMl then ML_OBSERVATION else SENSOR_SNAPSHOT;
      var payloadSize := if p == OnlyMl then ML_PAYLOAD else SENSOR_PAYLOAD;
      && (Refuses(p, h) <==>
            || (|h| == 3 && h[2] != PROTOCOL_VERSION) || (|h| == 4 && h[3] != messageType)
            || (|h| == 8 && (h[6] != payloadSize || h[7] != 0)))
      && (!Refuses(p, h) ==> (Complete(p, h) <==> |h| == Capacity(p)))
      && (|h| >= 5 ==> h[3] == messageType)
  {}

  /** The decoder for the two message types of the FPGA, which learns the frame size from the type byte. */
  class FpgaStreamDecoder {
    const buffer: array<byte>
    var size: nat
    var expectedSize: nat
    var messageType: byte
    var acceptedFrames: u32
    var rejectedFrames: u32
    ghost var history: seq<byte>

    ghost predicate Valid()
      reads this, buffer
    {
      && buffer.Length == Capacity(Fpga) && size < buffer.Length && buffer[..size] == Run(Fpga, history).held
      && (if size < 4 then expectedSize == 0 else Announced(buffer[3], messageType, expectedSize))
    }

    constructor ()
      ensures Valid() && history == [] && fresh(buffer) && acceptedFrames == 0 && rejectedFrames == 0
    {
      buffer := new byte[Capacity(Fpga)](_ => 0);
      size, expectedSize, messageType := 0, 0, 0;
      acceptedFrames, rejectedFrames := 0, 0;
      history := [];
    }

    method Reset()
      requires buffer.Length == Capacity(Fpga)
      modifies this, buffer
      ensures Valid() && history == [] && size == 0
      ensures acceptedFrames == old(acceptedFrames) && rejectedFrames == old(rejectedFrames)
    {
      size, expectedSize, messageType := 0, 0, 0;
      history := [];
      Clear(buffer);
    }

    method RestartFrom(b: byte)
      requires buffer.Length > 0
      modifies this`size, this`expectedSize, this`messageType, buffer
      ensures size <= 1 && buffer[..size] == Restart(b) && expectedSize == 0
    {
      size := 0;
      if b == SOF0 {
        buffer[0] := b;
        size := 1;
      }
      expectedSize, messageType := 0, 0;
    }

    /** The guard against a full buffer in the firmware never fires: one more byte always fits. */
    method PushByte(b: byte) returns (event: Event)
      requires Valid()
      modifies this, buffer
      ensures Valid() && history == old(history) + [b]
      ensures event == Run(Fpga, history).event
      ensures acceptedFrames == if event.Delivered? then Counted(old(acceptedFrames)) else old(acceptedFrames)
      ensures rejectedFrames == if event.Rejected? then Counted(old(rejectedFrames)) else old(rejectedFrames)
    {
      hide ParseMessage, Run, InFlight, Refuses, Complete, PayloadFor;
      ghost var was, before := buffer[..size], history;
      history := history + [b];
      assert history[..|history| - 1] == before;
      LastStep(Fpga, history);
      HeldIsRecent(Fpga, before);
      HeldIsRecent(Fpga, history);
      if size == 0 {
        if b == SOF0 { buffer[0] := b; size := 1; }
        return Silent;
      }
      if size == 1 {
        if b == SOF1 { buffer[1] := b; size := 2; } else { RestartFrom(b); }
        return Silent;
      }
      event := Extend(b);
    }

    /** The bytes after the start marker. */
    method Extend(b: byte) returns (event: Event)
      requires buffer.Length == Capacity(Fpga) && 2 <= size < buffer.Length && InFlight(Fpga, buffer[..size])
      requires if size < 4 then expectedSize == 0 else Announced(buffer[3], messageType, expectedSize)
      modifies this`size, this`expectedSize, this`messageType, this`acceptedFrames, this`rejectedFrames, buffer
      ensures size <= buffer.Length && Step(buffer[..size], event) == Push(Fpga, old(buffer[..size]), b)
      ensures if size < 4 then expectedSize == 0 else Announced(buffer[3], messageType, expectedSize)
      ensures acceptedFrames == if event.Delivered? then Counted(old(acceptedFrames)) else old(acceptedFrames)
      ensures rejectedFrames == if event.Rejected? then Counted(old(rejectedFrames)) else old(rejectedFrames)
    {
      hide ParseMessage, Refuses, Complete, PayloadFor;
      ghost var was := buffer[..size];
      buffer[size] := b;
      size := size + 1;
      ghost var h := was + [b];
      assert buffer[..size] == h;
      HeaderOfTwo(was, b);
      if size == 3 && buffer[2] != PROTOCOL_VERSION {
        event := Refuse(b);
        return;
      }
      if size == 4 {
        messageType := buffer[3];
        if messageType == SENSOR_SNAPSHOT {
          expectedSize := SENSOR_FRAME_SIZE;
        } else if messageType == LinkFrame.STATUS {
          expectedSize := STATUS_FRAME_SIZE;
        } else {
          event := Refuse(b);
          return;
        }
      }
      if size == 8 {
        var lengthOk := (messageType == SENSOR_SNAPSHOT && buffer[6] == 8 && buffer[7] == 0)
                        || (messageType == LinkFrame.STATUS && buffer[6] == 4 && buffer[7] == 0);
        if !lengthOk {
          event := Refuse(b);
          return;
        }
      }
      if expectedSize == 0 || size < expectedSize { return Silent; }
      assert buffer[..expectedSize] == h;
      var parsed := ParseMessage(messageType, buffer[..expectedSize]);
      size, expectedSize, messageType := 0, 0, 0;
      Clear(buffer);
      if parsed.Accepted? {
        acceptedFrames := Counted(acceptedFrames);
        return Delivered(parsed.value);
      }
      rejectedFrames := Counted(rejectedFrames);
      event := Rejected;
    }

    method Refuse(b: byte) returns (event: Event)
      requires buffer.Length > 0
      modifies this`size, this`expectedSize, this`messageType, this`rejectedFrames, buffer
      ensures size <= 1 && buffer[..size] == Restart(b) && expectedSize == 0
      ensures event == Rejected && rejectedFrames == Counted(old(rejectedFrames))
    {
      rejectedFrames := Counted(rejectedFrames);
      RestartFrom(b);
      event := Rejected;
    }
  }

  /** The size expected of a frame of this type. */
  predicate Announced(typeByte: byte, messageType: byte, expectedSize: nat)
  {
    && messageType == typeByte
    && (messageType == SENSOR_SNAPSHOT || messageType == LinkFrame.STATUS)
    && expectedSize == if messageType == SENSOR_SNAPSHOT then SENSOR_FRAME_SIZE else STATUS_FRAME_SIZE
  }

  /** The header checks and the frame sizes of the two FPGA messages. */
  lemma HeaderOfTwo(held: seq<byte>, b: byte)
    requires InFlight(Fpga, held) && |held| >= 2
    ensures
      var h := held + [b];
      && (|h| == 3 ==> (Refuses(Fpga, h) <==> b != PROTOCOL_VERSION) && !Complete(Fpga, h))
      && (|h| == 4 ==> (Refuses(Fpga, h) <==> b != SENSOR_SNAPSHOT && b != LinkFrame.STATUS) && !Complete(Fpga, h))
      && (|h| >= 5 ==>
            && (h[3] == SENSOR_SNAPSHOT || h[3] == LinkFrame.STATUS)
            && var size := if h[3] == SENSOR_SNAPSHOT then SENSOR_FRAME_SIZE else STATUS_FRAME_SIZE;
               |h| <= size && (Complete(Fpga, h) <==> |h| == size))
      && (|h| == 8 ==> (Refuses(Fpga, h) <==> !(h[6] == (if h[3] == SENSOR_SNAPSHOT then 8 else 4) && h[7] == 0)))
      && (|h| >= 5 && |h| != 8 ==> !Refuses(Fpga, h))
  {}
}
