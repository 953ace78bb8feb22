/**
 * The MIDI messages VstPlugin hands to a hosted plugin
 * (Lumix/Plugins/VST/VstPlugin.cs): three-byte channel-voice messages as in
 * the MIDI 1.0 Detailed Specification, Table II (Channel Voice Messages:
 * 8nH Note Off, 9nH Note On, BnH Control Change) and Table III (controller
 * 64, the damper pedal). The plugin context (the loaded native plugin) is
 * opaque.
 */
module VstMidi {
  import opened Wrappers

  type Byte = bv8

  /** `(byte)x` on an int: its low eight bits in two's complement. */
  function Low8(x: int): (b: Byte)
    ensures b as int == x % 256
  {
    ByteOf(x % 256)
  }

  /** The byte holding a value below 256, counted up from zero. */
  function ByteOf(n: nat): (b: Byte)
    requires n < 256
    ensures b as int == n
  {
    if n == 0 then 0 else ByteOf(n - 1) + 1
  }

  /** `0x?0 | channel & 0x0F`: a status high nibble with the channel's low four bits. */
  function Status(high: Byte, channel: int): Byte
  {
    high | (Low8(channel) & 0x0F)
  }

  /** `x & 0x7F`: a data byte. */
  function Data(x: int): Byte
  {
    Low8(x) & 0x7F
  }

  /** SendNoteOn's bytes. */
  function NoteOn(channel: int, note: int, velocity: int): seq<Byte>
  {
    [Status(0x90, channel), Data(note), Data(velocity)]
  }

  /** SendNoteOff's bytes. */
  function NoteOff(channel: int, note: int, velocity: int): seq<Byte>
  {
    [Status(0x80, channel), Data(note), Data(velocity)]
  }

  /** Controller 64, the damper pedal. */
  const Sustain: Byte := 64

  /** SendSustainPedal's bytes: Control Change on controller 64, value 127 or 0. */
  function SustainPedal(channel: int, pressed: bool): seq<Byte>
  {
    [Status(0xB0, channel), Sustain, if pressed then 127 else 0]
  }

  /** A channel-voice message as Table II reads it. */
  datatype Voice = NoteOnMsg(channel: nat, key: nat, velocity: nat)
                 | NoteOffMsg(channel: nat, key: nat, velocity: nat)
                 | ControlChange(channel: nat, controller: nat, value: nat)

  /**
   * Reading three bytes by Table II: a status byte (high bit set) whose high
   * nibble names the message and whose low nibble is the channel, then two
   * data bytes (high bit clear). Anything else is not one of these messages.
   */
  function Parse(m: seq<Byte>): (v: Option<Voice>)
    ensures v.Some? ==> |m| == 3 && m[0] >= 0x80 && m[1] < 0x80 && m[2] < 0x80
    ensures v.Some? ==> v.value.channel < 16
  {
    if |m| != 3 || m[1] >= 0x80 || m[2] >= 0x80 then None
    else
      var n := (m[0] & 0x0F) as int;
      var k := m[1] as int;
      var d := m[2] as int;
      match m[0] >> 4
      case 0x8 => Some(NoteOffMsg(n, k, d))
      case 0x9 => Some(NoteOnMsg(n, k, d))
      case 0xB => Some(ControlChange(n, k, d))
      case _ => None
  }

  lemma LowNibble(b: Byte)
    ensures (b & 0x0F) as int == b as int % 16 && (b & 0x7F) as int == b as int % 128
  {
  }

  lemma StatusShape(high: Byte, l: Byte)
    requires high & 0x0F == 0
    ensures (high | (l & 0x0F)) >> 4 == high >> 4
    ensures (high | (l & 0x0F)) & 0x0F == l & 0x0F
    ensures (high | (l & 0x0F)) >= high
  {
  }

  /** The low nibble of a built status byte is the channel modulo 16 (also for negative channels). */
  lemma StatusChannel(high: Byte, channel: int)
    requires high & 0x0F == 0
    ensures Status(high, channel) >> 4 == high >> 4
    ensures (Status(high, channel) & 0x0F) as int == channel % 16
  {
    var l := Low8(channel);
    StatusShape(high, l);
    assert Status(high, channel) & 0x0F == l & 0x0F;
    LowNibble(l);
    ModOfMod(channel);
  }

  lemma DataValue(x: int)
    ensures Data(x) as int == x % 128
  {
    var l := Low8(x);
    LowNibble(l);
    ModOfMod(x);
  }

  /** Reducing modulo 256 first does not change a remainder modulo 16 or 128. */
  lemma ModOfMod(x: int)
    ensures (x % 256) % 16 == x % 16 && (x % 256) % 128 == x % 128
  {
    var q, r := x / 256, x % 256;
    assert x == 256 * q + r;
    Remainder16(x, 16 * q + r / 16, r % 16);
    Remainder128(x, 2 * q + r / 128, r % 128);
  }

  lemma Remainder16(x: int, k: int, m: int)
    requires x == 16 * k + m && 0 <= m < 16
    ensures x % 16 == m
  {
  }

  lemma Remainder128(x: int, k: int, m: int)
    requires x == 128 * k + m && 0 <= m < 128
    ensures x % 128 == m
  {
  }

  /** SendNoteOn sends the Note On message of Table II for channel, key and velocity taken modulo 16, 128 and 128. */
  lemma NoteOnReadsBack(channel: int, note: int, velocity: int)
    ensures Parse(NoteOn(channel, note, velocity)) == Some(NoteOnMsg(channel % 16, note % 128, velocity % 128))
  {
    StatusChannel(0x90, channel);
    StatusShape(0x90, Low8(channel));
    DataValue(note);
    DataValue(velocity);
  }

  /** SendNoteOff sends the Note Off message of Table II. */
  lemma NoteOffReadsBack(channel: int, note: int, velocity: int)
    ensures Parse(NoteOff(channel, note, velocity)) == Some(NoteOffMsg(channel % 16, note % 128, velocity % 128))
  {
    StatusChannel(0x80, channel);
    StatusShape(0x80, Low8(channel));
    DataValue(note);
    DataValue(velocity);
  }

  /** SendSustainPedal sends Control Change on controller 64, value 127 when pressed and 0 when released. */
  lemma SustainReadsBack(channel: int, pressed: bool)
    ensures Parse(SustainPedal(channel, pressed)) == Some(ControlChange(channel % 16, 64, if pressed then 127 else 0))
  {
    StatusChannel(0xB0, channel);
    StatusShape(0xB0, Low8(channel));
  }

  /** The loaded plugin: its native context (absent when loading failed) and whether it declares IsSynth. */
  datatype Context = Context(handle: nat, isSynth: bool)

  datatype VstType = Effect | Instrument

  datatype VstPlugin = VstPlugin(context: Option<Context>, pluginType: VstType)

  /**
   * The constructor: LoadPlugin's result, then the type from the IsSynth
   * flag. LoadPlugin answers null on failure, and reading its PluginInfo then
   * throws a NullReferenceException, so no VstPlugin with a null context
   * comes out of the constructor.
   */
  function Load(loaded: Option<Context>): (r: Result<VstPlugin>)
    ensures r.Ok? <==> loaded.Some?
    ensures r.Err? ==> r.fault == NullReference
    ensures r.Ok? ==> r.value.context == loaded
    ensures r.Ok? ==> (r.value.pluginType == Instrument <==> loaded.value.isSynth)
  {
    if loaded.None? then Err(NullReference)
    else Ok(VstPlugin(loaded, if loaded.value.isSynth then Instrument else Effect))
  }

  /** A sender: the message is handed to ProcessEvents when there is a context, and dropped otherwise. */
  function Deliver(p: VstPlugin, msg: seq<Byte>): (sent: seq<seq<Byte>>)
    ensures p.context.None? ==> sent == []
    ensures p.context.Some? ==> sent == [msg]
  {
    if p.context.None? then [] else [msg]
  }

  function SendNoteOn(p: VstPlugin, channel: int, note: int, velocity: int): (sent: seq<seq<Byte>>)
    ensures |sent| <= 1
    ensures forall i :: 0 <= i < |sent| ==> Parse(sent[i]) == Some(NoteOnMsg(channel % 16, note % 128, velocity % 128))
    ensures sent == [] <==> p.context.None?
  {
    NoteOnReadsBack(channel, note, velocity);
    Deliver(p, NoteOn(channel, note, velocity))
  }

  function SendNoteOff(p: VstPlugin, channel: int, note: int, velocity: int): (sent: seq<seq<Byte>>)
    ensures |sent| <= 1
    ensures forall i :: 0 <= i < |sent| ==> Parse(sent[i]) == Some(NoteOffMsg(channel % 16, note % 128, velocity % 128))
    ensures sent == [] <==> p.context.None?
  {
    NoteOffReadsBack(channel, note, velocity);
    Deliver(p, NoteOff(channel, note, velocity))
  }

  function SendSustainPedal(p: VstPlugin, channel: int, pressed: bool): (sent: seq<seq<Byte>>)
    ensures |sent| <= 1
    ensures forall i :: 0 <= i < |sent| ==> Parse(sent[i]) == Some(ControlChange(channel % 16, 64, if pressed then 127 else 0))
    ensures sent == [] <==> p.context.None?
  {
    SustainReadsBack(channel, pressed);
    Deliver(p, SustainPedal(channel, pressed))
  }
}
