/**
 * PluginChainSampleProvider (Lumix/Plugins/PluginChainSampleProvider.cs): an
 * optional instrument slot plus an ordered list of effects, and the Read
 * stage that runs the enabled ones over the freshly read samples.
 *
 * Processors are values with an identity; hosted VST code and the EQ are
 * opaque buffer transforms supplied as a parameter. Disposing a VST plugin
 * is recorded as the processor appearing, flagged DeleteRequested, in the
 * operation's `disposed` list.
 */
module PluginChain {
  import opened Wrappers
  import opened Seqs
  import Utility

  /** What a processor is: the built-in utility (with its settings), the built-in EQ, or a hosted VST. */
  datatype Kind = UtilityFx(settings: Utility.Settings) | SimpleEq | Vst(isSynth: bool)

  /** An IAudioProcessor: identity, kind and the flags every processor carries. */
  datatype Processor = Processor(id: nat, kind: Kind, enabled: bool, deleteRequested: bool)

  /** A VST whose type is VSTi: the only kind AddPlugin puts in the instrument slot. */
  predicate IsInstrument(p: Processor)
  {
    p.kind.Vst? && p.kind.isSynth
  }

  datatype Chain = Chain(instrument: Option<Processor>, effects: seq<Processor>)

  /** The result of an edit: the new chain and the VST plugins it disposed. */
  datatype Edit = Edit(chain: Chain, disposed: seq<Processor>)

  /** What AddPlugin keeps true: the slot holds only a VSTi and the list never does. */
  predicate Valid(c: Chain)
  {
    (c.instrument.Some? ==> IsInstrument(c.instrument.value))
    && forall i :: 0 <= i < |c.effects| ==> !IsInstrument(c.effects[i])
  }

  /** A new chain: no instrument, then a Utility and a SimpleEq effect. */
  function New(utilityId: nat, eqId: nat): (c: Chain)
    ensures Valid(c) && c.instrument.None? && |c.effects| == 2
    ensures c.effects[0].kind == UtilityFx(Utility.Default) && c.effects[1].kind == SimpleEq
    ensures c.effects[0].enabled && c.effects[1].enabled
  {
    Chain(None, [Processor(utilityId, UtilityFx(Utility.Default), true, false),
                 Processor(eqId, SimpleEq, true, false)])
  }

  /** IAudioProcessor.Toggle: flips Enabled and nothing else. */
  function Toggle(p: Processor): (q: Processor)
    ensures q.enabled == !p.enabled && q.(enabled := p.enabled) == p
  {
    p.(enabled := !p.enabled)
  }

  /** GetPlugin<VstPlugin>: only a hosted VST has one; the built-ins answer null. */
  function HostedPlugin(p: Processor): (v: Option<nat>)
    ensures v.Some? <==> p.kind.Vst?
  {
    if p.kind.Vst? then Some(p.id) else None
  }

  /** Dispose of a processor if it is a VST: it is flagged DeleteRequested and reported. */
  function DisposeIfVst(p: Processor): (d: seq<Processor>)
    ensures p.kind.Vst? ==> d == [p.(deleteRequested := true)]
    ensures !p.kind.Vst? ==> d == []
  {
    if p.kind.Vst? then [p.(deleteRequested := true)] else []
  }

  /**
   * AddPlugin: a VSTi replaces the instrument (disposing a previous VST
   * instrument); anything else, built-ins included, is appended to the effects.
   */
  function AddPlugin(c: Chain, p: Processor): (e: Edit)
    requires Valid(c)
    ensures Valid(e.chain)
    ensures IsInstrument(p) ==>
      (e.chain == Chain(Some(p), c.effects)
       && e.disposed == (if c.instrument.Some? then DisposeIfVst(c.instrument.value) else []))
    ensures !IsInstrument(p) ==> e.chain == Chain(c.instrument, c.effects + [p]) && e.disposed == []
  {
    if IsInstrument(p) then
      Edit(Chain(Some(p), c.effects), if c.instrument.Some? then DisposeIfVst(c.instrument.value) else [])
    else
      Edit(Chain(c.instrument, c.effects + [p]), [])
  }

  /**
   * RemovePlugin: the current instrument empties the slot; any other target is
   * removed (first occurrence) from the effects and, if a VST, disposed even
   * when it was not in the list.
   */
  function RemovePlugin(c: Chain, target: Processor): (e: Edit)
    requires Valid(c)
    ensures Valid(e.chain)
    ensures c.instrument == Some(target) ==> e.chain == Chain(None, c.effects)
    ensures c.instrument != Some(target) ==>
      (e.chain.instrument == c.instrument
       && multiset(e.chain.effects) == multiset(c.effects) - multiset{target})
    ensures c.instrument != Some(target) && target !in c.effects ==> e.chain == c
    ensures c.instrument != Some(target) && target in c.effects ==>
      var k := IndexOf(c.effects, target);
      e.chain.effects == c.effects[..k] + c.effects[k + 1..]
    ensures e.disposed == DisposeIfVst(target)
  {
    if c.instrument == Some(target) then Edit(Chain(None, c.effects), DisposeIfVst(target))
    else
      var fx := RemoveFirst(c.effects, target);
      assert target in c.effects ==> fx == c.effects[..IndexOf(c.effects, target)] + c.effects[IndexOf(c.effects, target) + 1..] by {
        if target in c.effects { RemoveFirstSplits(c.effects, target); }
      }
      RemoveKeepsEffectsValid(c, target);
      Edit(Chain(c.instrument, fx), DisposeIfVst(target))
  }

  /** Removing an effect leaves no instrument in the list. */
  lemma RemoveKeepsEffectsValid(c: Chain, target: Processor)
    requires Valid(c)
    ensures Valid(Chain(c.instrument, RemoveFirst(c.effects, target)))
  {
    var fx := RemoveFirst(c.effects, target);
    if target in c.effects {
      var k := IndexOf(c.effects, target);
      RemoveFirstSplits(c.effects, target);
      forall i | 0 <= i < |fx| ensures !IsInstrument(fx[i]) {
        CutIndex(c.effects, k, i);
      }
    }
  }

  /** The VST effects of a list, each flagged DeleteRequested, in list order. */
  function DisposeAll(ps: seq<Processor>): (d: seq<Processor>)
    ensures |d| <= |ps|
    ensures forall i :: 0 <= i < |d| ==> d[i].kind.Vst? && d[i].deleteRequested
  {
    if |ps| == 0 then [] else DisposeIfVst(ps[0]) + DisposeAll(ps[1..])
  }

  /** RemoveAllPlugins: nothing is left; every VST that was in the chain is disposed. */
  function RemoveAllPlugins(c: Chain): (e: Edit)
    ensures e.chain == Chain(None, [])
    ensures e.disposed == (if c.instrument.Some? then DisposeIfVst(c.instrument.value) else []) + DisposeAll(c.effects)
  {
    Edit(Chain(None, []), (if c.instrument.Some? then DisposeIfVst(c.instrument.value) else []) + DisposeAll(c.effects))
  }

  /** An opaque processor's Process: a transform of the temporary buffer that keeps its length. */
  type Hosted = f: (nat, seq<real>, nat) -> seq<real> | forall id, b, n :: |f(id, b, n)| == |b|
    witness (id: nat, b: seq<real>, n: nat) => b

  /** One processor's Process(temp, temp, samplesRead). */
  function Run(p: Processor, temp: seq<real>, samplesRead: nat, hosted: Hosted): (r: Result<seq<real>>)
    ensures r.Ok? ==> |r.value| == |temp|
  {
    match p.kind
    case UtilityFx(u) => Utility.Process(u, temp, samplesRead)
    case _ => Ok(hosted(p.id, temp, samplesRead))
  }

  /** `new float[count]`. */
  function Zeros(count: nat): (z: seq<real>)
    ensures |z| == count && forall i :: 0 <= i < count ==> z[i] == 0.0
  {
    seq(count, i => 0.0)
  }

  /**
   * ProcessAudio: copy samplesRead samples from offset into a zeroed buffer of
   * `count`, run the processor on it, and copy the first samplesRead samples
   * back. Array.Copy refuses a range that does not fit either array.
   */
  function ProcessAudio(p: Processor, buf: seq<real>, offset: nat, count: nat, samplesRead: nat, hosted: Hosted): (r: Result<seq<real>>)
    ensures offset + samplesRead > |buf| || samplesRead > count ==> r == Err(ArgumentFault)
    ensures r.Ok? ==> |r.value| == |buf|
    ensures r.Ok? ==> forall j :: 0 <= j < |buf| && !(offset <= j < offset + samplesRead) ==> r.value[j] == buf[j]
  {
    if offset + samplesRead > |buf| || samplesRead > count then Err(ArgumentFault)
    else
      var temp := buf[offset..offset + samplesRead] + Zeros(count - samplesRead);
      match Run(p, temp, samplesRead, hosted)
      case Err(f) => Err(f)
      case Ok(out) => Ok(buf[..offset] + out[..samplesRead] + buf[offset + samplesRead..])
  }

  /** The effect loop over a snapshot of the list: disabled effects are skipped. */
  function Effects(ps: seq<Processor>, buf: seq<real>, offset: nat, count: nat, samplesRead: nat, hosted: Hosted): (r: Result<seq<real>>)
    decreases |ps|
  {
    if |ps| == 0 then Ok(buf)
    else if !ps[0].enabled then Effects(ps[1..], buf, offset, count, samplesRead, hosted)
    else
      match ProcessAudio(ps[0], buf, offset, count, samplesRead, hosted)
      case Err(f) => Err(f)
      case Ok(b) => Effects(ps[1..], b, offset, count, samplesRead, hosted)
  }

  /**
   * Read, given the buffer after the source has filled samplesRead samples
   * from offset: the instrument if present and enabled, then the effects.
   */
  function Read(c: Chain, buf: seq<real>, offset: nat, count: nat, samplesRead: nat, hosted: Hosted): (r: Result<seq<real>>)
  {
    var afterInstrument :=
      if c.instrument.Some? && c.instrument.value.enabled
      then ProcessAudio(c.instrument.value, buf, offset, count, samplesRead, hosted)
      else Ok(buf);
    match afterInstrument
    case Err(f) => Err(f)
    case Ok(b) => Effects(c.effects, b, offset, count, samplesRead, hosted)
  }

  /** The processors Read actually runs, in order. */
  function Active(c: Chain): (ps: seq<Processor>)
    ensures forall i :: 0 <= i < |ps| ==> ps[i].enabled
  {
    (if c.instrument.Some? && c.instrument.value.enabled then [c.instrument.value] else []) + Enabled(c.effects)
  }

  function Enabled(ps: seq<Processor>): (qs: seq<Processor>)
    ensures forall i :: 0 <= i < |qs| ==> qs[i].enabled
    ensures forall p :: p in qs <==> p in ps && p.enabled
  {
    if |ps| == 0 then [] else (if ps[0].enabled then [ps[0]] else []) + Enabled(ps[1..])
  }

  /** The plain fold: every processor of the list, in order. */
  function RunAll(ps: seq<Processor>, buf: seq<real>, offset: nat, count: nat, samplesRead: nat, hosted: Hosted): (r: Result<seq<real>>)
    decreases |ps|
  {
    if |ps| == 0 then Ok(buf)
    else
      match ProcessAudio(ps[0], buf, offset, count, samplesRead, hosted)
      case Err(f) => Err(f)
      case Ok(b) => RunAll(ps[1..], b, offset, count, samplesRead, hosted)
  }

  lemma {:induction false} EffectsRunEnabled(ps: seq<Processor>, buf: seq<real>, offset: nat, count: nat, samplesRead: nat, hosted: Hosted)
    ensures Effects(ps, buf, offset, count, samplesRead, hosted) == RunAll(Enabled(ps), buf, offset, count, samplesRead, hosted)
    decreases |ps|
  {
    if |ps| > 0 {
      if ps[0].enabled {
        assert Enabled(ps) == [ps[0]] + Enabled(ps[1..]);
        assert Enabled(ps)[1..] == Enabled(ps[1..]);
        match ProcessAudio(ps[0], buf, offset, count, samplesRead, hosted)
        case Err(f) =>
        case Ok(b) => EffectsRunEnabled(ps[1..], b, offset, count, samplesRead, hosted);
      } else {
        assert Enabled(ps) == Enabled(ps[1..]);
        EffectsRunEnabled(ps[1..], buf, offset, count, samplesRead, hosted);
      }
    }
  }

  /**
   * Read is the fold of the enabled processors, instrument first: a disabled
   * processor contributes nothing.
   */
  lemma ReadRunsActive(c: Chain, buf: seq<real>, offset: nat, count: nat, samplesRead: nat, hosted: Hosted)
    ensures Read(c, buf, offset, count, samplesRead, hosted) == RunAll(Active(c), buf, offset, count, samplesRead, hosted)
  {
    if c.instrument.Some? && c.instrument.value.enabled {
      var p := c.instrument.value;
      assert Active(c) == [p] + Enabled(c.effects);
      assert Active(c)[1..] == Enabled(c.effects);
      match ProcessAudio(p, buf, offset, count, samplesRead, hosted)
      case Err(f) =>
      case Ok(b) => EffectsRunEnabled(c.effects, b, offset, count, samplesRead, hosted);
    } else {
      assert Active(c) == Enabled(c.effects);
      EffectsRunEnabled(c.effects, buf, offset, count, samplesRead, hosted);
    }
  }

  /** The fold keeps the buffer's length and changes nothing outside [offset, offset + samplesRead). */
  lemma {:induction false} RunAllFrame(ps: seq<Processor>, buf: seq<real>, offset: nat, count: nat, samplesRead: nat, hosted: Hosted)
    ensures var r := RunAll(ps, buf, offset, count, samplesRead, hosted);
      r.Ok? ==> |r.value| == |buf| && forall j :: 0 <= j < |buf| && !(offset <= j < offset + samplesRead) ==> r.value[j] == buf[j]
    decreases |ps|
  {
    if |ps| > 0 {
      match ProcessAudio(ps[0], buf, offset, count, samplesRead, hosted)
      case Err(f) =>
      case Ok(b) => RunAllFrame(ps[1..], b, offset, count, samplesRead, hosted);
    }
  }

  /** Read changes only the samples the source has just read. */
  lemma ReadFrame(c: Chain, buf: seq<real>, offset: nat, count: nat, samplesRead: nat, hosted: Hosted)
    ensures var r := Read(c, buf, offset, count, samplesRead, hosted);
      r.Ok? ==> |r.value| == |buf| && forall j :: 0 <= j < |buf| && !(offset <= j < offset + samplesRead) ==> r.value[j] == buf[j]
  {
    ReadRunsActive(c, buf, offset, count, samplesRead, hosted);
    RunAllFrame(Active(c), buf, offset, count, samplesRead, hosted);
  }

  lemma {:induction false} NoneEnabled(ps: seq<Processor>)
    requires forall i :: 0 <= i < |ps| ==> !ps[i].enabled
    ensures Enabled(ps) == []
    decreases |ps|
  {
    if |ps| > 0 {
      NoneEnabled(ps[1..]);
    }
  }

  /** A chain with nothing enabled returns the source's samples as they are. */
  lemma NothingEnabledIsIdentity(c: Chain, buf: seq<real>, offset: nat, count: nat, samplesRead: nat, hosted: Hosted)
    requires c.instrument.Some? ==> !c.instrument.value.enabled
    requires forall i :: 0 <= i < |c.effects| ==> !c.effects[i].enabled
    ensures Read(c, buf, offset, count, samplesRead, hosted) == Ok(buf)
  {
    ReadRunsActive(c, buf, offset, count, samplesRead, hosted);
    NoneEnabled(c.effects);
  }
}
