/**
 * The chain-editing rules of DevicesView (Lumix/Views/DevicesView.cs): the
 * arrow-key swap of adjacent effects, the per-frame removal of plugins that
 * asked to be deleted, and which dropped plugins are admitted to the selected
 * track's chain. Key presses, mouse state and the loaded VST are parameters.
 */
module Devices {
  import opened Wrappers
  import opened Seqs
  import opened TrackTypes
  import opened PluginChain
  import Paths

  /**
   * HandlePluginSwap for one effect of the selected track's chain: with the
   * plugin the only selected one, Left swaps it with its predecessor when it
   * has one, else Right swaps it with its successor when it has one.
   */
  function HandlePluginSwap(selected: seq<Processor>, plugin: Processor, track: Option<Chain>, left: bool, right: bool): (r: Option<Chain>)
    ensures r.Some? <==> track.Some?
    ensures r.Some? ==> r.value.instrument == track.value.instrument
    ensures r.Some? ==>
      (|r.value.effects| == |track.value.effects| && multiset(r.value.effects) == multiset(track.value.effects))
    ensures r.Some? && r.value != track.value ==>
      |selected| == 1 && selected[0] == plugin && plugin in track.value.effects && (left || right)
  {
    if track.None? then None
    else
      var c := track.value;
      var k := IndexOf(c.effects, plugin);
      if |selected| == 1 && selected[0] == plugin && k >= 0 then
        if left && k > 0 then Some(c.(effects := Swap(c.effects, k - 1, k)))
        else if right && k < |c.effects| - 1 then Some(c.(effects := Swap(c.effects, k, k + 1)))
        else track
      else track
  }

  /**
   * Where the plugin goes: a Left press moves it one place towards the front
   * unless it is first, otherwise a Right press moves it one place towards the
   * back unless it is last; every other effect keeps its position.
   */
  lemma SwapMovesOnePlace(selected: seq<Processor>, plugin: Processor, c: Chain, left: bool, right: bool)
    requires |selected| == 1 && selected[0] == plugin && plugin in c.effects
    requires Distinct(c.effects)
    ensures var k := IndexOf(c.effects, plugin);
      var e := HandlePluginSwap(selected, plugin, Some(c), left, right).value.effects;
      && (left && k > 0 ==>
            (e[k - 1] == plugin && e[k] == c.effects[k - 1]
             && forall j :: 0 <= j < |e| && j != k - 1 && j != k ==> e[j] == c.effects[j]))
      && (!(left && k > 0) && right && k < |c.effects| - 1 ==>
            (e[k + 1] == plugin && e[k] == c.effects[k + 1]
             && forall j :: 0 <= j < |e| && j != k && j != k + 1 ==> e[j] == c.effects[j]))
      && (!(left && k > 0) && !(right && k < |c.effects| - 1) ==> e == c.effects)
      && Distinct(e)
  {
    var k := IndexOf(c.effects, plugin);
    var e := HandlePluginSwap(selected, plugin, Some(c), left, right).value.effects;
    if left && k > 0 {
      assert e == Swap(c.effects, k - 1, k);
      SwapDistinct(c.effects, k - 1, k);
    } else if right && k < |c.effects| - 1 {
      assert e == Swap(c.effects, k, k + 1);
      SwapDistinct(c.effects, k, k + 1);
    } else {
      assert e == c.effects;
    }
  }

  /** A swap never lets an instrument into the effect list. */
  lemma SwapKeepsValid(selected: seq<Processor>, plugin: Processor, c: Chain, left: bool, right: bool)
    requires Valid(c)
    ensures Valid(HandlePluginSwap(selected, plugin, Some(c), left, right).value)
  {
    var e := HandlePluginSwap(selected, plugin, Some(c), left, right).value.effects;
    forall i | 0 <= i < |e| ensures !IsInstrument(e[i]) {
      assert e[i] in multiset(c.effects);
    }
  }

  /** FindAll(plug => plug.DeleteRequested). */
  function Deleted(ps: seq<Processor>): (d: seq<Processor>)
    ensures forall p :: p in d <==> p in ps && p.deleteRequested
  {
    if |ps| == 0 then [] else (if ps[0].deleteRequested then [ps[0]] else []) + Deleted(ps[1..])
  }

  /** The effects that did not ask to be deleted, in order. */
  function Kept(ps: seq<Processor>): (k: seq<Processor>)
    ensures forall p :: p in k <==> p in ps && !p.deleteRequested
  {
    if |ps| == 0 then [] else (if ps[0].deleteRequested then [] else [ps[0]]) + Kept(ps[1..])
  }

  /** `deletedPlugins.ForEach(del => RemovePlugin(del))`: one RemovePlugin per target, in order. */
  function RemoveEach(c: Chain, targets: seq<Processor>): (e: Edit)
    requires Valid(c)
    ensures Valid(e.chain)
    decreases |targets|
  {
    if |targets| == 0 then Edit(c, [])
    else
      var first := RemovePlugin(c, targets[0]);
      var rest := RemoveEach(first.chain, targets[1..]);
      Edit(rest.chain, first.disposed + rest.disposed)
  }

  /**
   * The drain of one DevicesView frame on the selected track: every effect
   * flagged DeleteRequested is removed, then a flagged instrument.
   */
  function Drain(c: Chain): (e: Edit)
    requires Valid(c)
    ensures Valid(e.chain)
  {
    var fx := RemoveEach(c, Deleted(c.effects));
    if fx.chain.instrument.Some? && fx.chain.instrument.value.deleteRequested then
      var ins := RemovePlugin(fx.chain, fx.chain.instrument.value);
      Edit(ins.chain, fx.disposed + ins.disposed)
    else fx
  }

  /** Removing the first flagged effect x takes it out behind the kept prefix. */
  lemma RemoveDeletedStep(ins: Option<Processor>, pre: seq<Processor>, x: Processor, t: seq<Processor>)
    requires Valid(Chain(ins, pre + ([x] + t)))
    requires x.deleteRequested
    requires forall i :: 0 <= i < |pre| ==> !pre[i].deleteRequested
    ensures RemovePlugin(Chain(ins, pre + ([x] + t)), x).chain == Chain(ins, pre + t)
  {
    var s := pre + ([x] + t);
    assert s[|pre|] == x;
    assert ins != Some(x);
    RemoveFirstBehind(pre, [x] + t, x);
    assert ([x] + t)[1..] == t;
  }

  /**
   * Removing the deleted effects one by one leaves exactly the kept ones, in
   * order, behind a prefix of already-kept effects.
   */
  lemma {:induction false} RemoveEachDeleted(ins: Option<Processor>, pre: seq<Processor>, s: seq<Processor>)
    requires Valid(Chain(ins, pre + s))
    requires forall i :: 0 <= i < |pre| ==> !pre[i].deleteRequested
    ensures RemoveEach(Chain(ins, pre + s), Deleted(s)).chain == Chain(ins, pre + Kept(s))
    decreases |s|
  {
    if |s| == 0 {
      assert pre + s == pre && pre + Kept(s) == pre;
    } else {
      var x := s[0];
      var t := s[1..];
      assert s == [x] + t;
      if x.deleteRequested {
        var ds := Deleted(s);
        assert ds == [x] + Deleted(t);
        assert ds[0] == x && ds[1..] == Deleted(t);
        assert Kept(s) == Kept(t);
        RemoveDeletedStep(ins, pre, x, t);
        RemoveEachDeleted(ins, pre, t);
        assert RemoveEach(Chain(ins, pre + s), ds).chain
            == RemoveEach(RemovePlugin(Chain(ins, pre + s), x).chain, Deleted(t)).chain;
      } else {
        assert Deleted(s) == Deleted(t);
        assert Kept(s) == [x] + Kept(t);
        assert pre + s == (pre + [x]) + t;
        assert pre + Kept(s) == (pre + [x]) + Kept(t);
        RemoveEachDeleted(ins, pre + [x], t);
      }
    }
  }

  /**
   * After the drain no effect is flagged DeleteRequested: the effect list is
   * the old one without the flagged effects, in the same order, and the
   * instrument slot is emptied exactly when its instrument was flagged.
   */
  lemma DrainRemovesDeleted(c: Chain)
    requires Valid(c)
    ensures Drain(c).chain.effects == Kept(c.effects)
    ensures Drain(c).chain.instrument ==
      (if c.instrument.Some? && c.instrument.value.deleteRequested then None else c.instrument)
  {
    assert [] + c.effects == c.effects;
    RemoveEachDeleted(c.instrument, [], c.effects);
    assert [] + Kept(c.effects) == Kept(c.effects);
  }

  /** `Path.GetExtension(path) == ".dll"`, compared case-sensitively. */
  predicate IsDll(path: string)
  {
    Paths.Extension(path) == ".dll"
  }

  /** The extension test is the suffix test: a path is taken for a VST exactly when it ends in ".dll". */
  lemma IsDllIffSuffix(path: string)
    ensures IsDll(path) <==> |path| >= 4 && path[|path| - 4..] == ".dll"
  {
    Paths.ExtensionIsSuffix(path, ".dll");
  }

  /** The selected track: its kind and its plugin chain. */
  datatype Selected = Selected(kind: TrackType, chain: Chain)

  /** What the sidebar is dragging: a file path (possibly empty) and possibly a built-in plugin instance. */
  datatype Drag = Drag(path: string, builtIn: Option<Processor>)

  /** What ListenForPluginDrop leaves behind: the track, the dragged built-in, the latch, and the VSTs it disposed. */
  datatype Dropped = Dropped(track: Option<Selected>, builtIn: Option<Processor>, hasDropped: bool, disposed: seq<Processor>)

  /** `!IsNullOrEmpty(path) || builtIn != null && !_hasDropped`: `&&` binds tighter, so the latch gates only built-in drops. */
  predicate Accepting(drag: Drag, hasDropped: bool)
  {
    |drag.path| > 0 || (drag.builtIn.Some? && !hasDropped)
  }

  /** Append p to the selected track's chain through AddPlugin. */
  function AddTo(t: Selected, p: Processor): (r: Selected)
    requires Valid(t.chain)
    ensures Valid(r.chain) && r.kind == t.kind
  {
    t.(chain := AddPlugin(t.chain, p).chain)
  }

  /**
   * One frame of ListenForPluginDrop while the devices area is a drop target.
   * `loaded` is the processor `new VstPlugin(path)` yields (loading is not
   * modelled); `released` and `dragging` are the mouse state.
   * A built-in is added to any selected track; a VST effect to any selected
   * track; a VSTi only to a MIDI track, and otherwise it is disposed.
   */
  function Drop(track: Option<Selected>, drag: Drag, hasDropped: bool, released: bool, dragging: bool, loaded: Processor): (d: Dropped)
    requires track.Some? ==> Valid(track.value.chain)
    requires drag.builtIn.Some? ==> !drag.builtIn.value.kind.Vst?
    requires loaded.kind.Vst?
    ensures d.track.Some? <==> track.Some?
    ensures d.track.Some? ==> Valid(d.track.value.chain) && d.track.value.kind == track.value.kind
    ensures !dragging ==> !d.hasDropped
    ensures !Accepting(drag, hasDropped) || !released ==> d.track == track && d.disposed == []
    ensures Accepting(drag, hasDropped) && released && drag.builtIn.Some? ==>
      (d.builtIn.None? && d.disposed == []
       && (track.Some? ==> d.track.value.chain == Chain(track.value.chain.instrument, track.value.chain.effects + [drag.builtIn.value]))
       && (track.None? ==> d.track.None?))
    ensures Accepting(drag, hasDropped) && released && drag.builtIn.None? && IsDll(drag.path) ==>
      if track.Some? && (!IsInstrument(loaded) || track.value.kind == Midi) then
        (IsInstrument(loaded) ==> d.track.value.chain == Chain(Some(loaded), track.value.chain.effects))
        && (!IsInstrument(loaded) ==> d.track.value.chain == Chain(track.value.chain.instrument, track.value.chain.effects + [loaded]))
      else d.track == track && d.disposed == [loaded]
    ensures Accepting(drag, hasDropped) && released && drag.builtIn.None? && !IsDll(drag.path) ==> d.track == track
  {
    var after :=
      if !Accepting(drag, hasDropped) || !released then Dropped(track, drag.builtIn, hasDropped, [])
      else if drag.builtIn.Some? then
        Dropped(if track.Some? then Some(AddTo(track.value, drag.builtIn.value)) else None, None, true, [])
      else if IsDll(drag.path) then
        if track.Some? && (!IsInstrument(loaded) || track.value.kind == Midi) then
          var e := AddPlugin(track.value.chain, loaded);
          Dropped(Some(track.value.(chain := e.chain)), drag.builtIn, true, e.disposed)
        else Dropped(track, drag.builtIn, true, [loaded])
      else Dropped(track, drag.builtIn, hasDropped, []);
    if dragging then after else after.(hasDropped := false)
  }

  /** Once a built-in has been dropped, holding the drag adds nothing more until the mouse stops dragging. */
  lemma LatchBlocksRepeatedBuiltIn(track: Option<Selected>, b: Processor, released: bool, loaded: Processor)
    requires track.Some? ==> Valid(track.value.chain)
    requires !b.kind.Vst? && loaded.kind.Vst?
    ensures Drop(track, Drag([], Some(b)), true, released, true, loaded) == Dropped(track, Some(b), true, [])
  {
  }

  /** The latch does not gate a file drag: with a path present the drop is handled whatever the latch says. */
  lemma LatchIgnoresFileDrag(track: Option<Selected>, path: string, released: bool, dragging: bool, loaded: Processor)
    requires track.Some? ==> Valid(track.value.chain)
    requires |path| > 0 && loaded.kind.Vst?
    ensures Drop(track, Drag(path, None), true, released, dragging, loaded).track
         == Drop(track, Drag(path, None), false, released, dragging, loaded).track
  {
  }
}
