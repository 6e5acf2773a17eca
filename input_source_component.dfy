/**
 * InputSourceComponent.tsx: the per-handedness capture table with its
 * capture/release operations, the creation of an input source's component
 * data, the reactor effects that copy a capture onto a source and keep each
 * input sink's reverse list of sources, and the `isAssigned…` queries.
 *
 * The ECS component tables the reactor touches live in `InputWorld`, one
 * field per component.
 */
module InputSourceComponent {
  import opened Wrappers
  import opened ButtonState

  type Entity = nat

  /** Entity 0 is UndefinedEntity: falsy, and never a real entity. */
  const UndefinedEntity: Entity := 0

  /** XRHandedness: 'left', 'right', 'none'. */
  datatype Handedness = Left | Right | NoHand

  /** The default `handedness` argument of every capture/release variant. */
  const Handednesses: seq<Handedness> := [Left, Right, NoHand]

  datatype TargetRayMode = Gaze | TrackedPointer | Screen | TransientPointer

  /** A Gamepad snapshot: `buttons` may be missing; `axes` as reported. */
  datatype Gamepad = Gamepad(buttons: Option<seq<GamepadButton>>, axes: seq<real>)

  /** An XRInputSource. `handle` stands for the identity of the platform
      object, which keys `entitiesByInputSource`. */
  datatype XRInputSource = XRInputSource(handle: nat, handedness: Handedness, targetRayMode: TargetRayMode,
                                         hasTargetRaySpace: bool, gamepad: Option<Gamepad>, hasHand: bool)

  /** The arguments of setComponent(entity, InputSourceComponent, args). */
  datatype InputSourceArgs = InputSourceArgs(source: Option<XRInputSource>, gamepad: Option<Gamepad>)

  /** The data of one InputSourceComponent. */
  datatype InputSource = InputSource(source: XRInputSource, buttons: ButtonStateMap,
                                     assignedButtonEntity: Entity, assignedAxesEntity: Entity)

  /** The emulated gamepad of a source created without one: four zero axes, no buttons. */
  const EmulatedGamepad := Gamepad(Some([]), [0.0, 0.0, 0.0, 0.0])

  /** onSet's choice of source: the one given, or an emulated screen source. */
  function SourceFor(args: InputSourceArgs): (src: XRInputSource)
    ensures args.source.Some? ==> src == args.source.value
    ensures args.source.None? ==>
              && src.handedness == NoHand && src.targetRayMode == Screen && !src.hasHand
              && src.gamepad == Some(if args.gamepad.Some? then args.gamepad.value else EmulatedGamepad)
    ensures args.source.None? && args.gamepad.None? ==>
              src.gamepad.value.axes == [0.0, 0.0, 0.0, 0.0] && src.gamepad.value.buttons == Some([])
  {
    match args.source
    case Some(s) => s
    case None => XRInputSource(0, NoHand, Screen, true, Some(args.gamepad.GetOr(EmulatedGamepad)), false)
  }

  // ---------------------------------------------------------------------------
  // The capture table (InputSourceCaptureState)

  /** The capture for a hand; an absent entry reads as UndefinedEntity. */
  function CapturedFor(m: map<Handedness, Entity>, h: Handedness): Entity
  {
    if h in m then m[h] else UndefinedEntity
  }

  /** The table after `for (const hand of hands) table[hand] = target`. */
  function SetHands(m: map<Handedness, Entity>, hands: seq<Handedness>, target: Entity): map<Handedness, Entity>
  {
    if hands == [] then m
    else SetHands(m, hands[..|hands| - 1], target)[hands[|hands| - 1] := target]
  }

  /** Setting a list of hands gives each listed hand the target and leaves the
      other hands as they were. */
  lemma {:induction false} SetHandsAt(m: map<Handedness, Entity>, hands: seq<Handedness>, target: Entity, h: Handedness)
    ensures CapturedFor(SetHands(m, hands, target), h) == if h in hands then target else CapturedFor(m, h)
  {
    if hands != [] {
      var init := hands[..|hands| - 1];
      SetHandsAt(m, init, target, h);
      assert hands == init + [hands[|hands| - 1]];
    }
  }

  /** Releasing the hands one captured restores nothing: every listed hand is
      uncaptured afterwards, every other hand keeps the capture it had before. */
  lemma CaptureThenRelease(m: map<Handedness, Entity>, hands: seq<Handedness>, target: Entity, h: Handedness)
    ensures CapturedFor(SetHands(SetHands(m, hands, target), hands, UndefinedEntity), h)
            == if h in hands then UndefinedEntity else CapturedFor(m, h)
  {
    SetHandsAt(SetHands(m, hands, target), hands, UndefinedEntity, h);
    SetHandsAt(m, hands, target, h);
  }

  /** With the default argument every hand is captured. */
  lemma CaptureDefaultsToAllHands(m: map<Handedness, Entity>, target: Entity, h: Handedness)
    ensures CapturedFor(SetHands(m, Handednesses, target), h) == target
  {
    SetHandsAt(m, Handednesses, target, h);
  }

  class CaptureState {
    var buttons: map<Handedness, Entity>
    var axes: map<Handedness, Entity>

    /** The state's `initial`: both tables empty, so nothing is captured. */
    constructor ()
      ensures buttons == map[] && axes == map[]
      ensures forall h :: CapturedFor(buttons, h) == UndefinedEntity && CapturedFor(axes, h) == UndefinedEntity
    {
      buttons := map[];
      axes := map[];
    }

    method CaptureButtons(target: Entity, hands: seq<Handedness>)
      modifies this
      ensures buttons == SetHands(old(buttons), hands, target)
      ensures axes == old(axes)
    {
      for k := 0 to |hands|
        invariant buttons == SetHands(old(buttons), hands[..k], target)
        invariant axes == old(axes)
      {
        assert hands[..k + 1][..k] == hands[..k];
        buttons := buttons[hands[k] := target];
      }
      assert hands[..|hands|] == hands;
    }

    method ReleaseButtons(hands: seq<Handedness>)
      modifies this
      ensures buttons == SetHands(old(buttons), hands, UndefinedEntity)
      ensures axes == old(axes)
    {
      for k := 0 to |hands|
        invariant buttons == SetHands(old(buttons), hands[..k], UndefinedEntity)
        invariant axes == old(axes)
      {
        assert hands[..k + 1][..k] == hands[..k];
        buttons := buttons[hands[k] := UndefinedEntity];
      }
      assert hands[..|hands|] == hands;
    }

    method CaptureAxes(target: Entity, hands: seq<Handedness>)
      modifies this
      ensures axes == SetHands(old(axes), hands, target)
      ensures buttons == old(buttons)
    {
      for k := 0 to |hands|
        invariant axes == SetHands(old(axes), hands[..k], target)
        invariant buttons == old(buttons)
      {
        assert hands[..k + 1][..k] == hands[..k];
        axes := axes[hands[k] := target];
      }
      assert hands[..|hands|] == hands;
    }

    method ReleaseAxes(hands: seq<Handedness>)
      modifies this
      ensures axes == SetHands(old(axes), hands, UndefinedEntity)
      ensures buttons == old(buttons)
    {
      for k := 0 to |hands|
        invariant axes == SetHands(old(axes), hands[..k], UndefinedEntity)
        invariant buttons == old(buttons)
      {
        assert hands[..k + 1][..k] == hands[..k];
        axes := axes[hands[k] := UndefinedEntity];
      }
      assert hands[..|hands|] == hands;
    }

    method Capture(target: Entity, hands: seq<Handedness>)
      modifies this
      ensures axes == SetHands(old(axes), hands, target)
      ensures buttons == SetHands(old(buttons), hands, target)
    {
      for k := 0 to |hands|
        invariant axes == SetHands(old(axes), hands[..k], target)
        invariant buttons == SetHands(old(buttons), hands[..k], target)
      {
        assert hands[..k + 1][..k] == hands[..k];
        axes := axes[hands[k] := target];
        buttons := buttons[hands[k] := target];
      }
      assert hands[..|hands|] == hands;
    }

    method Release(hands: seq<Handedness>)
      modifies this
      ensures axes == SetHands(old(axes), hands, UndefinedEntity)
      ensures buttons == SetHands(old(buttons), hands, UndefinedEntity)
      ensures forall h :: h in hands ==> (CapturedFor(buttons, h) == UndefinedEntity
                                          && CapturedFor(axes, h) == UndefinedEntity)
    {
      for k := 0 to |hands|
        invariant axes == SetHands(old(axes), hands[..k], UndefinedEntity)
        invariant buttons == SetHands(old(buttons), hands[..k], UndefinedEntity)
      {
        assert hands[..k + 1][..k] == hands[..k];
        axes := axes[hands[k] := UndefinedEntity];
        buttons := buttons[hands[k] := UndefinedEntity];
      }
      assert hands[..|hands|] == hands;
      forall h | h in hands
        ensures CapturedFor(buttons, h) == UndefinedEntity && CapturedFor(axes, h) == UndefinedEntity
      {
        SetHandsAt(old(buttons), hands, UndefinedEntity, h);
        SetHandsAt(old(axes), hands, UndefinedEntity, h);
      }
    }
  }

  // ---------------------------------------------------------------------------
  // A sink's reverse list of input sources (InputComponent.inputSources)

  predicate NoDuplicates(l: seq<Entity>)
  {
    forall i, j :: 0 <= i < j < |l| ==> l[i] != l[j]
  }

  /** `indexOf(x) === -1 && list.merge([x])`: append only if absent. */
  function AddIfAbsent(l: seq<Entity>, x: Entity): (r: seq<Entity>)
    ensures x in r
    ensures forall y :: y in r <==> y in l || y == x
    ensures x in l ==> r == l
    ensures NoDuplicates(l) ==> NoDuplicates(r)
  {
    if x in l then l else l + [x]
  }

  /** `idx > -1 && list[idx].set(none)`: drop the first occurrence, if any. */
  function RemoveFirst(l: seq<Entity>, x: Entity): (r: seq<Entity>)
    ensures forall y :: y != x ==> (y in r <==> y in l)
    ensures NoDuplicates(l) ==> NoDuplicates(r) && x !in r
    ensures x in l ==> |r| == |l| - 1
    ensures x !in l ==> r == l
  {
    if l == [] then []
    else if l[0] == x then l[1..]
    else
      var rest := RemoveFirst(l[1..], x);
      assert NoDuplicates(l) ==> l[0] !in l[1..] && NoDuplicates(l[1..]);
      assert NoDuplicates(l) ==> NoDuplicates([l[0]] + rest);
      [l[0]] + rest
  }

  /** The mount effect of InputSourceAssignmentReactor for `sink`: nothing when
      the sink has no InputComponent. */
  function Link(sinks: map<Entity, seq<Entity>>, src: Entity, sink: Entity): map<Entity, seq<Entity>>
  {
    if sink !in sinks then sinks else sinks[sink := AddIfAbsent(sinks[sink], src)]
  }

  /** The cleanup of that effect, run when the assignment changes or the source goes. */
  function Unlink(sinks: map<Entity, seq<Entity>>, src: Entity, sink: Entity): map<Entity, seq<Entity>>
  {
    if sink !in sinks then sinks else sinks[sink := RemoveFirst(sinks[sink], src)]
  }

  predicate AllNoDuplicates(sinks: map<Entity, seq<Entity>>)
  {
    forall t :: t in sinks ==> NoDuplicates(sinks[t])
  }

  /** Re-keying one channel's reactor from sink `x` to sink `y` (cleanup of the
      old, then mount of the new): afterwards `x` does not list the source and
      `y` lists it exactly once; lists stay free of duplicates. */
  lemma Reassign(sinks: map<Entity, seq<Entity>>, src: Entity, x: Entity, y: Entity)
    requires AllNoDuplicates(sinks)
    requires x != y && x in sinks && y in sinks
    ensures var r := Link(Unlink(sinks, src, x), src, y);
      && AllNoDuplicates(r)
      && src !in r[x]
      && multiset(r[y])[src] == 1
      && forall t :: t in sinks && t != x && t != y ==> t in r && r[t] == sinks[t]
  {
    var r := Link(Unlink(sinks, src, x), src, y);
    assert src in r[y];
    var i :| 0 <= i < |r[y]| && r[y][i] == src;
    assert multiset(r[y])[src] == 1 by {
      OnlyOnce(r[y], i);
    }
  }

  lemma {:induction false} OnlyOnce(l: seq<Entity>, i: int)
    requires NoDuplicates(l) && 0 <= i < |l|
    ensures multiset(l)[l[i]] == 1
  {
    if |l| > 1 {
      var last := |l| - 1;
      var init := l[..last];
      assert l == init + [l[last]];
      if i < last {
        OnlyOnce(init, i);
        assert init[i] == l[i];
      } else {
        assert l[i] !in init;
        assert multiset(init)[l[i]] == 0;
      }
    } else {
      assert l == [l[i]];
    }
  }

  // ---------------------------------------------------------------------------
  // The isAssigned queries

  /** `inputSources.find(...)`: the first listed source whose component holds
      `t` on the chosen channel. */
  function FindAssigned(sources: map<Entity, InputSource>, l: seq<Entity>, t: Entity, buttons: bool): (r: Option<Entity>)
    ensures r.Some? ==> r.value in l && AssignedTo(sources, r.value, t, buttons)
    ensures r.None? <==> forall j :: 0 <= j < |l| ==> !AssignedTo(sources, l[j], t, buttons)
  {
    if l == [] then None
    else if AssignedTo(sources, l[0], t, buttons) then Some(l[0])
    else FindAssigned(sources, l[1..], t, buttons)
  }

  predicate AssignedTo(sources: map<Entity, InputSource>, s: Entity, t: Entity, buttons: bool)
  {
    s in sources && (if buttons then sources[s].assignedButtonEntity else sources[s].assignedAxesEntity) == t
  }

  /** isAssignedButtons: some source on `t`'s list has its button channel on `t`;
      false when `t` has no InputComponent. (`!!` of the found entity, so a
      listed UndefinedEntity would read as false.) */
  function IsAssignedButtons(sources: map<Entity, InputSource>, sinks: map<Entity, seq<Entity>>, t: Entity): (r: bool)
    ensures t !in sinks ==> !r
    ensures r ==> exists j :: 0 <= j < |sinks[t]| && AssignedTo(sources, sinks[t][j], t, true)
    ensures t in sinks && UndefinedEntity !in sinks[t] ==>
              (r <==> exists j :: 0 <= j < |sinks[t]| && AssignedTo(sources, sinks[t][j], t, true))
  {
    t in sinks && var f := FindAssigned(sources, sinks[t], t, true); f.Some? && f.value != UndefinedEntity
  }

  /** isAssignedAxes, the same query on the axes channel. */
  function IsAssignedAxes(sources: map<Entity, InputSource>, sinks: map<Entity, seq<Entity>>, t: Entity): (r: bool)
    ensures t !in sinks ==> !r
    ensures r ==> exists j :: 0 <= j < |sinks[t]| && AssignedTo(sources, sinks[t][j], t, false)
    ensures t in sinks && UndefinedEntity !in sinks[t] ==>
              (r <==> exists j :: 0 <= j < |sinks[t]| && AssignedTo(sources, sinks[t][j], t, false))
  {
    t in sinks && var f := FindAssigned(sources, sinks[t], t, false); f.Some? && f.value != UndefinedEntity
  }

  /** The two channels share one reverse list but each has its own reactor: a
      source whose buttons and axes are both on sink `x` loses its place on
      `x`'s list when only its buttons move on, so `x` no longer reads as
      assigned on the axes channel though the source's axes still point at it. */
  lemma ButtonMoveDropsAxesLink(sources: map<Entity, InputSource>, sinks: map<Entity, seq<Entity>>,
                                src: Entity, x: Entity, y: Entity)
    requires src != UndefinedEntity && x != y && x in sinks && y in sinks
    requires sinks[x] == [src] && src in sources
    requires sources[src].assignedAxesEntity == x
    ensures AssignedTo(sources, src, x, false)
    ensures !IsAssignedAxes(sources, Link(Unlink(sinks, src, x), src, y), x)
  {
    var r := Link(Unlink(sinks, src, x), src, y);
    assert r[x] == [];
  }

  // ---------------------------------------------------------------------------
  // The component tables

  class InputWorld {
    /** InputSourceComponent */
    var sources: map<Entity, InputSource>
    /** InputComponent.inputSources, per sink entity that has an InputComponent */
    var sinks: map<Entity, seq<Entity>>
    /** InputSourceButtonsCapturedComponent, InputSourceAxesCapturedComponent */
    var buttonsCaptured: set<Entity>
    var axesCaptured: set<Entity>
    /** XRSpaceComponent, XRHandComponent */
    var xrSpaces: set<Entity>
    var xrHands: set<Entity>
    /** InputSourceComponent.entitiesByInputSource, keyed by source handle */
    var entitiesByInputSource: map<nat, Entity>

    constructor ()
      ensures sources == map[] && sinks == map[] && buttonsCaptured == {} && axesCaptured == {}
      ensures xrSpaces == {} && xrHands == {} && entitiesByInputSource == map[]
    {
      sources := map[];
      sinks := map[];
      buttonsCaptured := {};
      axesCaptured := {};
      xrSpaces := {};
      xrHands := {};
      entitiesByInputSource := map[];
    }

    /** setComponent(e, InputSourceComponent, args): onInit for a new
        component (no buttons, both assignments UndefinedEntity), then onSet.
        Only a real source with a target-ray space is registered; its base
        reference space must exist, otherwise onSet throws (`ok` false) after
        the registration. `localFloor`/`viewer` say which reference spaces exist. */
    method SetInputSource(e: Entity, args: InputSourceArgs, localFloor: bool, viewer: bool) returns (ok: bool)
      modifies this
      ensures e in sources && sources[e].source == SourceFor(args)
      ensures e !in old(sources) ==> (sources[e].buttons == map[]
                                      && sources[e].assignedButtonEntity == UndefinedEntity
                                      && sources[e].assignedAxesEntity == UndefinedEntity)
      ensures e in old(sources) ==> sources[e] == old(sources)[e].(source := SourceFor(args))
      ensures forall o :: o in old(sources) && o != e ==> o in sources && sources[o] == old(sources)[o]
      ensures sources.Keys == old(sources).Keys + {e}
      ensures var registered := args.source.Some? && args.source.value.hasTargetRaySpace;
        && (registered ==> entitiesByInputSource == old(entitiesByInputSource)[args.source.value.handle := e])
        && (!registered ==> entitiesByInputSource == old(entitiesByInputSource))
        && (!ok <==> registered && !(if args.source.value.targetRayMode == TrackedPointer then localFloor else viewer))
        && xrSpaces == (if registered && ok then old(xrSpaces) + {e} else old(xrSpaces))
      ensures xrHands == (if ok && SourceFor(args).hasHand then old(xrHands) + {e} else old(xrHands))
      ensures sinks == old(sinks) && buttonsCaptured == old(buttonsCaptured) && axesCaptured == old(axesCaptured)
    {
      var source := SourceFor(args);
      if e in sources {
        sources := sources[e := sources[e].(source := source)];
      } else {
        sources := sources[e := InputSource(source, map[], UndefinedEntity, UndefinedEntity)];
      }
      if args.source.Some? && args.source.value.hasTargetRaySpace {
        entitiesByInputSource := entitiesByInputSource[args.source.value.handle := e];
        var baseSpace := if args.source.value.targetRayMode == TrackedPointer then localFloor else viewer;
        if !baseSpace {
          return false;
        }
        xrSpaces := xrSpaces + {e};
      }
      if source.hasHand {
        xrHands := xrHands + {e};
      }
      ok := true;
    }

    /** The reactor's button-capture effect for source `e`: a non-zero capture
        for its hand marks it captured and assigns its buttons to the capture;
        otherwise the marker goes and the assignment stays. */
    method SyncButtonCapture(e: Entity, capture: CaptureState)
      requires e in sources
      modifies this
      ensures var captured := CapturedFor(capture.buttons, old(sources)[e].source.handedness);
        && (captured != UndefinedEntity ==>
              buttonsCaptured == old(buttonsCaptured) + {e}
              && sources == old(sources)[e := old(sources)[e].(assignedButtonEntity := captured)])
        && (captured == UndefinedEntity ==>
              buttonsCaptured == old(buttonsCaptured) - {e} && sources == old(sources))
      ensures axesCaptured == old(axesCaptured) && sinks == old(sinks)
      ensures xrSpaces == old(xrSpaces) && xrHands == old(xrHands)
      ensures entitiesByInputSource == old(entitiesByInputSource)
    {
      var captured := CapturedFor(capture.buttons, sources[e].source.handedness);
      if captured != UndefinedEntity {
        buttonsCaptured := buttonsCaptured + {e};
        sources := sources[e := sources[e].(assignedButtonEntity := captured)];
      } else {
        buttonsCaptured := buttonsCaptured - {e};
      }
    }

    /** The reactor's axes-capture effect, symmetric to SyncButtonCapture. */
    method SyncAxesCapture(e: Entity, capture: CaptureState)
      requires e in sources
      modifies this
      ensures var captured := CapturedFor(capture.axes, old(sources)[e].source.handedness);
        && (captured != UndefinedEntity ==>
              axesCaptured == old(axesCaptured) + {e}
              && sources == old(sources)[e := old(sources)[e].(assignedAxesEntity := captured)])
        && (captured == UndefinedEntity ==>
              axesCaptured == old(axesCaptured) - {e} && sources == old(sources))
      ensures buttonsCaptured == old(buttonsCaptured) && sinks == old(sinks)
      ensures xrSpaces == old(xrSpaces) && xrHands == old(xrHands)
      ensures entitiesByInputSource == old(entitiesByInputSource)
    {
      var captured := CapturedFor(capture.axes, sources[e].source.handedness);
      if captured != UndefinedEntity {
        axesCaptured := axesCaptured + {e};
        sources := sources[e := sources[e].(assignedAxesEntity := captured)];
      } else {
        axesCaptured := axesCaptured - {e};
      }
    }

    /** InputSourceAssignmentReactor mounting for sink `t`: add the source to
        `t`'s list if absent; nothing when `t` has no InputComponent. */
    method LinkSource(src: Entity, t: Entity)
      modifies this
      ensures sinks == Link(old(sinks), src, t)
      ensures t in sinks ==> src in sinks[t]
      ensures AllNoDuplicates(old(sinks)) ==> AllNoDuplicates(sinks)
      ensures sources == old(sources) && buttonsCaptured == old(buttonsCaptured) && axesCaptured == old(axesCaptured)
    {
      if t !in sinks {
        return;
      }
      var l := sinks[t];
      if src !in l {
        sinks := sinks[t := l + [src]];
      }
    }

    /** The reactor's cleanup for sink `t`: remove the source if present. */
    method UnlinkSource(src: Entity, t: Entity)
      modifies this
      ensures sinks == Unlink(old(sinks), src, t)
      ensures AllNoDuplicates(old(sinks)) ==> AllNoDuplicates(sinks) && (t in sinks ==> src !in sinks[t])
      ensures sources == old(sources) && buttonsCaptured == old(buttonsCaptured) && axesCaptured == old(axesCaptured)
    {
      if t !in sinks {
        return;
      }
      sinks := sinks[t := RemoveFirst(sinks[t], src)];
    }
  }
}
