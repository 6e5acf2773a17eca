/**
 * ClientInputSystem.tsx: per-frame reconciliation of gamepad snapshots into
 * button-state maps, the source-to-sink resolution of `execute`, and the
 * keyboard, mouse, pointer-clear, touch-pad and XR-select handlers.
 *
 * Hit tests are inputs: for each source a frame supplies the candidates each
 * tier would see, already in the order the engine's queries yield them.
 */
module ClientInputSystem {
  import opened Wrappers
  import opened ButtonState
  import opened InputSourceComponent

  // ---------------------------------------------------------------------------
  // updateGamepadInput

  predicate Active(b: GamepadButton)
  {
    b.pressed || b.touched
  }

  /** The new state at one index given its previous state and the snapshot. */
  function ReconcileButton(prev: Option<ButtonState>, b: GamepadButton): (r: Option<ButtonState>)
    ensures r.None? <==> prev.None? && !Active(b)
    ensures Active(b) ==> r.value.pressed == b.pressed && r.value.touched == b.touched && r.value.value == b.value
    ensures Active(b) && prev.Some? ==> r.value.up == prev.value.up
    ensures !Active(b) && prev.Some? ==> r == Some(prev.value.(up := true))
  {
    if Active(b) then
      var s := if prev.Some? then prev.value else InitialButtonState(Some(b));
      Some(s.(down := if !s.pressed && b.pressed then true else s.down,
              pressed := b.pressed, touched := b.touched, value := b.value))
    else if prev.Some? then Some(prev.value.(up := true))
    else None
  }

  /** `down` appears only on a not-pressed to pressed transition (or on the
      creation of a pressed button); `up` appears only on release of a tracked
      button; a fresh button never starts with `up`. */
  lemma EdgesOnlyOnTransitions(prev: Option<ButtonState>, b: GamepadButton)
    ensures var r := ReconcileButton(prev, b);
      && (r.Some? && r.value.down && !(prev.Some? && prev.value.down) ==>
            b.pressed && !(prev.Some? && prev.value.pressed))
      && (r.Some? && r.value.up && !(prev.Some? && prev.value.up) ==> prev.Some? && !Active(b))
      && (prev.Some? && !prev.value.pressed && b.pressed ==> r.value.down)
  {
  }

  /** The state at key `k` after a snapshot with buttons `bs`. */
  function ReconciledAt(m: ButtonStateMap, bs: seq<GamepadButton>, k: ButtonKey): Option<ButtonState>
  {
    if k.Index? && k.i < |bs| then ReconcileButton(Get(m, k), bs[k.i]) else Get(m, k)
  }

  function IndexKeys(n: nat): set<ButtonKey>
  {
    set i | 0 <= i < n :: Index(i)
  }

  /** The map after a snapshot: indices the snapshot covers are reconciled,
      every other key is left alone. No gamepad, or a gamepad without a
      `buttons` list, leaves the map unchanged. */
  function GamepadInput(m: ButtonStateMap, gamepad: Option<Gamepad>): (r: ButtonStateMap)
    ensures gamepad.None? || gamepad.value.buttons.None? ==> r == m
    ensures gamepad.Some? && gamepad.value.buttons.Some? ==>
              forall k :: Get(r, k) == ReconciledAt(m, gamepad.value.buttons.value, k)
  {
    if gamepad.None? || gamepad.value.buttons.None? then m
    else
      var bs := gamepad.value.buttons.value;
      var r := map k | k in m.Keys + IndexKeys(|bs|) && ReconciledAt(m, bs, k).Some? :: ReconciledAt(m, bs, k).value;
      assert forall k :: Get(r, k) == ReconciledAt(m, bs, k) by {
        forall k ensures Get(r, k) == ReconciledAt(m, bs, k) {
          if k.Index? && k.i < |bs| {
            assert k in IndexKeys(|bs|);
          }
        }
      }
      r
  }

  lemma SameGets(a: ButtonStateMap, b: ButtonStateMap)
    requires forall k :: Get(a, k) == Get(b, k)
    ensures a == b
  {
    assert forall k :: k in a <==> k in b by {
      forall k ensures k in a <==> k in b {
        assert Get(a, k) == Get(b, k);
      }
    }
    assert a.Keys == b.Keys;
    forall k | k in a ensures a[k] == b[k] {
      assert Get(a, k) == Get(b, k);
    }
  }

  /** updateGamepadInput's loop over the snapshot's buttons. */
  method UpdateGamepadInput(buttons: ButtonStateMap, gamepad: Option<Gamepad>) returns (r: ButtonStateMap)
    ensures r == GamepadInput(buttons, gamepad)
  {
    r := buttons;
    if gamepad.None? {
      return;
    }
    if gamepad.value.buttons.None? {
      return;
    }
    var bs := gamepad.value.buttons.value;
    for i := 0 to |bs|
      invariant forall k :: Get(r, k) == (if k.Index? && k.i < i then ReconcileButton(Get(buttons, k), bs[k.i]) else Get(buttons, k))
    {
      var button := bs[i];
      if Index(i) !in r && (button.pressed || button.touched) {
        r := r[Index(i) := InitialButtonState(Some(button))];
      }
      if Index(i) in r && (button.pressed || button.touched) {
        var s := r[Index(i)];
        if !s.pressed && button.pressed {
          s := s.(down := true);
        }
        r := r[Index(i) := s.(pressed := button.pressed, touched := button.touched, value := button.value)];
      } else if Index(i) in r {
        r := r[Index(i) := r[Index(i)].(up := true)];
      }
    }
    SameGets(r, GamepadInput(buttons, gamepad));
  }

  /** An untracked button is created only when the snapshot reports it pressed
      or touched; keys at or beyond the snapshot's length, and named keys,
      are untouched. */
  lemma GamepadCreatesOnlyActive(m: ButtonStateMap, g: Gamepad, k: ButtonKey)
    requires g.buttons.Some?
    ensures var r := GamepadInput(m, Some(g));
      && (k !in m && k in r ==> k.Index? && k.i < |g.buttons.value| && Active(g.buttons.value[k.i]))
      && (!(k.Index? && k.i < |g.buttons.value|) ==> Get(r, k) == Get(m, k))
  {
    assert Get(GamepadInput(m, Some(g)), k) == ReconciledAt(m, g.buttons.value, k);
  }

  /** Pressing and then releasing a gamepad button over two frames yields a
      state that went down in the first frame and up in the second. */
  lemma GamepadPressThenRelease(m: ButtonStateMap, i: nat, g1: Gamepad, g2: Gamepad)
    requires Index(i) !in m
    requires g1.buttons.Some? && i < |g1.buttons.value| && g1.buttons.value[i].pressed
    requires g2.buttons.Some? && i < |g2.buttons.value| && !Active(g2.buttons.value[i])
    ensures var m1 := GamepadInput(m, Some(g1));
      && Index(i) in m1 && m1[Index(i)].down && m1[Index(i)].pressed && !m1[Index(i)].up
      && var m2 := GamepadInput(m1, Some(g2));
         Index(i) in m2 && m2[Index(i)] == m1[Index(i)].(up := true)
  {
    var m1 := GamepadInput(m, Some(g1));
    assert Get(m1, Index(i)) == ReconciledAt(m, g1.buttons.value, Index(i));
    var m2 := GamepadInput(m1, Some(g2));
    assert Get(m2, Index(i)) == ReconciledAt(m1, g2.buttons.value, Index(i));
  }

  // ---------------------------------------------------------------------------
  // Source-to-sink resolution

  datatype Distance = Infinity | Finite(d: real)

  /** `d < hitDistance` */
  predicate Closer(d: real, best: Distance)
  {
    best.Infinity? || d < best.d
  }

  /** `a` is no farther than `b`. */
  predicate NoFarther(a: Distance, b: Distance)
  {
    b.Infinity? || (a.Finite? && a.d <= b.d)
  }

  /** The running best `(assignedInputEntity, hitDistance)`. */
  datatype Assignment = Assignment(entity: Entity, distance: Distance)

  const NoAssignment := Assignment(UndefinedEntity, Infinity)

  /** What an XRUI layer's hitTest reports: the hit object's visibility, its
      material's opacity (None: no material), and the intersection distance. */
  datatype LayerHit = LayerHit(visible: bool, opacity: Option<real>, distance: real)

  /** A physics or scene hit: the entity it resolves to and its distance. */
  datatype Hit = Hit(entity: Entity, distance: real)

  /** The hit candidates one source sees in a frame. `editor`: the nearest
      scene-object hit, its entity being that of the hit object's ancestor
      directly under the scene (UndefinedEntity when that has none);
      `layers`: per XRUI entity, its layer hit if any; `physics`: the first
      ray-cast hit, None also when there is no physics world; `boxes`: per
      bounding-box entity, the distance to its box if the ray hits it. */
  datatype Candidates = Candidates(editor: Option<Hit>, layers: seq<(Entity, Option<LayerHit>)>,
                                   physics: Option<Hit>, boxes: seq<(Entity, Option<real>)>)

  /** A layer hit the XRUI scan passes over: invisible, or a material with
      opacity below 0.01 (no material does not skip). */
  predicate Skipped(h: LayerHit)
  {
    !h.visible || (h.opacity.Some? && h.opacity.value < 0.01)
  }

  predicate LayerOffers(layers: seq<(Entity, Option<LayerHit>)>, a: Assignment)
  {
    a.distance.Finite? &&
    exists i :: 0 <= i < |layers| && layers[i].0 == a.entity && layers[i].1.Some?
                && !Skipped(layers[i].1.value) && layers[i].1.value.distance == a.distance.d
  }

  predicate BoxOffers(boxes: seq<(Entity, Option<real>)>, a: Assignment)
  {
    a.distance.Finite? && exists i :: 0 <= i < |boxes| && boxes[i] == (a.entity, Some(a.distance.d))
  }

  /** The XRUI tier: the first layer that is hit and not skipped ends the
      scan, and replaces the best if strictly nearer. */
  function LayerTier(layers: seq<(Entity, Option<LayerHit>)>, best: Assignment): (r: Assignment)
    ensures r == best || LayerOffers(layers, r)
    ensures NoFarther(r.distance, best.distance)
    decreases |layers|
  {
    if layers == [] then best
    else if layers[0].1.None? || Skipped(layers[0].1.value) then
      var r := LayerTier(layers[1..], best);
      assert r != best ==> LayerOffers(layers, r) by {
        if r != best {
          var i :| 0 <= i < |layers[1..]| && layers[1..][i].0 == r.entity && layers[1..][i].1.Some?
                   && !Skipped(layers[1..][i].1.value) && layers[1..][i].1.value.distance == r.distance.d;
          assert layers[i + 1] == layers[1..][i];
        }
      }
      r
    else if Closer(layers[0].1.value.distance, best.distance) then
      Assignment(layers[0].0, Finite(layers[0].1.value.distance))
    else best
  }

  /** The physics tier: the first ray-cast hit replaces the best if strictly nearer. */
  function PhysicsTier(hit: Option<Hit>, best: Assignment): (r: Assignment)
    ensures r == best || (hit.Some? && r == Assignment(hit.value.entity, Finite(hit.value.distance)))
    ensures NoFarther(r.distance, best.distance)
  {
    if hit.Some? && Closer(hit.value.distance, best.distance) then
      Assignment(hit.value.entity, Finite(hit.value.distance))
    else best
  }

  /** The bounding-box tier: the first box that is hit strictly nearer than
      the best replaces it and ends the scan. */
  function BoxTier(boxes: seq<(Entity, Option<real>)>, best: Assignment): (r: Assignment)
    ensures r == best || BoxOffers(boxes, r)
    ensures NoFarther(r.distance, best.distance)
    decreases |boxes|
  {
    if boxes == [] then best
    else if boxes[0].1.Some? && Closer(boxes[0].1.value, best.distance) then
      Assignment(boxes[0].0, Finite(boxes[0].1.value))
    else
      var r := BoxTier(boxes[1..], best);
      assert r != best ==> BoxOffers(boxes, r) by {
        if r != best {
          var i :| 0 <= i < |boxes[1..]| && boxes[1..][i] == (r.entity, Some(r.distance.d));
          assert boxes[i + 1] == boxes[1..][i];
        }
      }
      r
  }

  /** The editor heuristic: the nearest scene hit, when its ancestor has an entity. */
  function EditorTier(hit: Option<Hit>, best: Assignment): Assignment
  {
    if hit.Some? && Closer(hit.value.distance, best.distance) && hit.value.entity != UndefinedEntity then
      Assignment(hit.value.entity, Finite(hit.value.distance))
    else best
  }

  /** The sink a source resolves to: UndefinedEntity at infinite distance when
      nothing is hit, otherwise an entity some candidate offered at that
      distance; at runtime never farther than the XRUI tier's pick. */
  function Resolve(isEditor: bool, c: Candidates): (r: Assignment)
    ensures r.distance.Infinity? ==> r == NoAssignment
    ensures isEditor ==> r == NoAssignment
                         || (c.editor == Some(Hit(r.entity, r.distance.d)) && r.entity != UndefinedEntity)
    ensures !isEditor ==> r == NoAssignment || LayerOffers(c.layers, r)
                          || c.physics == Some(Hit(r.entity, r.distance.d)) || BoxOffers(c.boxes, r)
    ensures !isEditor ==> NoFarther(r.distance, LayerTier(c.layers, NoAssignment).distance)
  {
    if isEditor then EditorTier(c.editor, NoAssignment)
    else
      var l := LayerTier(c.layers, NoAssignment);
      var p := PhysicsTier(c.physics, l);
      BoxTier(c.boxes, p)
  }

  /** With no layer candidates in the way, the first layer that is hit and not
      skipped is the XRUI tier's pick, whatever follows it. */
  lemma {:induction false} FirstVisibleLayerWins(layers: seq<(Entity, Option<LayerHit>)>, k: nat)
    requires k < |layers| && layers[k].1.Some? && !Skipped(layers[k].1.value)
    requires forall j :: 0 <= j < k ==> layers[j].1.None? || Skipped(layers[j].1.value)
    ensures LayerTier(layers, NoAssignment) == Assignment(layers[k].0, Finite(layers[k].1.value.distance))
  {
    if k > 0 {
      FirstVisibleLayerWins(layers[1..], k - 1);
    }
  }

  /** The bounding-box scan takes the first box hit strictly nearer than the
      current best, even when a later box is nearer still. */
  lemma {:induction false} FirstCloserBoxWins(boxes: seq<(Entity, Option<real>)>, best: Assignment, k: nat)
    requires k < |boxes| && boxes[k].1.Some? && Closer(boxes[k].1.value, best.distance)
    requires forall j :: 0 <= j < k ==> boxes[j].1.None? || !Closer(boxes[j].1.value, best.distance)
    ensures BoxTier(boxes, best) == Assignment(boxes[k].0, Finite(boxes[k].1.value))
  {
    if k > 0 {
      FirstCloserBoxWins(boxes[1..], best, k - 1);
    }
  }

  lemma {:induction false} NoCloserBoxKeepsBest(boxes: seq<(Entity, Option<real>)>, best: Assignment)
    requires forall j :: 0 <= j < |boxes| ==> boxes[j].1.None? || !Closer(boxes[j].1.value, best.distance)
    ensures BoxTier(boxes, best) == best
  {
    if boxes != [] {
      NoCloserBoxKeepsBest(boxes[1..], best);
    }
  }

  /** Tiers do not dominate one another: a physics hit strictly nearer than
      the XRUI pick overrides it, unless a box is nearer still. */
  lemma NearerPhysicsOverridesLayer(c: Candidates, ui: Entity, dUI: real, hit: Hit)
    requires LayerTier(c.layers, NoAssignment) == Assignment(ui, Finite(dUI))
    requires c.physics == Some(hit) && hit.distance < dUI
    requires forall j :: 0 <= j < |c.boxes| ==> c.boxes[j].1.None? || c.boxes[j].1.value >= hit.distance
    ensures Resolve(false, c) == Assignment(hit.entity, Finite(hit.distance))
  {
    NoCloserBoxKeepsBest(c.boxes, Assignment(hit.entity, Finite(hit.distance)));
  }

  /** A physics hit at exactly the XRUI pick's distance does not replace it:
      ties go to the earlier tier. */
  lemma TieKeepsEarlierTier(c: Candidates, ui: Entity, dUI: real, hit: Hit)
    requires LayerTier(c.layers, NoAssignment) == Assignment(ui, Finite(dUI))
    requires c.physics == Some(hit) && hit.distance == dUI
    requires forall j :: 0 <= j < |c.boxes| ==> c.boxes[j].1.None? || c.boxes[j].1.value >= dUI
    ensures Resolve(false, c) == Assignment(ui, Finite(dUI))
  {
    NoCloserBoxKeepsBest(c.boxes, Assignment(ui, Finite(dUI)));
  }

  /** A UI panel hit at 5 and a collider hit at 1: the collider wins. */
  lemma ColliderInFrontOfPanel()
    ensures var panel: Entity := 7;
            var collider: Entity := 9;
            var c := Candidates(None, [(panel, Some(LayerHit(true, Some(1.0), 5.0)))], Some(Hit(collider, 1.0)), []);
            Resolve(false, c).entity == collider
  {
    var c := Candidates(None, [(7, Some(LayerHit(true, Some(1.0), 5.0)))], Some(Hit(9, 1.0)), []);
    FirstVisibleLayerWins(c.layers, 0);
  }

  /** The resolution step of `execute`, with its early-exiting loops. */
  method ResolveInput(isEditor: bool, c: Candidates) returns (sink: Entity, hitDistance: Distance)
    ensures Assignment(sink, hitDistance) == Resolve(isEditor, c)
  {
    sink := UndefinedEntity;
    hitDistance := Infinity;
    if isEditor {
      if c.editor.Some? && Closer(c.editor.value.distance, hitDistance) {
        if c.editor.value.entity != UndefinedEntity {
          sink := c.editor.value.entity;
          hitDistance := Finite(c.editor.value.distance);
        }
      }
      return;
    }

    var i := 0;
    while i < |c.layers|
      invariant 0 <= i <= |c.layers|
      invariant LayerTier(c.layers, NoAssignment) == LayerTier(c.layers[i..], Assignment(sink, hitDistance))
    {
      var layerHit := c.layers[i].1;
      if layerHit.None? || !layerHit.value.visible || (layerHit.value.opacity.Some? && layerHit.value.opacity.value < 0.01) {
        assert c.layers[i..][1..] == c.layers[i + 1..];
        i := i + 1;
        continue;
      }
      if Closer(layerHit.value.distance, hitDistance) {
        sink := c.layers[i].0;
        hitDistance := Finite(layerHit.value.distance);
      }
      break;
    }
    assert Assignment(sink, hitDistance) == LayerTier(c.layers, NoAssignment);

    if c.physics.Some? {
      var hit := c.physics.value;
      if Closer(hit.distance, hitDistance) {
        sink := hit.entity;
        hitDistance := Finite(hit.distance);
      }
    }
    ghost var afterPhysics := Assignment(sink, hitDistance);

    var j := 0;
    while j < |c.boxes|
      invariant 0 <= j <= |c.boxes|
      invariant Assignment(sink, hitDistance) == afterPhysics
      invariant BoxTier(c.boxes, afterPhysics) == BoxTier(c.boxes[j..], afterPhysics)
    {
      var boxHit := c.boxes[j].1;
      if boxHit.Some? {
        if Closer(boxHit.value, hitDistance) {
          sink := c.boxes[j].0;
          hitDistance := Finite(boxHit.value);
          break;
        }
      }
      assert c.boxes[j..][1..] == c.boxes[j + 1..];
      j := j + 1;
    }
  }

  /** One source's frame: uncaptured channels take the resolved sink (a
      source with both channels captured is not resolved at all), captured
      channels keep their assignment, and the gamepad is reconciled in every case. */
  function FrameStep(src: InputSource, capturedButtons: bool, capturedAxes: bool,
                     isEditor: bool, c: Candidates): (r: InputSource)
    ensures capturedButtons ==> r.assignedButtonEntity == src.assignedButtonEntity
    ensures capturedAxes ==> r.assignedAxesEntity == src.assignedAxesEntity
    ensures !capturedButtons ==> r.assignedButtonEntity == Resolve(isEditor, c).entity
    ensures !capturedAxes ==> r.assignedAxesEntity == Resolve(isEditor, c).entity
    ensures r.source == src.source
    ensures r.buttons == GamepadInput(src.buttons, src.source.gamepad)
  {
    var sink :=
      if capturedButtons && capturedAxes then src
      else
        var e := Resolve(isEditor, c).entity;
        src.(assignedButtonEntity := if capturedButtons then src.assignedButtonEntity else e,
             assignedAxesEntity := if capturedAxes then src.assignedAxesEntity else e);
    sink.(buttons := GamepadInput(sink.buttons, sink.source.gamepad))
  }

  /** A source whose capture reactor ran for a non-zero capture keeps the
      capture's target on that channel through the frame, whatever is hit. */
  lemma CaptureSurvivesFrame(src: InputSource, target: Entity, capturedAxes: bool, isEditor: bool, c: Candidates)
    requires target != UndefinedEntity
    ensures FrameStep(src.(assignedButtonEntity := target), true, capturedAxes, isEditor, c).assignedButtonEntity == target
  {
  }

  /** The assignment loop of `execute` over every input source. `order` is the
      source query's order; `hits` gives each source's candidates. */
  method Execute(w: InputWorld, order: seq<Entity>, isEditor: bool, hits: Entity -> Candidates)
    requires NoDuplicates(order)
    requires forall e :: e in order <==> e in w.sources
    modifies w
    ensures w.sources.Keys == old(w.sources).Keys
    ensures forall e :: e in w.sources ==>
              w.sources[e] == FrameStep(old(w.sources)[e], e in w.buttonsCaptured, e in w.axesCaptured, isEditor, hits(e))
    ensures w.sinks == old(w.sinks) && w.buttonsCaptured == old(w.buttonsCaptured) && w.axesCaptured == old(w.axesCaptured)
    ensures w.xrSpaces == old(w.xrSpaces) && w.xrHands == old(w.xrHands)
    ensures w.entitiesByInputSource == old(w.entitiesByInputSource)
  {
    for n := 0 to |order|
      invariant w.sources.Keys == old(w.sources).Keys
      invariant forall e :: e in w.sources ==>
                  w.sources[e] == if e in order[..n]
                                  then FrameStep(old(w.sources)[e], e in w.buttonsCaptured, e in w.axesCaptured, isEditor, hits(e))
                                  else old(w.sources)[e]
      invariant w.sinks == old(w.sinks) && w.buttonsCaptured == old(w.buttonsCaptured) && w.axesCaptured == old(w.axesCaptured)
      invariant w.xrSpaces == old(w.xrSpaces) && w.xrHands == old(w.xrHands)
      invariant w.entitiesByInputSource == old(w.entitiesByInputSource)
    {
      var e := order[n];
      assert e !in order[..n] by {
        forall j | 0 <= j < n ensures order[j] != e {}
      }
      var capturedButtons := e in w.buttonsCaptured;
      var capturedAxes := e in w.axesCaptured;
      var src := w.sources[e];
      if !capturedButtons || !capturedAxes {
        var sink, _ := ResolveInput(isEditor, hits(e));
        if !capturedButtons {
          src := src.(assignedButtonEntity := sink);
        }
        if !capturedAxes {
          src := src.(assignedAxesEntity := sink);
        }
      }
      var buttons := UpdateGamepadInput(src.buttons, src.source.gamepad);
      w.sources := w.sources[e := src.(buttons := buttons)];
      assert order[..n + 1] == order[..n] + [e];
    }
    assert order[..|order|] == order;
  }

  // ---------------------------------------------------------------------------
  // Button-state handlers

  /** A press of a named button: a fresh initial state, replacing any existing one. */
  function Press(buttons: ButtonStateMap, k: ButtonKey): (r: ButtonStateMap)
    ensures k in r && r[k] == InitialButtonState(None) && r[k].down && r[k].pressed && !r[k].up
    ensures forall k' :: k' != k ==> Get(r, k') == Get(buttons, k')
  {
    buttons[k := InitialButtonState(None)]
  }

  /** A release of a named button: `up` only if the button is tracked. */
  function Release(buttons: ButtonStateMap, k: ButtonKey): (r: ButtonStateMap)
    ensures k !in buttons ==> r == buttons
    ensures k in buttons ==> k in r && r[k] == buttons[k].(up := true)
    ensures forall k' :: k' != k ==> Get(r, k') == Get(buttons, k')
  {
    if k in buttons then buttons[k := buttons[k].(up := true)] else buttons
  }

  /** A release after a press leaves a pressed button marked `up`; releasing
      twice is releasing once. */
  lemma PressThenRelease(buttons: ButtonStateMap, k: ButtonKey)
    ensures var r := Release(Press(buttons, k), k);
      k in r && r[k].pressed && r[k].down && r[k].up
    ensures Release(Release(buttons, k), k) == Release(buttons, k)
  {
  }

  predicate TypingTarget(tagName: Option<string>)
  {
    tagName == Some("INPUT") || tagName == Some("SELECT") || tagName == Some("TEXTAREA")
  }

  /** onKeyEvent on the non-spatial source's map: key-down presses `code`,
      key-up releases it, and events aimed at a text field change nothing. */
  function KeyEvent(buttons: ButtonStateMap, targetTag: Option<string>, code: string, keyDown: bool): (r: ButtonStateMap)
    ensures TypingTarget(targetTag) ==> r == buttons
    ensures !TypingTarget(targetTag) && keyDown ==> r == Press(buttons, Named(code))
    ensures !TypingTarget(targetTag) && !keyDown ==> r == Release(buttons, Named(code))
    ensures forall k :: k != Named(code) ==> Get(r, k) == Get(buttons, k)
  {
    if TypingTarget(targetTag) then buttons
    else if keyDown then Press(buttons, Named(code))
    else Release(buttons, Named(code))
  }

  datatype MouseEventType = MouseDown | MouseUp | TouchStart | TouchEnd

  /** The named button a MouseEvent's `button` number stands for. */
  function MouseKey(button: int): (k: ButtonKey)
    ensures k == AuxiliaryClick <==> button == 1
    ensures k == SecondaryClick <==> button == 2
    ensures k == PrimaryClick <==> button != 1 && button != 2
  {
    if button == 1 then AuxiliaryClick
    else if button == 2 then SecondaryClick
    else PrimaryClick
  }

  /** handleMouseClick on the emulated pointer's map: mousedown and touchstart press. */
  function MouseClick(buttons: ButtonStateMap, eventType: MouseEventType, button: int): (r: ButtonStateMap)
    ensures eventType in {MouseDown, TouchStart} ==> r == Press(buttons, MouseKey(button))
    ensures eventType in {MouseUp, TouchEnd} ==> r == Release(buttons, MouseKey(button))
  {
    if eventType == MouseDown || eventType == TouchStart then Press(buttons, MouseKey(button))
    else Release(buttons, MouseKey(button))
  }

  const PointerButtons: seq<ButtonKey> := [PrimaryClick, AuxiliaryClick, SecondaryClick]

  /** A pressed button that is not yet `up` gets `up`. */
  function ClearOne(s: Option<ButtonState>): Option<ButtonState>
  {
    if s.Some? && !s.value.up && s.value.pressed then Some(s.value.(up := true)) else s
  }

  /** The map after clearPointerState: the three pointer buttons are cleared,
      no other key changes, and no key appears or disappears. */
  function PointerCleared(buttons: ButtonStateMap): (r: ButtonStateMap)
    ensures r.Keys == buttons.Keys
    ensures forall k :: Get(r, k) == if k in PointerButtons then ClearOne(Get(buttons, k)) else Get(buttons, k)
  {
    map k | k in buttons :: if k in PointerButtons then ClearOne(Get(buttons, k)).value else buttons[k]
  }

  /** Clearing leaves no pressed pointer button without `up`, and clearing
      twice is clearing once. */
  lemma PointerClearedSettles(buttons: ButtonStateMap)
    ensures forall k :: k in PointerButtons && k in PointerCleared(buttons) && PointerCleared(buttons)[k].pressed
                        ==> PointerCleared(buttons)[k].up
    ensures PointerCleared(PointerCleared(buttons)) == PointerCleared(buttons)
  {
    var once := PointerCleared(buttons);
    forall k ensures Get(PointerCleared(once), k) == Get(once, k) {
      assert Get(once, k) == if k in PointerButtons then ClearOne(Get(buttons, k)) else Get(buttons, k);
    }
    SameGets(PointerCleared(once), once);
  }

  /** clearPointerState's loop over the pointer buttons. */
  method ClearPointerState(buttons: ButtonStateMap) returns (r: ButtonStateMap)
    ensures r == PointerCleared(buttons)
  {
    r := buttons;
    for n := 0 to |PointerButtons|
      invariant forall k :: Get(r, k) == if k in PointerButtons[..n] then ClearOne(Get(buttons, k)) else Get(buttons, k)
    {
      var button := PointerButtons[n];
      if button in r && !r[button].up && r[button].pressed {
        r := r[button := r[button].(up := true)];
      }
    }
    assert PointerButtons[..|PointerButtons|] == PointerButtons;
    SameGets(r, PointerCleared(buttons));
  }

  /** The first of the two axes a touch stick writes: 0 for "LeftStick",
      2 for any other stick name. */
  function StickIndex(stick: string): nat
  {
    if stick == "LeftStick" then 0 else 2
  }

  /** The emulated gamepad's axes after handleTouchDirectionalPad; an empty
      stick name changes nothing. */
  function StickAxes(axes: seq<real>, stick: string, x: real, y: real): (r: seq<real>)
    requires |axes| >= 4
    ensures |r| == |axes|
    ensures stick == "" ==> r == axes
    ensures stick != "" ==> r[StickIndex(stick)] == x && r[StickIndex(stick) + 1] == y
    ensures forall i :: 0 <= i < |axes| && (stick == "" || (i != StickIndex(stick) && i != StickIndex(stick) + 1))
                        ==> r[i] == axes[i]
  {
    if stick == "" then axes
    else axes[StickIndex(stick) := x][StickIndex(stick) + 1 := y]
  }

  /** The two sticks write disjoint axes, so their updates commute. */
  lemma SticksCommute(axes: seq<real>, lx: real, ly: real, rx: real, ry: real)
    requires |axes| >= 4
    ensures StickAxes(StickAxes(axes, "LeftStick", lx, ly), "RightStick", rx, ry)
            == StickAxes(StickAxes(axes, "RightStick", rx, ry), "LeftStick", lx, ly)
  {
    var a := StickAxes(StickAxes(axes, "LeftStick", lx, ly), "RightStick", rx, ry);
    var b := StickAxes(StickAxes(axes, "RightStick", rx, ry), "LeftStick", lx, ly);
    assert forall i :: 0 <= i < |a| ==> a[i] == b[i];
  }

  /** XR select events address a source by its platform object. As written,
      both onXRSelectStart and onXRSelectEnd use the Entity looked up in
      `entitiesByInputSource` as if it were the component: its `buttons` is
      undefined, so the write of `PrimaryClick` (select start) and its read
      (select end) throw. None stands for the thrown TypeError. */
  function SelectAsWritten(byHandle: map<nat, Entity>, sources: map<Entity, InputSource>, handle: nat)
    : (r: Option<map<Entity, InputSource>>)
    ensures handle !in byHandle || byHandle[handle] == UndefinedEntity ==> r == Some(sources)
    ensures handle in byHandle && byHandle[handle] != UndefinedEntity ==> r.None?
  {
    if handle !in byHandle || byHandle[handle] == UndefinedEntity then Some(sources)
    else None
  }

  /** The discrepancy: for a registered source the handlers as written throw,
      while the intended select start leaves its PrimaryClick pressed. */
  lemma SelectAsWrittenNeverPresses(byHandle: map<nat, Entity>, sources: map<Entity, InputSource>, handle: nat)
    requires handle in byHandle && byHandle[handle] != UndefinedEntity && byHandle[handle] in sources
    ensures SelectAsWritten(byHandle, sources, handle).None?
    ensures var e := byHandle[handle];
      var pressed := SelectStart(byHandle, sources, handle)[e].buttons;
      PrimaryClick in pressed && pressed[PrimaryClick].pressed && pressed[PrimaryClick].down
  {
  }

  /** onXRSelectStart as intended: press PrimaryClick on the source's component. */
  function SelectStart(byHandle: map<nat, Entity>, sources: map<Entity, InputSource>, handle: nat)
    : (r: map<Entity, InputSource>)
    ensures r.Keys == sources.Keys
    ensures var e := if handle in byHandle then byHandle[handle] else UndefinedEntity;
      forall o :: o in sources ==>
        r[o] == if o == e && e != UndefinedEntity then sources[o].(buttons := Press(sources[o].buttons, PrimaryClick))
                else sources[o]
  {
    if handle in byHandle && byHandle[handle] != UndefinedEntity && byHandle[handle] in sources then
      var e := byHandle[handle];
      sources[e := sources[e].(buttons := Press(sources[e].buttons, PrimaryClick))]
    else sources
  }

  /** onXRSelectEnd as intended: release PrimaryClick if it is tracked. */
  function SelectEnd(byHandle: map<nat, Entity>, sources: map<Entity, InputSource>, handle: nat)
    : (r: map<Entity, InputSource>)
    ensures r.Keys == sources.Keys
    ensures var e := if handle in byHandle then byHandle[handle] else UndefinedEntity;
      forall o :: o in sources ==>
        r[o] == if o == e && e != UndefinedEntity then sources[o].(buttons := Release(sources[o].buttons, PrimaryClick))
                else sources[o]
  {
    if handle in byHandle && byHandle[handle] != UndefinedEntity && byHandle[handle] in sources then
      var e := byHandle[handle];
      sources[e := sources[e].(buttons := Release(sources[e].buttons, PrimaryClick))]
    else sources
  }

  /** A select start followed by a select end leaves the source's PrimaryClick
      pressed and `up`, the same as a mouse click on the emulated pointer. */
  lemma SelectStartThenEnd(byHandle: map<nat, Entity>, sources: map<Entity, InputSource>, handle: nat)
    requires handle in byHandle && byHandle[handle] != UndefinedEntity && byHandle[handle] in sources
    ensures var e := byHandle[handle];
      var r := SelectEnd(byHandle, SelectStart(byHandle, sources, handle), handle);
      r[e].buttons == MouseClick(MouseClick(sources[e].buttons, MouseDown, 0), MouseUp, 0)
      && r[e].buttons[PrimaryClick].up && r[e].buttons[PrimaryClick].pressed
  {
  }

  // ---------------------------------------------------------------------------
  // The handlers as they update the component tables

  method OnKeyEvent(w: InputWorld, e: Entity, targetTag: Option<string>, code: string, keyDown: bool)
    requires e in w.sources
    modifies w
    ensures w.sources == old(w.sources)[e := old(w.sources)[e].(buttons := KeyEvent(old(w.sources)[e].buttons, targetTag, code, keyDown))]
    ensures w.sinks == old(w.sinks) && w.buttonsCaptured == old(w.buttonsCaptured) && w.axesCaptured == old(w.axesCaptured)
  {
    if targetTag == Some("INPUT") || targetTag == Some("SELECT") || targetTag == Some("TEXTAREA") {
      return;
    }
    var buttons := w.sources[e].buttons;
    if keyDown {
      buttons := buttons[Named(code) := InitialButtonState(None)];
    } else if Named(code) in buttons {
      buttons := buttons[Named(code) := buttons[Named(code)].(up := true)];
    }
    w.sources := w.sources[e := w.sources[e].(buttons := buttons)];
  }

  /** handleMouseClick: nothing once the emulated pointer's component is gone. */
  method HandleMouseClick(w: InputWorld, e: Entity, eventType: MouseEventType, button: int)
    modifies w
    ensures e !in old(w.sources) ==> w.sources == old(w.sources)
    ensures e in old(w.sources) ==>
              w.sources == old(w.sources)[e := old(w.sources)[e].(buttons := MouseClick(old(w.sources)[e].buttons, eventType, button))]
    ensures w.sinks == old(w.sinks) && w.buttonsCaptured == old(w.buttonsCaptured) && w.axesCaptured == old(w.axesCaptured)
  {
    var down := eventType == MouseDown || eventType == TouchStart;
    var key := PrimaryClick;
    if button == 1 {
      key := AuxiliaryClick;
    } else if button == 2 {
      key := SecondaryClick;
    }
    if e !in w.sources {
      return;
    }
    var buttons := w.sources[e].buttons;
    if down {
      buttons := buttons[key := InitialButtonState(None)];
    } else if key in buttons {
      buttons := buttons[key := buttons[key].(up := true)];
    }
    w.sources := w.sources[e := w.sources[e].(buttons := buttons)];
  }

  method ClearPointer(w: InputWorld, e: Entity)
    requires e in w.sources
    modifies w
    ensures w.sources == old(w.sources)[e := old(w.sources)[e].(buttons := PointerCleared(old(w.sources)[e].buttons))]
    ensures w.sinks == old(w.sinks) && w.buttonsCaptured == old(w.buttonsCaptured) && w.axesCaptured == old(w.axesCaptured)
  {
    var buttons := ClearPointerState(w.sources[e].buttons);
    w.sources := w.sources[e := w.sources[e].(buttons := buttons)];
  }

  /** handleTouchDirectionalPad on the non-spatial source, whose gamepad is the
      emulated one with four axes. */
  method HandleTouchDirectionalPad(w: InputWorld, e: Entity, stick: string, x: real, y: real)
    requires e in w.sources && w.sources[e].source.gamepad.Some? && |w.sources[e].source.gamepad.value.axes| >= 4
    modifies w
    ensures var s := old(w.sources)[e];
      w.sources == old(w.sources)[e := s.(source := s.source.(gamepad := Some(s.source.gamepad.value.(
                     axes := StickAxes(s.source.gamepad.value.axes, stick, x, y)))))]
    ensures w.sinks == old(w.sinks) && w.buttonsCaptured == old(w.buttonsCaptured) && w.axesCaptured == old(w.axesCaptured)
  {
    if stick == "" {
      return;
    }
    var index := if stick == "LeftStick" then 0 else 2;
    var s := w.sources[e];
    var axes := s.source.gamepad.value.axes;
    axes := axes[index := x];
    axes := axes[index + 1 := y];
    w.sources := w.sources[e := s.(source := s.source.(gamepad := Some(s.source.gamepad.value.(axes := axes))))];
  }

  method OnXRSelectStart(w: InputWorld, handle: nat)
    modifies w
    ensures w.sources == SelectStart(old(w.entitiesByInputSource), old(w.sources), handle)
    ensures w.sinks == old(w.sinks) && w.buttonsCaptured == old(w.buttonsCaptured) && w.axesCaptured == old(w.axesCaptured)
    ensures w.entitiesByInputSource == old(w.entitiesByInputSource)
  {
    if handle !in w.entitiesByInputSource || w.entitiesByInputSource[handle] == UndefinedEntity {
      return;
    }
    var e := w.entitiesByInputSource[handle];
    if e !in w.sources {
      return;
    }
    w.sources := w.sources[e := w.sources[e].(buttons := w.sources[e].buttons[PrimaryClick := InitialButtonState(None)])];
  }

  method OnXRSelectEnd(w: InputWorld, handle: nat)
    modifies w
    ensures w.sources == SelectEnd(old(w.entitiesByInputSource), old(w.sources), handle)
    ensures w.sinks == old(w.sinks) && w.buttonsCaptured == old(w.buttonsCaptured) && w.axesCaptured == old(w.axesCaptured)
    ensures w.entitiesByInputSource == old(w.entitiesByInputSource)
  {
    if handle !in w.entitiesByInputSource || w.entitiesByInputSource[handle] == UndefinedEntity {
      return;
    }
    var e := w.entitiesByInputSource[handle];
    if e !in w.sources || PrimaryClick !in w.sources[e].buttons {
      return;
    }
    var buttons := w.sources[e].buttons;
    w.sources := w.sources[e := w.sources[e].(buttons := buttons[PrimaryClick := buttons[PrimaryClick].(up := true)])];
  }
}
