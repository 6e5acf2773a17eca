# Input routing, networked entity state and editor helpers

A Dafny model of five pieces of an engine and editor for shared 3D spaces:

- **EntityNetworkState**: the networked entity registry. It holds the receptors for the `spawnObject`, `destroyObject` and `transferAuthorityOfObject` world actions, and the owner-side handler that answers `requestAuthorityOverObject` with a transfer. The reducer is a set of pure functions over `NetState`, which holds the record map, the live entities with their `NetworkObjectComponent`, and the action cache. The class `EntityNetworkStateSystem` keeps the same state in mutable fields, and each of its receptor methods is proved to follow the reducer. The proofs cover:
  - each receptor's effect;
  - the record/entity bijection, kept by every action sequence;
  - the pruning of the action cache;
  - the rule that only an object's owner dispatches transfers.
- **InputSourceComponent**: the hand-to-entity capture tables, as the class `CaptureState` with for-loop methods. The component's per-source state and the input-sink lists live in the class `InputWorld`. The model also covers:
  - the default emulated source;
  - the `isAssignedButtons`/`isAssignedAxes` queries, including the `!!find` quirk;
  - the reactor effects that mirror capture onto a source, as explicit `Sync…` calls;
  - the assignment reactor that links and unlinks a source in a sink's list.
- **ClientInputSystem**:
  - the gamepad reconciliation loop (`UpdateGamepadInput`), proved against the map `GamepadInput`;
  - the three-tier sink resolution (XRUI layers, then the physics ray, then bounding boxes; or scene objects only, in the editor), as a loop method `ResolveInput` proved against `Resolve`;
  - the per-frame assignment loop `Execute`;
  - the keyboard, mouse, pointer-clear, touch-stick and XR select handlers.
- **getUniqueName**: strips one trailing `" <digits>"` index with the semantics of the regular expression `(.*) \d+$`, where `.` stops at line terminators. It then searches `base`, `base 2`, `base 3`, … for the first name no entity holds. The loop's termination is proved from the finiteness of the name registry.
- **useSelectionHandler**: copy and paste in the visual-script graph editor. A paste clones the copied nodes with fresh ids and shifts them right past the copied group. It re-points the copied edges through the old-to-new id map.

The physics tier runs even when an XRUI layer was hit: a physics hit strictly nearer than the layer hit replaces it (`ColliderInFrontOfPanel`, `NearerPhysicsOverridesLayer`), and a tie keeps the earlier tier (`TieKeepsEarlierTier`).

Three behaviours of the code are modelled as written and stated as lemmas:

- `isAssignedButtons` and `isAssignedAxes` read a listed entity 0 as "not found", because `find` returns that entity and `!!0` is false.
- A second paste without a new copy leaves the pasted edges without endpoints, because `copiedEdges` still names the original node ids (`SecondPasteLosesEndpoints`).
- One input-sink list serves both of a source's channels, and each channel's assignment reactor adds and removes the source from it. When the button channel moves to another sink, its cleanup unlinks the source from the old sink even though the axes channel is still assigned there, so that sink then reads `isAssignedAxes` false (`ButtonMoveDropsAxesLink`).

## Model

| member | source | states |
|---|---|---|
| ButtonState.InitialButtonState | packages/spatial/src/input/systems/ClientInputSystem.tsx:107 | a created state is never `up`; with no snapshot it is down, pressed and touched; from a snapshot (an assumption, see Left out) it copies pressed, touched and value, and is down exactly when pressed |
| EntityNetworkState.IndexOfUUID | packages/engine/src/networking/state/EntityNetworkState.tsx:104-105 | the first live entity with the UUID, or -1 exactly when none has it |
| EntityNetworkState.FindNetworkObject | packages/engine/src/networking/state/EntityNetworkState.tsx:112-113 | an entity whose network object has the owner and network id, or -1 exactly when none does |
| EntityNetworkState.Matching | packages/engine/src/networking/state/EntityNetworkState.tsx:93-98 | the filter keeps exactly the cached spawn/destroy actions for the UUID |
| EntityNetworkState.Keep | packages/engine/src/networking/state/EntityNetworkState.tsx:92-101 | what the cache holds after pruning: exactly the actions that are not a spawn/destroy for the UUID; with the matches it accounts for every cached action |
| EntityNetworkState.IndexOf | packages/engine/src/networking/state/EntityNetworkState.tsx:100 | `indexOf`: the first position of the action, or -1 exactly when absent |
| EntityNetworkState.NoMatchKeepsAll | packages/engine/src/networking/state/EntityNetworkState.tsx:99-101 | a cache with no matching action is left whole by pruning |
| EntityNetworkState.SpliceTail | packages/engine/src/networking/state/EntityNetworkState.tsx:100 | splicing at position i+1 keeps the head and splices the tail at i |
| EntityNetworkState.RemoveFirstMatch | packages/engine/src/networking/state/EntityNetworkState.tsx:99-101 | splicing out the first match at its `indexOf` position drops exactly that match and keeps every other action |
| EntityNetworkState.PruneCachedActions | packages/engine/src/networking/state/EntityNetworkState.tsx:92-101 | the filter-then-splice loop leaves the cache equal to `Keep`: no spawn/destroy of the UUID, every other action in order |
| EntityNetworkState.Decide | packages/engine/src/networking/state/EntityNetworkState.tsx:125-148 | a transfer is dispatched iff this process is the owner and the object exists; it carries the request's owner, network id and new authority |
| EntityNetworkState.SpawnEffect | packages/engine/src/networking/state/EntityNetworkState.tsx:62-86 | spawn records `$from`, network id, `$peer`, prefab and pose under the UUID; a missing pose becomes zero/identity; the live entity's network object is (`$from`, `$peer`, network id); a new UUID adds one entity, and every other live entity, record and the cache stay |
| EntityNetworkState.DestroyEffect | packages/engine/src/networking/state/EntityNetworkState.tsx:90-107 | destroy removes the record whether or not the entity exists; it removes every cached spawn/destroy of the UUID and keeps every other cached action; it removes the live entity if there is one, and a missing entity leaves the list unchanged |
| EntityNetworkState.DestroyKeepsOtherEntities | packages/engine/src/networking/state/EntityNetworkState.tsx:104-106 | destroy keeps every other live entity unchanged and in its order |
| EntityNetworkState.DestroyLeavesOthers | packages/engine/src/networking/state/EntityNetworkState.tsx:103-106 | with distinct UUIDs, exactly the live entities with another UUID remain after destroy |
| EntityNetworkState.AbsentUUID | packages/engine/src/networking/state/EntityNetworkState.tsx:104-105 | when `getEntityByUUID` finds nothing, no live entity has the UUID |
| EntityNetworkState.RemoveAtDropsUUID | packages/engine/src/networking/state/EntityNetworkState.tsx:104-106 | removing one entity keeps the others in order; with distinct UUIDs none with its UUID is left |
| EntityNetworkState.RemoveAtMembers | packages/engine/src/networking/state/EntityNetworkState.tsx:104-106 | with distinct UUIDs, removing one entity leaves exactly the entities with another UUID |
| EntityNetworkState.TransferEffect | packages/engine/src/networking/state/EntityNetworkState.tsx:111-115 | a transfer for a missing object changes nothing; otherwise only that object's authority peer changes |
| EntityNetworkState.TransferLeavesRecordPeer | packages/engine/src/networking/state/EntityNetworkState.tsx:78-85 | after spawn then transfer, the record still names the spawning peer while the live object's authority is the new peer |
| EntityNetworkState.RequestThenTransfer | packages/engine/src/networking/state/EntityNetworkState.tsx:141-147 | applying the dispatched transfer gives the requested object the requested authority and leaves the records alone |
| EntityNetworkState.DistinctCount | packages/engine/src/networking/state/EntityNetworkState.tsx:104 | a list with distinct UUIDs has as many UUIDs as entities |
| EntityNetworkState.LiveCountMatchesRecords | packages/engine/src/networking/state/EntityNetworkState.tsx:78-106 | while records and live entities are in bijection, there are as many records as live entities |
| EntityNetworkState.RemoveAtUUIDs | packages/engine/src/networking/state/EntityNetworkState.tsx:104-106 | removing an entity keeps the UUIDs distinct and removes exactly its UUID |
| EntityNetworkState.AppendKeepsBijective | packages/engine/src/networking/state/EntityNetworkState.tsx:63-85 | a new entity with a matching record keeps the bijection |
| EntityNetworkState.ReplaceKeepsBijective | packages/engine/src/networking/state/EntityNetworkState.tsx:63-85 | re-spawning an existing UUID keeps the bijection |
| EntityNetworkState.AgreeAfterInsert | packages/engine/src/networking/state/EntityNetworkState.tsx:63-85 | records and entities still agree on owner and network id after an insert |
| EntityNetworkState.SpawnKeepsBijective | packages/engine/src/networking/state/EntityNetworkState.tsx:62-86 | spawn preserves the record/entity bijection |
| EntityNetworkState.RemoveKeepsBijective | packages/engine/src/networking/state/EntityNetworkState.tsx:103-106 | removing an entity and its record keeps the bijection |
| EntityNetworkState.DestroyKeepsBijective | packages/engine/src/networking/state/EntityNetworkState.tsx:90-107 | destroy preserves the bijection |
| EntityNetworkState.TransferKeepsBijective | packages/engine/src/networking/state/EntityNetworkState.tsx:111-115 | transfer preserves the bijection |
| EntityNetworkState.ApplyKeepsBijective | packages/engine/src/networking/state/EntityNetworkState.tsx:59-117 | every receptor, and every ignored action, preserves the bijection |
| EntityNetworkState.ApplyAllKeepsBijective | packages/engine/src/networking/state/EntityNetworkState.tsx:153 | any queue of actions preserves the bijection |
| EntityNetworkState.DispatchesOnlyFromOwner | packages/engine/src/networking/state/EntityNetworkState.tsx:129 | a process that owns none of the requested objects dispatches nothing |
| EntityNetworkState.SameFrameSpawnThenRequest | packages/engine/src/networking/state/EntityNetworkState.tsx:152-156 | requests are handled after the frame's actions, so an object the owner spawned in the same frame can already be transferred |
| EntityNetworkState.AuthorityScenario | packages/engine/src/networking/state/EntityNetworkState.tsx:62-148 | spawn, a non-owner's ignored request, the owner's transfer, then destroy: authority moves, the record keeps the spawn peer, and destroy leaves no record, entity or cached action |
| EntityNetworkState.EntityNetworkStateSystem.constructor | packages/engine/src/networking/state/EntityNetworkState.tsx:45-58 | the system starts with no records, no entities and nothing dispatched |
| EntityNetworkState.EntityNetworkStateSystem.ReceiveSpawnObject | packages/engine/src/networking/state/EntityNetworkState.tsx:62-86 | the state after the spawn receptor is the reducer's spawn |
| EntityNetworkState.EntityNetworkStateSystem.ReceiveDestroyObject | packages/engine/src/networking/state/EntityNetworkState.tsx:90-107 | the state after the destroy receptor is the reducer's destroy |
| EntityNetworkState.EntityNetworkStateSystem.ReceiveTransferAuthorityOfObject | packages/engine/src/networking/state/EntityNetworkState.tsx:111-115 | the state after the transfer receptor is the reducer's transfer |
| EntityNetworkState.EntityNetworkStateSystem.ReceiveAction | packages/engine/src/networking/state/EntityNetworkState.tsx:59-117 | dispatching on the action's kind, other kinds ignored |
| EntityNetworkState.EntityNetworkStateSystem.ReceiveRequestAuthorityOverObject | packages/engine/src/networking/state/EntityNetworkState.tsx:125-148 | state unchanged; the dispatch log grows by the decided transfer, and not at all for a non-owner |
| EntityNetworkState.EntityNetworkStateSystem.Execute | packages/engine/src/networking/state/EntityNetworkState.tsx:152-156 | all queued actions applied in order, then every request decided against the resulting entities |
| InputSourceComponent.SourceFor | packages/spatial/src/input/components/InputSourceComponent.tsx:82-104 | a given source is used as is; otherwise an emulated source with no handedness and screen target-ray mode, using the given gamepad or the emulated one with four zero axes and no buttons |
| InputSourceComponent.SetHandsAt | packages/spatial/src/input/components/InputSourceComponent.tsx:125-128 | after setting hands, a listed hand reads the target and every other hand keeps its entry |
| InputSourceComponent.CaptureThenRelease | packages/spatial/src/input/components/InputSourceComponent.tsx:125-133 | capture then release over the same hands leaves them reading no capture, others unchanged |
| InputSourceComponent.CaptureDefaultsToAllHands | packages/spatial/src/input/components/InputSourceComponent.tsx:57 | the default hand list captures left, right and none |
| InputSourceComponent.CaptureState.constructor | packages/spatial/src/input/components/InputSourceComponent.tsx:49-55 | both tables start empty, so every hand reads no capture |
| InputSourceComponent.CaptureState.CaptureButtons | packages/spatial/src/input/components/InputSourceComponent.tsx:125-128 | the listed hands' button entries become the target; the axes table is untouched |
| InputSourceComponent.CaptureState.ReleaseButtons | packages/spatial/src/input/components/InputSourceComponent.tsx:130-133 | the listed hands' button entries become UndefinedEntity; the axes table is untouched |
| InputSourceComponent.CaptureState.CaptureAxes | packages/spatial/src/input/components/InputSourceComponent.tsx:135-138 | the listed hands' axes entries become the target; the buttons table is untouched |
| InputSourceComponent.CaptureState.ReleaseAxes | packages/spatial/src/input/components/InputSourceComponent.tsx:140-143 | the listed hands' axes entries become UndefinedEntity; the buttons table is untouched |
| InputSourceComponent.CaptureState.Capture | packages/spatial/src/input/components/InputSourceComponent.tsx:145-151 | both tables map the listed hands to the target |
| InputSourceComponent.CaptureState.Release | packages/spatial/src/input/components/InputSourceComponent.tsx:153-159 | both tables map the listed hands to UndefinedEntity, so those hands read no capture |
| InputSourceComponent.AddIfAbsent | packages/spatial/src/input/components/InputSourceComponent.tsx:231-232 | the source is in the list afterwards, nothing else is added, a listed source is not added twice, and no-duplicates is preserved |
| InputSourceComponent.RemoveFirst | packages/spatial/src/input/components/InputSourceComponent.tsx:235-236 | one occurrence removed when present, the list unchanged otherwise; in a duplicate-free list the source is gone |
| InputSourceComponent.Reassign | packages/spatial/src/input/components/InputSourceComponent.tsx:229-237 | moving a source from one sink to another removes it from the old list, lists it exactly once in the new one, and keeps every other list |
| InputSourceComponent.OnlyOnce | packages/spatial/src/input/components/InputSourceComponent.tsx:231-232 | an element of a duplicate-free list occurs once |
| InputSourceComponent.FindAssigned | packages/spatial/src/input/components/InputSourceComponent.tsx:163-166 | `find` returns a listed source assigned to the target, and none exactly when no listed source is |
| InputSourceComponent.IsAssignedButtons | packages/spatial/src/input/components/InputSourceComponent.tsx:161-167 | false without an input component; true only if some listed source's button channel is assigned to the target; iff one is, when entity 0 is not listed |
| InputSourceComponent.IsAssignedAxes | packages/spatial/src/input/components/InputSourceComponent.tsx:169-175 | the same for the axes channel |
| InputSourceComponent.ButtonMoveDropsAxesLink | packages/spatial/src/input/components/InputSourceComponent.tsx:225-237 | one sink list serves both channels: moving the button channel unlinks the source, and the sink still holding its axes then reads not assigned |
| InputSourceComponent.InputWorld.constructor | packages/spatial/src/input/components/InputSourceComponent.tsx:123 | the component tables start empty |
| InputSourceComponent.InputWorld.SetInputSource | packages/spatial/src/input/components/InputSourceComponent.tsx:81-121 | the component holds the defaulted source, and a new one starts empty and unassigned; a real source with a target-ray space is registered before the base-space check, which fails exactly when the needed reference space is missing; the hand component is added only when that check passed |
| InputSourceComponent.InputWorld.SyncButtonCapture | packages/spatial/src/input/components/InputSourceComponent.tsx:188-197 | a capture for the source's hand marks it captured and assigns its buttons there; no capture unmarks it and keeps the assignment |
| InputSourceComponent.InputWorld.SyncAxesCapture | packages/spatial/src/input/components/InputSourceComponent.tsx:199-208 | the same for the axes channel |
| InputSourceComponent.InputWorld.LinkSource | packages/spatial/src/input/components/InputSourceComponent.tsx:229-232 | the sink's list gains the source if it has an input component; duplicate-freedom is kept |
| InputSourceComponent.InputWorld.UnlinkSource | packages/spatial/src/input/components/InputSourceComponent.tsx:233-237 | the source leaves the sink's list; duplicate-freedom is kept |
| ClientInputSystem.ReconcileButton | packages/spatial/src/input/systems/ClientInputSystem.tsx:104-117 | a button is tracked iff it was tracked or is pressed or touched; an active one mirrors pressed, touched and value and keeps `up`; an inactive tracked one gets `up` |
| ClientInputSystem.EdgesOnlyOnTransitions | packages/spatial/src/input/systems/ClientInputSystem.tsx:106-116 | `down` appears only on an unpressed-to-pressed edge and always on one; `up` appears only when a tracked button goes inactive; the creation case rests on the assumed snapshot case of `InitialButtonState` |
| ClientInputSystem.GamepadInput | packages/spatial/src/input/systems/ClientInputSystem.tsx:88-119 | no gamepad or no button list leaves the map unchanged; otherwise each index the snapshot covers is reconciled and every other key is untouched |
| ClientInputSystem.SameGets | packages/spatial/src/input/systems/ClientInputSystem.tsx:91 | two button maps with the same lookups are equal |
| ClientInputSystem.UpdateGamepadInput | packages/spatial/src/input/systems/ClientInputSystem.tsx:88-119 | the in-place loop computes `GamepadInput` |
| ClientInputSystem.GamepadCreatesOnlyActive | packages/spatial/src/input/systems/ClientInputSystem.tsx:106-108 | a new key appears only for a pressed or touched index of the snapshot |
| ClientInputSystem.GamepadPressThenRelease | packages/spatial/src/input/systems/ClientInputSystem.tsx:104-117 | a press in one frame creates a down, pressed state; releasing it in the next only sets `up` |
| ClientInputSystem.LayerTier | packages/spatial/src/input/systems/ClientInputSystem.tsx:216-230 | the result is the previous best or a hit offered by a layer, and never farther |
| ClientInputSystem.PhysicsTier | packages/spatial/src/input/systems/ClientInputSystem.tsx:232-241 | the result is the previous best or the ray's first hit, and never farther |
| ClientInputSystem.BoxTier | packages/spatial/src/input/systems/ClientInputSystem.tsx:244-255 | the result is the previous best or a box hit, and never farther |
| ClientInputSystem.Resolve | packages/spatial/src/input/systems/ClientInputSystem.tsx:189-256 | an infinite distance means no sink; in the editor, no sink or a hit object's entity; at runtime a sink offered by a candidate, never farther than the layer tier's |
| ClientInputSystem.FirstVisibleLayerWins | packages/spatial/src/input/systems/ClientInputSystem.tsx:219-229 | the first layer not skipped decides the layer tier: the loop breaks there |
| ClientInputSystem.FirstCloserBoxWins | packages/spatial/src/input/systems/ClientInputSystem.tsx:247-253 | the first box strictly nearer than the best so far wins, later ones are not considered |
| ClientInputSystem.NoCloserBoxKeepsBest | packages/spatial/src/input/systems/ClientInputSystem.tsx:244-255 | no nearer box keeps the earlier tiers' result |
| ClientInputSystem.NearerPhysicsOverridesLayer | packages/spatial/src/input/systems/ClientInputSystem.tsx:225-241 | a collider strictly nearer than the UI layer hit takes the sink |
| ClientInputSystem.TieKeepsEarlierTier | packages/spatial/src/input/systems/ClientInputSystem.tsx:237 | a collider at the same distance does not replace the layer hit |
| ClientInputSystem.ColliderInFrontOfPanel | packages/spatial/src/input/systems/ClientInputSystem.tsx:216-241 | a panel at 5 and a collider at 1: the collider is the sink |
| ClientInputSystem.ResolveInput | packages/spatial/src/input/systems/ClientInputSystem.tsx:189-256 | the loops with `continue` and `break` compute `Resolve` |
| ClientInputSystem.FrameStep | packages/spatial/src/input/systems/ClientInputSystem.tsx:184-264 | captured channels keep their assignment, uncaptured ones take the resolved sink, and the gamepad is reconciled in every case |
| ClientInputSystem.CaptureSurvivesFrame | packages/spatial/src/input/systems/ClientInputSystem.tsx:185-188 | a captured button channel keeps its target through the frame, whatever is hit |
| ClientInputSystem.Execute | packages/spatial/src/input/systems/ClientInputSystem.tsx:184-264 | every source becomes its `FrameStep`; the capture sets, sink lists and registries are unchanged |
| ClientInputSystem.Press | packages/spatial/src/input/systems/ClientInputSystem.tsx:289 | the key holds a fresh down, pressed state; other keys unchanged |
| ClientInputSystem.Release | packages/spatial/src/input/systems/ClientInputSystem.tsx:290 | a tracked key gets `up`, an untracked key stays untracked; other keys unchanged |
| ClientInputSystem.PressThenRelease | packages/spatial/src/input/systems/ClientInputSystem.tsx:289-290 | a press then a release leaves the key pressed, down and up; releasing twice is releasing once |
| ClientInputSystem.KeyEvent | packages/spatial/src/input/systems/ClientInputSystem.tsx:280-291 | events aimed at INPUT, SELECT or TEXTAREA are ignored; keydown presses the code, keyup releases it; only that key changes |
| ClientInputSystem.MouseKey | packages/spatial/src/input/systems/ClientInputSystem.tsx:389-391 | button 1 is AuxiliaryClick, 2 is SecondaryClick, anything else PrimaryClick, each iff |
| ClientInputSystem.MouseClick | packages/spatial/src/input/systems/ClientInputSystem.tsx:386-400 | mousedown and touchstart press the mapped button, mouseup and touchend release it |
| ClientInputSystem.PointerCleared | packages/spatial/src/input/systems/ClientInputSystem.tsx:370-377 | only the three pointer buttons change, each pressed one without `up` gets `up` |
| ClientInputSystem.PointerClearedSettles | packages/spatial/src/input/systems/ClientInputSystem.tsx:370-377 | afterwards no pressed pointer button lacks `up`, and clearing twice is clearing once |
| ClientInputSystem.ClearPointerState | packages/spatial/src/input/systems/ClientInputSystem.tsx:371-377 | the loop over the pointer buttons computes `PointerCleared` |
| ClientInputSystem.StickAxes | packages/spatial/src/input/systems/ClientInputSystem.tsx:295-303 | an empty stick name changes nothing; otherwise the stick's two axes (0-1 for LeftStick, 2-3 otherwise) take x and y and the others stay |
| ClientInputSystem.SticksCommute | packages/spatial/src/input/systems/ClientInputSystem.tsx:299-302 | the two sticks write disjoint axes, so their updates commute |
| ClientInputSystem.SelectAsWritten | packages/spatial/src/input/systems/ClientInputSystem.tsx:471-482 | both handlers as written: no registered entity leaves the state alone; a registered entity makes the handler throw, because an Entity number has no `buttons` |
| ClientInputSystem.SelectAsWrittenNeverPresses | packages/spatial/src/input/systems/ClientInputSystem.tsx:471-482 | for a registered source the as-written handlers throw, while the intended select start leaves its PrimaryClick pressed and down |
| ClientInputSystem.SelectStart | packages/spatial/src/input/systems/ClientInputSystem.tsx:471-476 | corrected: the registered source's PrimaryClick is pressed, nothing else changes |
| ClientInputSystem.SelectEnd | packages/spatial/src/input/systems/ClientInputSystem.tsx:477-482 | corrected: the registered source's PrimaryClick is released if tracked, nothing else changes |
| ClientInputSystem.SelectStartThenEnd | packages/spatial/src/input/systems/ClientInputSystem.tsx:471-482 | an XR select start then end leaves the same PrimaryClick as a mouse click |
| ClientInputSystem.OnKeyEvent | packages/spatial/src/input/systems/ClientInputSystem.tsx:280-291 | the emulated source's buttons become `KeyEvent` of them; nothing else changes |
| ClientInputSystem.HandleMouseClick | packages/spatial/src/input/systems/ClientInputSystem.tsx:386-400 | without the component nothing changes; otherwise its buttons become `MouseClick` of them |
| ClientInputSystem.ClearPointer | packages/spatial/src/input/systems/ClientInputSystem.tsx:370-377 | the emulated source's buttons become `PointerCleared` of them |
| ClientInputSystem.HandleTouchDirectionalPad | packages/spatial/src/input/systems/ClientInputSystem.tsx:295-303 | the emulated gamepad's axes become `StickAxes` of them |
| ClientInputSystem.OnXRSelectStart | packages/spatial/src/input/systems/ClientInputSystem.tsx:471-476 | corrected handler: the sources become `SelectStart` of them |
| ClientInputSystem.OnXRSelectEnd | packages/spatial/src/input/systems/ClientInputSystem.tsx:477-482 | corrected handler: the sources become `SelectEnd` of them |
| GetUniqueName.DigitChar | packages/engine/src/scene/functions/getUniqueName.ts:49 | the digit character with value d |
| GetUniqueName.NatToString | packages/engine/src/scene/functions/getUniqueName.ts:49 | `String(n)` is a non-empty run of digits |
| GetUniqueName.ParseNatToString | packages/engine/src/scene/functions/getUniqueName.ts:49 | the numeral reads back as n |
| GetUniqueName.NatToStringInjective | packages/engine/src/scene/functions/getUniqueName.ts:49 | distinct numbers have distinct numerals |
| GetUniqueName.LastIndex | packages/engine/src/scene/functions/getUniqueName.ts:30 | the last position of a character, or none exactly when absent |
| GetUniqueName.LineStart | packages/engine/src/scene/functions/getUniqueName.ts:30 | where `(.*)` may start a match ending at q: just after the last line terminator, with none between |
| GetUniqueName.NameWithoutIndex | packages/engine/src/scene/functions/getUniqueName.ts:30-39 | the name is returned unchanged iff it does not end in a space and digits; a stripped name is shorter and holds no line terminator |
| GetUniqueName.StripIndex | packages/engine/src/scene/functions/getUniqueName.ts:30-39 | a one-line base plus a space and digits strips back to the base, exactly one index greedily |
| GetUniqueName.MultiLineNameKeepsLastLine | packages/engine/src/scene/functions/getUniqueName.ts:30-39 | `"Door\nLeft 3"` strips to `"Left"` |
| GetUniqueName.CandidateInjective | packages/engine/src/scene/functions/getUniqueName.ts:49 | every counter gives a different candidate |
| GetUniqueName.NeverIndexOne | packages/engine/src/scene/functions/getUniqueName.ts:49 | no candidate carries the index 1 |
| GetUniqueName.CandidateStripsToBase | packages/engine/src/scene/functions/getUniqueName.ts:30-49 | a candidate of a one-line, index-free base strips back to it |
| GetUniqueName.GetUniqueName | packages/engine/src/scene/functions/getUniqueName.ts:41-58 | the result is unused, and it is the first candidate of the stripped name (or template name) whose every predecessor is used |
| GetUniqueName.DefaultTemplateNameHasNoIndex | packages/engine/src/scene/functions/getUniqueName.ts:41 | the default template name `New Object` strips to itself |
| GetUniqueName.GetUniqueNameWithDefault | packages/engine/src/scene/functions/getUniqueName.ts:41-58 | with the default template, a node without a name gets the first unused of `New Object`, `New Object 2`, ...; a named node the first unused candidate of its stripped name |
| GetUniqueName.SubsetSize | packages/engine/src/scene/functions/getUniqueName.ts:48-55 | a subset is no larger, which bounds the search |
| SelectionHandler.MinX | packages/editor/src/components/graph/ee-flow/hooks/useSelectionHandler.ts:54 | `Math.min` over the x positions: a lower bound attained by a node |
| SelectionHandler.MaxX | packages/editor/src/components/graph/ee-flow/hooks/useSelectionHandler.ts:55 | `Math.max` over the x positions: an upper bound attained by a node |
| SelectionHandler.FirstMaxIndex | packages/editor/src/components/graph/ee-flow/hooks/useSelectionHandler.ts:56-59 | the reduce keeps the first node of greatest x |
| SelectionHandler.MaxNode | packages/editor/src/components/graph/ee-flow/hooks/useSelectionHandler.ts:56-59 | the rightmost node is a copied node at `MaxX` |
| SelectionHandler.PastedNodes | packages/editor/src/components/graph/ee-flow/hooks/useSelectionHandler.ts:62-72 | one clone per copied node, in order |
| SelectionHandler.PasteShape | packages/editor/src/components/graph/ee-flow/hooks/useSelectionHandler.ts:61-72 | each clone has its own fresh id, the same y and other fields; every x moves by the group's span plus the rightmost node's width plus 20 |
| SelectionHandler.PasteLandsRightOfGroup | packages/editor/src/components/graph/ee-flow/hooks/useSelectionHandler.ts:68 | with a non-negative width the clones lie right of every copied node and keep their relative offsets |
| SelectionHandler.IdMapKeys | packages/editor/src/components/graph/ee-flow/hooks/useSelectionHandler.ts:61-63 | the id map's keys are exactly the copied nodes' ids |
| SelectionHandler.IdMapAt | packages/editor/src/components/graph/ee-flow/hooks/useSelectionHandler.ts:61-66 | with distinct ids, a copied node's id maps to its clone's id |
| SelectionHandler.PastedEdges | packages/editor/src/components/graph/ee-flow/hooks/useSelectionHandler.ts:74-84 | one re-pointed edge per copied edge, in order |
| SelectionHandler.EdgeFollowsClones | packages/editor/src/components/graph/ee-flow/hooks/useSelectionHandler.ts:74-84 | an edge between two copied nodes joins their clones, with a fresh id and the same handles |
| SelectionHandler.SecondPasteLosesEndpoints | packages/editor/src/components/graph/ee-flow/hooks/useSelectionHandler.ts:80-93 | a second paste re-points the old edges through the clones' ids, so their endpoints become undefined |
| SelectionHandler.SelectionHandler.constructor | packages/editor/src/components/graph/ee-flow/hooks/useSelectionHandler.ts:42-46 | selection and clipboard start empty |
| SelectionHandler.SelectionHandler.OnSelectionChange | packages/editor/src/components/graph/ee-flow/hooks/useSelectionHandler.ts:96-102 | the selection becomes the given nodes and edges, nothing else changes |
| SelectionHandler.SelectionHandler.CopyNodes | packages/editor/src/components/graph/ee-flow/hooks/useSelectionHandler.ts:48-51 | the clipboard becomes the selection |
| SelectionHandler.SelectionHandler.PasteNodes | packages/editor/src/components/graph/ee-flow/hooks/useSelectionHandler.ts:53-94 | one node change list of the clones and one edge change list of the re-pointed edges are emitted; the clones become the copied nodes and the copied edges stay; node ids are drawn before edge ids |
| SelectionHandler.SelectionHandler.OnCopyShortcut | packages/editor/src/components/graph/ee-flow/hooks/useSelectionHandler.ts:104-107 | copy happens only on a press with a non-empty selection |
| SelectionHandler.SelectionHandler.OnPasteShortcut | packages/editor/src/components/graph/ee-flow/hooks/useSelectionHandler.ts:109-112 | paste happens only on a press with copied nodes; it then emits the clones and the re-pointed edges, the clones become the copied nodes and one id is drawn per node and edge; otherwise nothing changes |

## Left out

- Pointer position, raycaster geometry, XRUI `hitTest` and the physics ray cast are not modelled. Each source's hits arrive as a `Candidates` value: the sorted editor hit, per-layer hits in query order, the first physics hit and the box distances.
- The XR pose loops, the pointer-move handler and the transform updates of `execute` are not modelled: they only compute poses.
- The wheel handler is not modelled: it draws on `Math.random` and writes floating-point scroll state.
- `preventDefault` listeners and the adding and removing of DOM and XR-session listeners are not modelled.
- Device entity creation and removal on XR source changes and on canvas attach is not modelled. It creates entities and NameComponents; the model starts from a given set of sources.
- ButtonState.ts and its `createInitialButtonState` are not part of this model. The call sites at ClientInputSystem.tsx lines 289, 398 and 475 rely only on the no-argument fresh press (down, pressed, touched, not up).
- ButtonState.InitialButtonState: the snapshot case (line 107 passes the gamepad button) is assumed, not taken from a source file. The model copies pressed, touched and value and sets `down` exactly when the snapshot is pressed. The creation case of `ClientInputSystem.EdgesOnlyOnTransitions` (a button first seen touched but not pressed is not `down`) rests on that assumption; had `createInitialButtonState(button)` set `down` unconditionally, a mere touch would report `down`.
- ButtonCleanupSystem, which drops `up` buttons between frames, is not part of this model.
- React effect scheduling and `React.memo` are not modelled. The capture reactor effects are the explicit calls `SyncButtonCapture`/`SyncAxesCapture`. The assignment reactor's effect and cleanup are `LinkSource`/`UnlinkSource`.
- The component's `raycaster` field is not modelled. Neither is the XRSpaceComponent's space object: a registered space is recorded as a set membership.
- `entitiesByInputSource` is a WeakMap keyed by the platform object. The model keys it by the source's `handle`.
- `NetworkObjectComponent.getNetworkObject` query order is modelled as spawn order. The first matching live entity is the one found.
- Floating-point numbers are modelled as reals. NaN and infinities other than the initial hit distance are not modelled.
- ClientInputSystem.StickAxes: requires four axes, as the emulated gamepad has. A real gamepad with fewer axes would grow its JavaScript array instead.
- ClientInputSystem.HandleTouchDirectionalPad: requires the source to have a gamepad, as the code's non-null assertion on `gamepad` assumes.
- Button map keys: a numeric index and its string spelling are distinct keys here (`Index(i)` vs `Named(s)`). JavaScript property names would alias `buttons[0]` and `buttons["0"]`.
- `uuidv4` is an injected supply `uuids: nat -> string`. The model does not assume its values are distinct from existing ids.
- SelectionHandler.PasteLandsRightOfGroup: requires a non-negative width of the rightmost node. `width!` is assumed present; an undefined width would make every x NaN.
- The React `useMemo` dependency of `onSelectionChange` and the key-press hook's edge detection are not modelled. The shortcut effects take the pressed flag as a parameter.
- `console.log` for a request naming a missing object is not modelled: it only writes a log line.
- The per-action `$time`, `$cache` and topic tags are not modelled. The action cache is a given sequence.

## Findings

| source | as written | input that shows it | evidently intended | confidence | as-written member | corrected member |
|---|---|---|---|---|---|---|
| packages/spatial/src/input/systems/ClientInputSystem.tsx:471-482 | `entitiesByInputSource.get` yields the source's Entity number, and the handlers read `.buttons` of it, which is undefined; `state.PrimaryClick = …` and `state.PrimaryClick` then throw a TypeError | an XR source registered with a target-ray space as entity 5 and a `selectstart` event for it | press PrimaryClick on the InputSourceComponent of that entity on select start, and set `up` on select end | not executed | ClientInputSystem.SelectAsWritten | ClientInputSystem.SelectStartThenEnd |
