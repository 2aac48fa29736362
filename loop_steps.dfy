/** The frame loop's mutable locals as one value, and what each arm of the
    event match, the hover pass, the drag update and a whole frame do to that
    value. The `Editor` of the frame loop is proved against these functions. */
module FrameSteps {
  import opened Options
  import opened Linear
  import opened Events
  import opened Components
  import opened Controls
  import opened Picking
  import opened World
  import opened Drag

  /** The loop's state: the box list, the `Weak` selection (an id), the drag
      snapshot, the iteration depth, the frame's dirty flag and the next id. */
  datatype Loop = Loop(
    components: seq<Shared>,
    selection: Option<nat>,
    dragState: Option<DragState>,
    iterationDepth: nat,
    renderDirty: bool,
    nextId: nat)

  /** What a frame reads from outside the editor: the ray-cuboid query, the
      vector numerics, the keys held down, the ray unprojected for box creation
      and its time of impact on the camera plane, and the hue shift (a colour
      and an angle in degrees to the shifted colour). */
  datatype Surroundings = Surroundings(
    cast: RayCaster,
    num: Numerics,
    held: set<Key>,
    createRay: Ray,
    planeToi: Option<real>,
    hueShift: (Vec3, real) -> Vec3)

  /** The position of the selected box, if it is still listed. */
  function Live(st: Loop): (r: Option<nat>)
    ensures r.Some? ==> r.value < |st.components|
  {
    Resolve(st.components, st.selection)
  }

  /** Box i takes the fields `c`. */
  function SetBox(st: Loop, i: nat, c: Component): Loop
    requires i < |st.components|
  {
    st.(components := st.components[i := st.components[i].(val := c)])
  }

  /** The hover pass: the picked box is hovered, every other box is not. */
  function HoverStep(st: Loop, picked: Option<nat>): Loop {
    st.(components := HoverTarget(st.components, picked))
  }

  /** Left press: a hit selects the box and, if it is listed, snapshots it; a
      miss clears the selection. */
  function PressLeftStep(st: Loop, hit: Option<(nat, Vec3)>, ray: Ray, num: Numerics): Loop {
    if hit.None? then st.(selection := None)
    else
      var found := IndexOf(st.components, hit.value.0);
      if found.Some? then
        st.(selection := Some(hit.value.0),
            dragState := Some(DragStart(st.components[found.value].val, hit.value.1, ray, num)))
      else st.(selection := Some(hit.value.0))
  }

  /** Left release: the drag ends and the frame is dirty. */
  function ReleaseLeftStep(st: Loop): Loop {
    st.(dragState := None, renderDirty := true)
  }

  /** Scroll over a live selection: a held scale key rescales it, else a held
      C shifts its hue; otherwise the zoom clears the dirty flag. Without a live
      selection nothing changes. */
  function ScrollStep(st: Loop, offset: real, held: set<Key>, hueShift: (Vec3, real) -> Vec3): Loop {
    var fine := LeftShift in held || RightShift in held;
    var sel := Live(st);
    if sel.None? then st
    else
      var c := st.components[sel.value].val;
      var key := ScaleKeyHeld(held);
      if key.Some? then
        SetBox(st, sel.value, Rescaled(c, key.value, ScaleDelta(fine, offset))).(renderDirty := true)
      else if C in held then
        SetBox(st, sel.value, c.(color := hueShift(c.color, HueAngle(fine, offset)))).(renderDirty := true)
      else st.(renderDirty := false)
  }

  /** Right press. */
  function IncreaseDepthStep(st: Loop): Loop {
    st.(iterationDepth := st.iterationDepth + 1, renderDirty := true)
  }

  /** Left press: nothing at depth 0. */
  function DecreaseDepthStep(st: Loop): Loop {
    if st.iterationDepth > 0 then st.(iterationDepth := st.iterationDepth - 1, renderDirty := true)
    else st
  }

  /** Escape: a press clears the selection. */
  function EscapeStep(st: Loop, action: Action): Loop {
    if action == Press then st.(selection := None) else st
  }

  /** N press: a new box with the next id at the camera-plane point. */
  function CreateBoxStep(st: Loop, shift: bool, createRay: Ray, planeToi: Option<real>): Loop
    requires planeToi.Some?
  {
    var c := Created(createRay.At(planeToi.value), shift);
    st.(components := st.components + [Shared(st.nextId, c)], nextId := st.nextId + 1, renderDirty := true)
  }

  /** Backspace press on a live selection: reset its orientation, or with
      Shift swap-remove it. */
  function BackspaceStep(st: Loop, shift: bool): Loop {
    var sel := Live(st);
    if sel.None? then st
    else if !shift then SetBox(st, sel.value, ResetOrientation(st.components[sel.value].val))
    else st.(components := SwapRemove(st.components, sel.value))
  }

  /** Translation key press: one step for a live selection, unless dragging. */
  function TranslateStep(st: Loop, k: Key, shift: bool): Loop
    requires k in TranslationKeys
  {
    var sel := Live(st);
    if st.dragState.Some? || sel.None? then st
    else SetBox(st, sel.value, Translated(st.components[sel.value].val, k, TranslateFactor(shift))).(renderDirty := true)
  }

  /** Rotation key press: the live selection turns, dragging or not. */
  function RotateStep(st: Loop, k: Key, shift: bool): Loop
    requires k in RotationKeys
  {
    var sel := Live(st);
    if sel.None? then st
    else SetBox(st, sel.value, Rotated(st.components[sel.value].val, FrameLoopRotation(k, RotateFactor(shift)))).(renderDirty := true)
  }

  /** The drag update: with a snapshot and a live selection, the box moves to
      the dragged origin. */
  function DragStep(st: Loop, ray: Ray, num: Numerics): Loop {
    var sel := Live(st);
    if st.dragState.None? || sel.None? then st
    else
      var c := st.components[sel.value].val;
      SetBox(st, sel.value, c.(origin := DraggedOrigin(c, st.dragState.value, ray, num)))
  }

  /** The key-press arms other than Escape, in the order of the match. */
  function KeyPressStep(st: Loop, k: Key, shift: bool, s: Surroundings): Loop
    requires k == N ==> s.planeToi.Some?
  {
    if k == Right then IncreaseDepthStep(st)
    else if k == Left then DecreaseDepthStep(st)
    else if k == N then CreateBoxStep(st, shift, s.createRay, s.planeToi)
    else if k == Key.Backspace then BackspaceStep(st, shift)
    else if k in TranslationKeys then TranslateStep(st, k, shift)
    else if k in RotationKeys then RotateStep(st, k, shift)
    else st
  }

  /** One event, dispatched to the first arm of the match it fits. */
  function EventStep(st: Loop, e: WindowEvent, hit: Option<(nat, Vec3)>, ray: Ray, s: Surroundings): Loop
    requires IsKeyPress(e, N) ==> s.planeToi.Some?
  {
    match e
    case MouseEvent(button, action) =>
      if button == MouseButtonLeft && action == Press then PressLeftStep(st, hit, ray, s.num)
      else if button == MouseButtonLeft && action == Release then ReleaseLeftStep(st)
      else st
    case ScrollEvent(offset) => ScrollStep(st, offset, s.held, s.hueShift)
    case KeyEvent(k, action, shift) =>
      if k == Key.Escape then EscapeStep(st, action)
      else if action == Press then KeyPressStep(st, k, shift, s)
      else st
    case OtherEvent => st
  }

  /** A creation press somewhere in the events finds the camera plane. */
  predicate PlaneFound(events: seq<WindowEvent>, s: Surroundings) {
    forall i :: 0 <= i < |events| && IsKeyPress(events[i], N) ==> s.planeToi.Some?
  }

  /** The events of a frame, handled in order. */
  function EventsStep(st: Loop, events: seq<WindowEvent>, hit: Option<(nat, Vec3)>, ray: Ray, s: Surroundings): Loop
    requires PlaneFound(events, s)
    decreases |events|
  {
    if events == [] then st
    else
      var last := events[|events| - 1];
      assert IsKeyPress(last, N) ==> s.planeToi.Some?;
      EventStep(EventsStep(st, events[..|events| - 1], hit, ray, s), last, hit, ray, s)
  }

  /** Handling one more event of a frame: the prefix through event i is the
      prefix before it followed by event i. */
  lemma EventsStepSnoc(st: Loop, events: seq<WindowEvent>, i: nat, hit: Option<(nat, Vec3)>, ray: Ray, s: Surroundings)
    requires PlaneFound(events, s) && i < |events|
    ensures PlaneFound(events[..i], s) && PlaneFound(events[..i + 1], s)
    ensures IsKeyPress(events[i], N) ==> s.planeToi.Some?
    ensures EventsStep(st, events[..i + 1], hit, ray, s) == EventStep(EventsStep(st, events[..i], hit, ray, s), events[i], hit, ray, s)
  {
    assert events[..i + 1][..i] == events[..i];
  }

  /** The id of the box the mouse ray picks for hovering: the nearest listed
      box it hits, or none. */
  function Picked(cs: seq<Shared>, ray: Ray, cast: RayCaster): (r: Option<nat>)
    requires UniqueIds(cs)
    ensures r.Some? ==> IndexOf(cs, r.value).Some?
    ensures r.None? <==> forall i :: 0 <= i < |cs| ==> Tois(cs, ray, cast)[i].None?
  {
    NearestIntersectionIsNearest(cs, ray, cast);
    var hit := NearestIntersection(cs, ray, cast);
    if hit.Some? then Some(hit.value.0) else None
  }

  /** One pass of the loop: pick with the mouse ray, update the hover flags,
      clear the dirty flag, handle the events in order with the hit picked at
      the start, and apply the drag with the ray recomputed after the events. */
  function FrameStep(st: Loop, ray: Ray, events: seq<WindowEvent>, rayAfter: Ray, s: Surroundings): Loop
    requires UniqueIds(st.components) && PlaneFound(events, s)
  {
    var hit := NearestIntersection(st.components, ray, s.cast);
    var start := HoverStep(st, Picked(st.components, ray, s.cast)).(renderDirty := false);
    DragStep(EventsStep(start, events, hit, ray, s), rayAfter, s.num)
  }

  // ---------------------------------------------------------------------------
  // What the steps promise

  /** An event some arm may set the dirty flag for: a left release, a scroll,
      or a press of an arrow key, N, a translation key or a rotation key. */
  predicate MayDirty(e: WindowEvent) {
    match e
    case MouseEvent(button, action) => button == MouseButtonLeft && action == Release
    case ScrollEvent(_) => true
    case KeyEvent(k, action, _) =>
      action == Press && (k == Right || k == Left || k == N || k in TranslationKeys || k in RotationKeys)
    case OtherEvent => false
  }

  /** An event no arm of the match takes. */
  predicate Ignored(e: WindowEvent) {
    match e
    case MouseEvent(button, action) => !(button == MouseButtonLeft && (action == Press || action == Release))
    case ScrollEvent(_) => false
    case KeyEvent(k, action, _) =>
      k != Key.Escape &&
      (action != Press ||
       !(k == Right || k == Left || k == N || k == Key.Backspace || k in TranslationKeys || k in RotationKeys))
    case OtherEvent => true
  }

  /** Only an event that may dirty the frame changes the dirty flag, and an
      event no arm takes changes nothing at all. No event hands out an id
      other than the next one. */
  lemma EventStepFrame(st: Loop, e: WindowEvent, hit: Option<(nat, Vec3)>, ray: Ray, s: Surroundings)
    requires IsKeyPress(e, N) ==> s.planeToi.Some?
    ensures !MayDirty(e) ==> EventStep(st, e, hit, ray, s).renderDirty == st.renderDirty
    ensures Ignored(e) ==> EventStep(st, e, hit, ray, s) == st
    ensures EventStep(st, e, hit, ray, s).nextId == st.nextId + (if IsKeyPress(e, N) then 1 else 0)
  {
    match e
    case MouseEvent(button, action) =>
    case ScrollEvent(offset) =>
    case KeyEvent(k, action, shift) =>
      if k != Key.Escape && action == Press {
        KeyPressStepFrame(st, k, shift, s);
      }
    case OtherEvent =>
  }

  lemma KeyPressStepFrame(st: Loop, k: Key, shift: bool, s: Surroundings)
    requires k == N ==> s.planeToi.Some?
    ensures var r := KeyPressStep(st, k, shift, s);
            (!(k == Right || k == Left || k == N || k in TranslationKeys || k in RotationKeys) ==> r.renderDirty == st.renderDirty) &&
            (!(k == Right || k == Left || k == N || k == Key.Backspace || k in TranslationKeys || k in RotationKeys) ==> r == st) &&
            r.nextId == st.nextId + (if k == N then 1 else 0)
  {
  }

  /** A run of events none of which may dirty the frame leaves the dirty flag
      as it was. */
  lemma {:induction false} QuietEventsKeepDirty(st: Loop, events: seq<WindowEvent>, hit: Option<(nat, Vec3)>, ray: Ray, s: Surroundings)
    requires PlaneFound(events, s)
    requires forall i :: 0 <= i < |events| ==> !MayDirty(events[i])
    ensures EventsStep(st, events, hit, ray, s).renderDirty == st.renderDirty
    decreases |events|
  {
    if events != [] {
      var init := events[..|events| - 1];
      assert PlaneFound(init, s) by {
        assert forall i :: 0 <= i < |init| ==> init[i] == events[i];
      }
      assert forall i :: 0 <= i < |init| ==> !MayDirty(init[i]) by {
        assert forall i :: 0 <= i < |init| ==> init[i] == events[i];
      }
      QuietEventsKeepDirty(st, init, hit, ray, s);
      EventStepFrame(EventsStep(st, init, hit, ray, s), events[|events| - 1], hit, ray, s);
    }
  }

  /** A frame none of whose events may dirty it ends clean, so it renders
      nothing new. */
  lemma QuietFrameEndsClean(st: Loop, ray: Ray, events: seq<WindowEvent>, rayAfter: Ray, s: Surroundings)
    requires UniqueIds(st.components) && PlaneFound(events, s)
    requires forall i :: 0 <= i < |events| ==> !MayDirty(events[i])
    ensures !FrameStep(st, ray, events, rayAfter, s).renderDirty
  {
    var hit := NearestIntersection(st.components, ray, s.cast);
    var start := HoverStep(st, Picked(st.components, ray, s.cast)).(renderDirty := false);
    QuietEventsKeepDirty(start, events, hit, ray, s);
  }

  /** A frame without events moves only the hover flags, the dragged box and
      the dirty flag: the selection, snapshot, depth and next id stay, and
      without a snapshot the list is the hover pass's. */
  lemma EventlessFrame(st: Loop, ray: Ray, rayAfter: Ray, s: Surroundings)
    requires UniqueIds(st.components)
    ensures var r := FrameStep(st, ray, [], rayAfter, s);
            r.selection == st.selection && r.dragState == st.dragState &&
            r.iterationDepth == st.iterationDepth && r.nextId == st.nextId && !r.renderDirty &&
            (st.dragState.None? ==> r.components == HoverTarget(st.components, Picked(st.components, ray, s.cast)))
  {
  }
}
