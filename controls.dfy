/** The edits a key press or a scroll applies to one box, shared by the frame
    loop and the split-out input handlers. */
module Controls {
  import opened Options
  import opened Linear
  import opened Events
  import opened Components
  import opened Constants

  // ---------------------------------------------------------------------------
  // Translation

  /** The direction a translation key moves a box: W +z, S -z, A +x, D -x,
      R +y, F -y (the same in the frame loop and in the handler). */
  function TranslationAxis(k: Key): Vec3
    requires k in TranslationKeys
  {
    match k
    case W => Vec3(0.0, 0.0, 1.0)
    case S => Vec3(0.0, 0.0, -1.0)
    case A => Vec3(1.0, 0.0, 0.0)
    case D => Vec3(-1.0, 0.0, 0.0)
    case R => Vec3(0.0, 1.0, 0.0)
    case F => Vec3(0.0, -1.0, 0.0)
  }

  /** The key that moves a box back along the same axis. */
  function OppositeTranslationKey(k: Key): (r: Key)
    requires k in TranslationKeys
    ensures r in TranslationKeys && r != k
  {
    match k
    case W => S
    case S => W
    case A => D
    case D => A
    case R => F
    case F => R
  }

  /** The opposite key points the other way, and taking the opposite twice
      gives the key back. */
  lemma OppositeTranslationKeyReverses(k: Key)
    requires k in TranslationKeys
    ensures var a := TranslationAxis(k);
            TranslationAxis(OppositeTranslationKey(k)) == Vec3(-a.x, -a.y, -a.z)
    ensures OppositeTranslationKey(OppositeTranslationKey(k)) == k
  {
  }

  /** The translation step: the base step, or base times fine with Shift. */
  function TranslateFactor(shift: bool): (r: real)
    ensures r > 0.0
  {
    if shift then 0.01 else 0.1
  }

  /** `comp.origin += step * axis`. */
  function Translated(c: Component, k: Key, step: real): (r: Component)
    requires k in TranslationKeys
    ensures r.(origin := c.origin) == c
  {
    c.(origin := c.origin.Add(TranslationAxis(k).Scaled(step)))
  }

  /** A translation moves the origin by exactly the step along exactly one axis:
      one coordinate changes by ±step, the other two are kept. */
  lemma TranslatedMovesOneAxis(c: Component, k: Key, step: real)
    requires k in TranslationKeys
    ensures var o := c.origin; var p := Translated(c, k, step).origin;
            (k == W ==> p == Vec3(o.x, o.y, o.z + step)) && (k == S ==> p == Vec3(o.x, o.y, o.z - step)) &&
            (k == A ==> p == Vec3(o.x + step, o.y, o.z)) && (k == D ==> p == Vec3(o.x - step, o.y, o.z)) &&
            (k == R ==> p == Vec3(o.x, o.y + step, o.z)) && (k == F ==> p == Vec3(o.x, o.y - step, o.z))
  {
  }

  /** Pressing a key and then the opposite key, with the same step, restores
      the box exactly. */
  lemma OppositeTranslationsCancel(c: Component, k: Key, step: real)
    requires k in TranslationKeys
    ensures Translated(Translated(c, k, step), OppositeTranslationKey(k), step) == c
  {
    TranslatedMovesOneAxis(c, k, step);
    TranslatedMovesOneAxis(Translated(c, k, step), OppositeTranslationKey(k), step);
  }

  // ---------------------------------------------------------------------------
  // Rotation

  /** The rotation a rotation key applies in the frame loop: I about +x, K about
      -x (negated angle), J about z with a negated angle, L about z, U about y
      with a negated angle, O about y. */
  function FrameLoopRotation(k: Key, factor: real): (q: Quat)
    requires k in RotationKeys
    ensures q.AxisAngle? && (q.turns == factor || q.turns == -factor)
  {
    match k
    case I => AxisAngle(XAxis, factor)
    case K => AxisAngle(XAxis, -factor)
    case J => AxisAngle(ZAxis, -factor)
    case L => AxisAngle(ZAxis, factor)
    case U => AxisAngle(YAxis, -factor)
    case O => AxisAngle(YAxis, factor)
  }

  /** The rotation the split-out rotation handler applies: a positive angle
      about I +z, K -z, J +x, L -x, U +y, O -y. */
  function HandlerRotation(k: Key, factor: real): (q: Quat)
    requires k in RotationKeys
    ensures q.AxisAngle? && q.turns == factor
  {
    match k
    case I => AxisAngle(ZAxis, factor)
    case K => AxisAngle(ZAxis.Scaled(-1.0), factor)
    case J => AxisAngle(XAxis, factor)
    case L => AxisAngle(XAxis.Scaled(-1.0), factor)
    case U => AxisAngle(YAxis, factor)
    case O => AxisAngle(YAxis.Scaled(-1.0), factor)
  }

  /** The rotation step in turns: the base step, or base times fine with Shift. */
  function RotateFactor(shift: bool): (r: real)
    ensures r > 0.0
  {
    if shift then 1.0 / 288.0 else 1.0 / 24.0
  }

  /** `comp.orientation *= q`: the new orientation is the old one followed by q. */
  function Rotated(c: Component, q: Quat): (r: Component)
    ensures r.(orientation := c.orientation) == c
  {
    c.(orientation := Mul(c.orientation, q))
  }

  /** The two key maps disagree on every key: the frame loop turns I and K about
      x while the handler turns them about z, and so on. */
  lemma RotationMapsDiffer(k: Key, factor: real)
    requires k in RotationKeys && factor != 0.0
    ensures FrameLoopRotation(k, factor) != HandlerRotation(k, factor)
  {
  }

  /** `orientation = UnitQuaternion::identity()`. */
  function ResetOrientation(c: Component): (r: Component)
    ensures r.(orientation := c.orientation) == c
    ensures r.orientation == Identity
  {
    c.(orientation := Identity)
  }

  /** Resetting twice is resetting once. */
  lemma ResetOrientationIdempotent(c: Component)
    ensures ResetOrientation(ResetOrientation(c)) == ResetOrientation(c)
  {
  }

  // ---------------------------------------------------------------------------
  // Scale

  /** `0.0f32.max(x)`. */
  function ClampAtZero(x: real): (r: real)
    ensures r >= 0.0
    ensures x >= 0.0 ==> r == x
    ensures x < 0.0 ==> r == 0.0
  {
    if x > 0.0 then x else 0.0
  }

  /** The scale change per scroll unit: the base step, or base times fine. */
  function ScaleAdjustment(fine: bool): (r: real)
    ensures r > 0.0
  {
    if fine then 0.015 else 0.06
  }

  /** The hue change per scroll unit, in degrees: the base step, or base times
      fine. */
  function ColorAdjustment(fine: bool): (r: real)
    ensures r > 0.0
  {
    if fine then 0.5 else 2.0
  }

  /** The scale change of a scroll by `offset` units, the step per unit times
      the offset, written out per case so that it stays linear in the offset. */
  function ScaleDelta(fine: bool, offset: real): real {
    if fine then 0.015 * offset else 0.06 * offset
  }

  /** The hue change of a scroll by `offset` units, in degrees, written out
      the same way. */
  function HueAngle(fine: bool, offset: real): real {
    if fine then 0.5 * offset else 2.0 * offset
  }

  /** A scroll changes the scale and the hue by the step per unit times the
      number of units, and in the direction of the scroll. */
  lemma ScrollChangesAreStepTimesOffset(fine: bool, offset: real)
    ensures ScaleDelta(fine, offset) == ScaleAdjustment(fine) * offset
    ensures HueAngle(fine, offset) == ColorAdjustment(fine) * offset
    ensures offset > 0.0 ==> ScaleDelta(fine, offset) > 0.0 && HueAngle(fine, offset) > 0.0
    ensures offset < 0.0 ==> ScaleDelta(fine, offset) < 0.0 && HueAngle(fine, offset) < 0.0
  {
  }

  /** The steps are the base constants, times the fine constants when Shift
      is held, and a Shift step is strictly smaller than a plain one. (The
      steps are written as literals so that the vector arithmetic that uses
      them stays linear.) */
  lemma StepsMatchConstants()
    ensures TranslateFactor(false) == TranslateAdjustBase
    ensures TranslateFactor(true) == TranslateAdjustBase * TranslateAdjustFine < TranslateFactor(false)
    ensures RotateFactor(false) == RotateAdjustBase
    ensures RotateFactor(true) == RotateAdjustBase * RotateAdjustFine < RotateFactor(false)
    ensures ScaleAdjustment(false) == ScaleAdjustBase
    ensures ScaleAdjustment(true) == ScaleAdjustBase * ScaleAdjustFine < ScaleAdjustment(false)
    ensures ColorAdjustment(false) == ColorAdjustBase
    ensures ColorAdjustment(true) == ColorAdjustBase * ColorAdjustFine < ColorAdjustment(false)
  {
  }

  /** The scale key that takes effect when several are held: B, then X, Y, Z. */
  function ScaleKeyHeld(held: set<Key>): (r: Option<Key>)
    ensures r.None? <==> held * ScaleKeys == {}
    ensures r.Some? ==> r.value in held && r.value in ScaleKeys
    ensures r.Some? && B in held ==> r.value == B
  {
    if B in held then assert B in held * ScaleKeys; Some(B)
    else if X in held then assert X in held * ScaleKeys; Some(X)
    else if Y in held then assert Y in held * ScaleKeys; Some(Y)
    else if Z in held then assert Z in held * ScaleKeys; Some(Z)
    else None
  }

  /** The scale edit for a held key: B moves all three axes by `delta`, X, Y, Z
      only their own; every changed axis is clamped at zero. */
  function Rescaled(c: Component, k: Key, delta: real): (r: Component)
    requires k in ScaleKeys
    ensures r.(scale := c.scale) == c
  {
    var s := c.scale;
    match k
    case B => c.(scale := Vec3(ClampAtZero(s.x + delta), ClampAtZero(s.y + delta), ClampAtZero(s.z + delta)))
    case X => c.(scale := s.(x := ClampAtZero(s.x + delta)))
    case Y => c.(scale := s.(y := ClampAtZero(s.y + delta)))
    case Z => c.(scale := s.(z := ClampAtZero(s.z + delta)))
  }

  /** After a scale edit the edited axes are never negative, and a box whose
      scale was non-negative keeps a non-negative scale. */
  lemma RescaledNonNegative(c: Component, k: Key, delta: real)
    requires k in ScaleKeys
    ensures c.scale.NonNegative() ==> Rescaled(c, k, delta).scale.NonNegative()
    ensures k == B ==> Rescaled(c, k, delta).scale.NonNegative()
  {
  }

  /** X, Y and Z change only their own axis; B changes each axis the same way,
      and an axis whose sum stays non-negative gets exactly old + delta. */
  lemma RescaledPerAxis(c: Component, k: Key, delta: real)
    requires k in ScaleKeys
    ensures var s := c.scale; var t := Rescaled(c, k, delta).scale;
            (k == X ==> t.y == s.y && t.z == s.z && t.x == ClampAtZero(s.x + delta)) &&
            (k == Y ==> t.x == s.x && t.z == s.z && t.y == ClampAtZero(s.y + delta)) &&
            (k == Z ==> t.x == s.x && t.y == s.y && t.z == ClampAtZero(s.z + delta)) &&
            (k == B ==> t == Vec3(ClampAtZero(s.x + delta), ClampAtZero(s.y + delta), ClampAtZero(s.z + delta))) &&
            (k in {B, X} && s.x + delta >= 0.0 ==> t.x == s.x + delta) &&
            (k in {B, Y} && s.y + delta >= 0.0 ==> t.y == s.y + delta) &&
            (k in {B, Z} && s.z + delta >= 0.0 ==> t.z == s.z + delta)
  {
  }

  // ---------------------------------------------------------------------------
  // Creation

  /** The box an N press creates: the defaults of `Component::new`, placed at the
      point where the mouse ray meets the camera plane, with every scale
      component doubled when Shift is held. */
  function Created(at: Vec3, shift: bool): (r: Component)
    ensures r.(origin := New().origin, scale := New().scale) == New()
    ensures r.origin == at
    ensures r.scale == (if shift then Vec3(2.0, 2.0, 2.0) else Ones)
  {
    var c := New().(origin := at);
    if shift then c.(scale := c.scale.Scaled(2.0)) else c
  }
}
