/**
 * The cube viewer's matrix builders and its keyboard state machine: the
 * 4x4 column-major matrices it builds before handing them to the graphics
 * library, and the operation mode, projection mode, translation, rotation
 * angles and scale factors that the keys change.
 */
module Cube {

  // Operation modes.
  const TRANS: int := 0
  const ROT: int := 1
  const SCALE: int := 2

  // Projection modes.
  const PERSP: int := 0
  const ORTHO: int := 1

  /** The escape key, which quits the viewer. */
  const Esc: char := 27 as char

  // ---------------------------------------------------------------------
  // 4x4 matrices, column-major: entry (row r, column c) is m[4 * c + r]
  // ---------------------------------------------------------------------

  /** Slot i of the identity matrix. */
  function IdentityEntry(i: int): real {
    if i == 0 || i == 5 || i == 10 || i == 15 then 1.0 else 0.0
  }

  /** The identity matrix seikiSyokika writes. */
  function Identity(): (m: seq<real>)
    ensures |m| == 16
  {
    seq(16, i => IdentityEntry(i))
  }

  /** The four slots 0, 5, 10 and 15 are exactly the diagonal of the 4x4 matrix. */
  lemma IdentityIsDiagonal(r: nat, c: nat)
    requires r < 4 && c < 4
    ensures Identity()[4 * c + r] == if r == c then 1.0 else 0.0
  {
  }

  /** The matrix m applied to the homogeneous point p. */
  function Apply(m: seq<real>, p: seq<real>): (q: seq<real>)
    requires |m| == 16 && |p| == 4
    ensures |q| == 4
  {
    [ m[0] * p[0] + m[4] * p[1] + m[8] * p[2] + m[12] * p[3],
      m[1] * p[0] + m[5] * p[1] + m[9] * p[2] + m[13] * p[3],
      m[2] * p[0] + m[6] * p[1] + m[10] * p[2] + m[14] * p[3],
      m[3] * p[0] + m[7] * p[1] + m[11] * p[2] + m[15] * p[3] ]
  }

  /** m has the diagonal (a, b, c, 1), the offset column (d, e, f) and zeros elsewhere. */
  predicate IsAffine(m: seq<real>, a: real, b: real, c: real, d: real, e: real, f: real) {
    && |m| == 16
    && m[0] == a && m[5] == b && m[10] == c && m[15] == 1.0
    && m[12] == d && m[13] == e && m[14] == f
    && m[1] == 0.0 && m[2] == 0.0 && m[3] == 0.0 && m[4] == 0.0 && m[6] == 0.0
    && m[7] == 0.0 && m[8] == 0.0 && m[9] == 0.0 && m[11] == 0.0
  }

  /** Such a matrix scales each coordinate and adds w times its offset. */
  lemma AffineApply(m: seq<real>, a: real, b: real, c: real, d: real, e: real, f: real, x: real, y: real, z: real, w: real)
    requires IsAffine(m, a, b, c, d, e, f)
    ensures Apply(m, [x, y, z, w]) == [a * x + d * w, b * y + e * w, c * z + f * w, w]
  {
    var q := Apply(m, [x, y, z, w]);
    assert q[0] == a * x + d * w;
    assert q[1] == b * y + e * w;
    assert q[2] == c * z + f * w;
    assert q[3] == w;
  }

  /** The identity leaves every point where it is. */
  lemma IdentityFixesPoints(p: seq<real>)
    requires |p| == 4
    ensures Apply(Identity(), p) == p
  {
  }

  /** The matrix myTranslatef builds from an identity: slots 12, 13, 14 hold the offsets. */
  function TranslationMatrix(tx: real, ty: real, tz: real): (m: seq<real>)
    ensures |m| == 16
  {
    Identity()[12 := tx][13 := ty][14 := tz]
  }

  /** The translation matrix moves points by (tx, ty, tz) and leaves directions alone. */
  lemma TranslationMovesPoints(tx: real, ty: real, tz: real, x: real, y: real, z: real)
    ensures Apply(TranslationMatrix(tx, ty, tz), [x, y, z, 1.0]) == [x + tx, y + ty, z + tz, 1.0]
    ensures Apply(TranslationMatrix(tx, ty, tz), [x, y, z, 0.0]) == [x, y, z, 0.0]
  {
  }

  /** The matrix myScalef builds from an identity: slots 0, 5, 10 hold the factors. */
  function ScaleMatrix(sx: real, sy: real, sz: real): (m: seq<real>)
    ensures |m| == 16
  {
    Identity()[0 := sx][5 := sy][10 := sz]
  }

  /** The scale matrix stretches each coordinate by its own factor. */
  lemma ScaleStretchesPoints(sx: real, sy: real, sz: real, x: real, y: real, z: real, w: real)
    ensures Apply(ScaleMatrix(sx, sy, sz), [x, y, z, w]) == [sx * x, sy * y, sz * z, w]
  {
    AffineApply(ScaleMatrix(sx, sy, sz), sx, sy, sz, 0.0, 0.0, 0.0, x, y, z, w);
    var q := Apply(ScaleMatrix(sx, sy, sz), [x, y, z, w]);
    assert q[0] == sx * x && q[1] == sy * y && q[2] == sz * z && q[3] == w;
  }

  /** The matrix myOrtho builds from an identity. */
  function OrthoMatrix(left: real, right: real, bottom: real, top: real, near: real, far: real): (m: seq<real>)
    requires right != left && top != bottom && near != far
    ensures |m| == 16
  {
    Identity()
      [0 := 2.0 / (right - left)]
      [5 := 2.0 / (top - bottom)]
      [10 := 2.0 / (near - far)]
      [12 := (-1.0) * (right + left) / (right - left)]
      [13 := (-1.0) * (top + bottom) / (top - bottom)]
      [14 := (near + far) / (near - far)]
  }

  /**
   * The orthographic matrix maps the viewing box onto the cube [-1, 1]^3:
   * the near lower-left corner (left, bottom, -near) to (-1, -1, -1) and
   * the far upper-right corner (right, top, -far) to (1, 1, 1).
   */
  lemma OrthoMapsBoxToCube(left: real, right: real, bottom: real, top: real, near: real, far: real)
    requires right != left && top != bottom && near != far
    ensures Apply(OrthoMatrix(left, right, bottom, top, near, far), [left, bottom, -near, 1.0]) == [-1.0, -1.0, -1.0, 1.0]
    ensures Apply(OrthoMatrix(left, right, bottom, top, near, far), [right, top, -far, 1.0]) == [1.0, 1.0, 1.0, 1.0]
  {
    var a, d := 2.0 / (right - left), (-1.0) * (right + left) / (right - left);
    var b, e := 2.0 / (top - bottom), (-1.0) * (top + bottom) / (top - bottom);
    var c, f := 2.0 / (near - far), (near + far) / (near - far);
    var m := OrthoMatrix(left, right, bottom, top, near, far);
    AffineApply(m, a, b, c, d, e, f, left, bottom, -near, 1.0);
    AffineApply(m, a, b, c, d, e, f, right, top, -far, 1.0);
    var lo := Apply(m, [left, bottom, -near, 1.0]);
    var hi := Apply(m, [right, top, -far, 1.0]);
    OrthoAxis(left, right);
    OrthoAxis(bottom, top);
    OrthoDepth(near, far);
    assert lo[0] == -1.0 && lo[1] == -1.0 && lo[2] == -1.0 && lo[3] == 1.0;
    assert hi[0] == 1.0 && hi[1] == 1.0 && hi[2] == 1.0 && hi[3] == 1.0;
  }

  /** On the x and y axes the matrix sends lo to -1 and hi to 1. */
  lemma OrthoAxis(lo: real, hi: real)
    requires hi != lo
    ensures 2.0 / (hi - lo) * lo + (-1.0) * (hi + lo) / (hi - lo) == -1.0
    ensures 2.0 / (hi - lo) * hi + (-1.0) * (hi + lo) / (hi - lo) == 1.0
  {
    var d := hi - lo;
    assert 2.0 / d * lo == 2.0 * lo / d;
    assert 2.0 / d * hi == 2.0 * hi / d;
    assert (-1.0) * (hi + lo) / d == -(hi + lo) / d;
    assert 2.0 * lo / d + -(hi + lo) / d == (lo - hi) / d;
    assert 2.0 * hi / d + -(hi + lo) / d == (hi - lo) / d;
  }

  /** On the depth axis the matrix sends -near to -1 and -far to 1. */
  lemma OrthoDepth(near: real, far: real)
    requires near != far
    ensures 2.0 / (near - far) * -near + (near + far) / (near - far) == -1.0
    ensures 2.0 / (near - far) * -far + (near + far) / (near - far) == 1.0
  {
    var d := near - far;
    assert 2.0 / d * -near == -2.0 * near / d;
    assert 2.0 / d * -far == -2.0 * far / d;
    assert -2.0 * near / d + (near + far) / d == (far - near) / d;
    assert -2.0 * far / d + (near + far) / d == (near - far) / d;
  }

  // ---------------------------------------------------------------------
  // The keyboard state machine on values
  // ---------------------------------------------------------------------

  /** The viewer's mode and transform state. */
  datatype ViewState = ViewState(opMode: int, projMode: int, trans: seq<real>, angle: seq<real>, scale: seq<real>) {

    /** Modes hold one of their named values, each transform has three entries. */
    predicate Valid() {
      && (opMode == TRANS || opMode == ROT || opMode == SCALE)
      && (projMode == PERSP || projMode == ORTHO)
      && |trans| == 3 && |angle| == 3 && |scale| == 3
    }
  }

  /** The state the program starts in. */
  function Initial(): (s: ViewState)
    ensures s.Valid()
  {
    ViewState(TRANS, PERSP, [0.0, 0.0, 0.0], [0.0, 0.0, 0.0], [1.0, 1.0, 1.0])
  }

  predicate IsAxisKey(k: char) {
    k == 'x' || k == 'X' || k == 'y' || k == 'Y' || k == 'z' || k == 'Z'
  }

  /** The axis an axis key acts on: 0 for x, 1 for y, 2 for z. */
  function AxisOf(k: char): (ax: nat)
    requires IsAxisKey(k)
    ensures ax < 3
  {
    if k == 'x' || k == 'X' then 0 else if k == 'y' || k == 'Y' then 1 else 2
  }

  /** The amounts of the lower-case (decreasing) and upper-case (increasing) keys. */
  function TransStep(up: bool): real { if up then 0.5 else -0.5 }
  function AngleStep(up: bool): real { if up then 5.0 else -5.0 }
  function ScaleFactor(up: bool): real { if up then 1.1 else 0.9 }

  /** An axis key: changes entry ax of the array the operation mode selects. */
  function Nudge(s: ViewState, ax: nat, up: bool): (r: ViewState)
    requires s.Valid() && ax < 3
    ensures r.Valid() && r.opMode == s.opMode && r.projMode == s.projMode
  {
    if s.opMode == TRANS then s.(trans := s.trans[ax := s.trans[ax] + TransStep(up)])
    else if s.opMode == ROT then s.(angle := s.angle[ax := s.angle[ax] + AngleStep(up)])
    else s.(scale := s.scale[ax := s.scale[ax] * ScaleFactor(up)])
  }

  /** What one key press does to the state. */
  function KeyEffect(s: ViewState, k: char): ViewState
    requires s.Valid()
  {
    if k == 'p' then s.(projMode := 1 - s.projMode)
    else if k == 't' || k == 'T' then s.(opMode := TRANS)
    else if k == 'r' || k == 'R' then s.(opMode := ROT)
    else if k == 's' || k == 'S' then s.(opMode := SCALE)
    else if IsAxisKey(k) then Nudge(s, AxisOf(k), k == 'X' || k == 'Y' || k == 'Z')
    else s
  }

  /** Every key keeps the state valid. */
  lemma KeyEffectKeepsValid(s: ViewState, k: char)
    requires s.Valid()
    ensures KeyEffect(s, k).Valid()
  {
  }

  /** 'p' switches between perspective and orthographic and touches nothing else. */
  lemma ProjectionKeyFlips(s: ViewState)
    requires s.Valid()
    ensures var t := KeyEffect(s, 'p');
      && t.projMode == (if s.projMode == PERSP then ORTHO else PERSP)
      && t.opMode == s.opMode && t.trans == s.trans && t.angle == s.angle && t.scale == s.scale
  {
  }

  /** Pressing 'p' twice restores the state. */
  lemma ProjectionKeyTwiceRestores(s: ViewState)
    requires s.Valid()
    ensures KeyEffect(s, 'p').Valid()
    ensures KeyEffect(KeyEffect(s, 'p'), 'p') == s
  {
  }

  /** The mode keys select an operation mode and change nothing else. */
  lemma ModeKeySetsMode(s: ViewState, k: char)
    requires s.Valid()
    requires k in "tTrRsS"
    ensures var t := KeyEffect(s, k);
      && t.opMode == (if k in "tT" then TRANS else if k in "rR" then ROT else SCALE)
      && t.projMode == s.projMode && t.trans == s.trans && t.angle == s.angle && t.scale == s.scale
  {
  }

  /**
   * An axis key changes exactly one entry: the one at its axis, in the
   * array the operation mode selects, by -0.5/+0.5 (translation), -5/+5
   * (angle) or a factor 0.9/1.1 (scale).
   */
  lemma AxisKeyChangesOneEntry(s: ViewState, k: char)
    requires s.Valid()
    requires IsAxisKey(k)
    ensures var t := KeyEffect(s, k);
      var ax := AxisOf(k);
      var up := k == 'X' || k == 'Y' || k == 'Z';
      && t.Valid()
      && t.opMode == s.opMode && t.projMode == s.projMode
      && (forall i :: 0 <= i < 3 && i != ax ==>
            t.trans[i] == s.trans[i] && t.angle[i] == s.angle[i] && t.scale[i] == s.scale[i])
      && t.trans[ax] == (if s.opMode == TRANS then s.trans[ax] + TransStep(up) else s.trans[ax])
      && t.angle[ax] == (if s.opMode == ROT then s.angle[ax] + AngleStep(up) else s.angle[ax])
      && t.scale[ax] == (if s.opMode == SCALE then s.scale[ax] * ScaleFactor(up) else s.scale[ax])
  {
  }

  /**
   * In translation and rotation mode a lower-case axis key followed by its
   * upper-case partner restores the state; in scale mode the pair
   * multiplies the factor by 0.99 instead.
   */
  lemma AxisKeyPair(s: ViewState, ax: nat)
    requires s.Valid() && ax < 3
    ensures var lower := "xyz"[ax];
      var upper := "XYZ"[ax];
      var t := KeyEffect(KeyEffect(s, lower), upper);
      && (s.opMode != SCALE ==> t == s)
      && (s.opMode == SCALE ==> t == s.(scale := s.scale[ax := s.scale[ax] * 0.99]))
  {
    var lower := "xyz"[ax];
    var upper := "XYZ"[ax];
    assert AxisOf(lower) == ax && AxisOf(upper) == ax;
    var mid := KeyEffect(s, lower);
    if s.opMode == TRANS {
      assert mid.trans[ax := mid.trans[ax] + 0.5] == s.trans;
    } else if s.opMode == ROT {
      assert mid.angle[ax := mid.angle[ax] + 5.0] == s.angle;
    }
  }

  /** Keys the viewer does not handle, and escape, leave the state unchanged. */
  lemma OtherKeysChangeNothing(s: ViewState, k: char)
    requires s.Valid()
    requires k !in "ptTrRsSxXyYzZ"
    ensures KeyEffect(s, k) == s
  {
  }

  // ---------------------------------------------------------------------
  // The viewer's globals, updated in place
  // ---------------------------------------------------------------------

  /** The program's global state: modes, the three transform arrays and seiki. */
  class Viewer {
    var opMode: int
    var projMode: int
    var trans: array<real>
    var angle: array<real>
    var scale: array<real>
    var seiki: array<real>

    ghost predicate Valid()
      reads this, trans, angle, scale
    {
      && trans.Length == 3 && angle.Length == 3 && scale.Length == 3 && seiki.Length == 16
      && trans != angle && trans != scale && angle != scale
      && seiki != trans && seiki != angle && seiki != scale
      && State().Valid()
    }

    /** The mode and transform state as a value. */
    ghost function State(): ViewState
      reads this, trans, angle, scale
    {
      ViewState(opMode, projMode, trans[..], angle[..], scale[..])
    }

    /** The globals' initial values; seiki starts zeroed, as a static array does. */
    constructor()
      ensures Valid()
      ensures State() == Initial()
      ensures seiki[..] == seq(16, _ => 0.0)
      ensures fresh(trans) && fresh(angle) && fresh(scale) && fresh(seiki)
    {
      opMode := TRANS;
      projMode := PERSP;
      trans := new real[3] [0.0, 0.0, 0.0];
      angle := new real[3] [0.0, 0.0, 0.0];
      scale := new real[3] [1.0, 1.0, 1.0];
      seiki := new real[16] (_ => 0.0);
    }

    /** seikiSyokika: writes the identity matrix into seiki, slot by slot. */
    method SeikiSyokika()
      requires Valid()
      modifies seiki
      ensures Valid()
      ensures seiki[..] == Identity()
      ensures State() == old(State())
    {
      var i := 0;
      while i < 16
        invariant 0 <= i <= 16
        invariant forall j :: 0 <= j < i ==> seiki[j] == IdentityEntry(j)
      {
        if i == 0 || i == 5 || i == 10 || i == 15 {
          seiki[i] := 1.0;
        } else {
          seiki[i] := 0.0;
        }
        i := i + 1;
      }
    }

    /** The loop the matrix builders share: a local copy of seiki. */
    method CopySeiki() returns (m: array<real>)
      requires seiki.Length == 16
      ensures fresh(m)
      ensures m[..] == seiki[..]
    {
      m := new real[16];
      var i := 0;
      while i < 16
        invariant 0 <= i <= 16
        invariant forall j :: 0 <= j < i ==> m[j] == seiki[j]
      {
        m[i] := seiki[i];
        i := i + 1;
      }
    }

    /**
     * The matrix myTranslatef hands on: seiki with slots 12, 13, 14
     * replaced by the offsets; the translation matrix when seiki holds
     * the identity.
     */
    method MyTranslatef(tx: real, ty: real, tz: real) returns (m: seq<real>)
      requires seiki.Length == 16
      ensures |m| == 16
      ensures forall i :: 0 <= i < 16 && i != 12 && i != 13 && i != 14 ==> m[i] == seiki[i]
      ensures m[12] == tx && m[13] == ty && m[14] == tz
      ensures seiki[..] == Identity() ==> m == TranslationMatrix(tx, ty, tz)
    {
      var a := CopySeiki();
      a[12] := tx;
      a[13] := ty;
      a[14] := tz;
      m := a[..];
    }

    /**
     * The matrix myScalef hands on: seiki with slots 0, 5, 10 replaced by
     * the factors; the scale matrix when seiki holds the identity.
     */
    method MyScalef(sx: real, sy: real, sz: real) returns (m: seq<real>)
      requires seiki.Length == 16
      ensures |m| == 16
      ensures forall i :: 0 <= i < 16 && i != 0 && i != 5 && i != 10 ==> m[i] == seiki[i]
      ensures m[0] == sx && m[5] == sy && m[10] == sz
      ensures seiki[..] == Identity() ==> m == ScaleMatrix(sx, sy, sz)
    {
      var a := CopySeiki();
      a[0] := sx;
      a[5] := sy;
      a[10] := sz;
      m := a[..];
    }

    /**
     * The matrix myOrtho hands on: seiki with the scale slots 0, 5, 10 and
     * the offset slots 12, 13, 14 replaced; the orthographic matrix when
     * seiki holds the identity.
     */
    method MyOrtho(left: real, right: real, bottom: real, top: real, near: real, far: real) returns (m: seq<real>)
      requires seiki.Length == 16
      requires right != left && top != bottom && near != far
      ensures |m| == 16
      ensures forall i :: 0 <= i < 16 && i !in {0, 5, 10, 12, 13, 14} ==> m[i] == seiki[i]
      ensures m[0] == 2.0 / (right - left) && m[5] == 2.0 / (top - bottom) && m[10] == 2.0 / (near - far)
      ensures m[12] == (-1.0) * (right + left) / (right - left)
      ensures m[13] == (-1.0) * (top + bottom) / (top - bottom)
      ensures m[14] == (near + far) / (near - far)
      ensures seiki[..] == Identity() ==> m == OrthoMatrix(left, right, bottom, top, near, far)
    {
      var a := CopySeiki();
      a[0] := 2.0 / (right - left);
      a[5] := 2.0 / (top - bottom);
      a[10] := 2.0 / (near - far);
      a[12] := (-1.0) * (right + left) / (right - left);
      a[13] := (-1.0) * (top + bottom) / (top - bottom);
      a[14] := (near + far) / (near - far);
      m := a[..];
    }

    /** translate: adds amt to the translation along ax. */
    method Translate(ax: nat, amt: real)
      requires Valid() && ax < 3
      modifies trans
      ensures Valid()
      ensures State() == old(State()).(trans := old(trans[..])[ax := old(trans[ax]) + amt])
    {
      trans[ax] := trans[ax] + amt;
    }

    /** rotate: adds amt to the angle around ax. */
    method Rotate(ax: nat, amt: real)
      requires Valid() && ax < 3
      modifies angle
      ensures Valid()
      ensures State() == old(State()).(angle := old(angle[..])[ax := old(angle[ax]) + amt])
    {
      angle[ax] := angle[ax] + amt;
    }

    /** scale: multiplies the scale factor along ax by amt. */
    method Scale(ax: nat, amt: real)
      requires Valid() && ax < 3
      modifies scale
      ensures Valid()
      ensures State() == old(State()).(scale := old(scale[..])[ax := old(scale[ax]) * amt])
    {
      scale[ax] := scale[ax] * amt;
    }

    /** The three tests of an axis key: the one the current mode selects acts. */
    method AxisKey(ax: nat, up: bool)
      requires Valid() && ax < 3
      modifies trans, angle, scale
      ensures Valid()
      ensures State() == Nudge(old(State()), ax, up)
    {
      ghost var s := State();
      if opMode == TRANS {
        Translate(ax, TransStep(up));
      }
      if opMode == ROT {
        Rotate(ax, AngleStep(up));
      }
      if opMode == SCALE {
        ghost var v := scale[ax];
        assert v == s.scale[ax];
        Scale(ax, ScaleFactor(up));
        assert scale[ax] == v * ScaleFactor(up);
        assert scale[..] == s.scale[ax := v * ScaleFactor(up)];
      }
    }

    /**
     * keyboard: applies one key press; escape asks the program to quit
     * and changes nothing.
     */
    method Keyboard(k: char) returns (quit: bool)
      requires Valid()
      modifies this, trans, angle, scale
      ensures Valid()
      ensures trans == old(trans) && angle == old(angle) && scale == old(scale) && seiki == old(seiki)
      ensures quit <==> k == Esc
      ensures State() == KeyEffect(old(State()), k)
    {
      quit := false;
      if k == Esc {
        quit := true;
      } else if k == 'p' {
        projMode := 1 - projMode;
      } else if k == 't' || k == 'T' {
        opMode := TRANS;
      } else if k == 'r' || k == 'R' {
        opMode := ROT;
      } else if k == 's' || k == 'S' {
        opMode := SCALE;
      } else if k == 'x' {
        AxisKey(0, false);
      } else if k == 'X' {
        AxisKey(0, true);
      } else if k == 'y' {
        AxisKey(1, false);
      } else if k == 'Y' {
        AxisKey(1, true);
      } else if k == 'z' {
        AxisKey(2, false);
      } else if k == 'Z' {
        AxisKey(2, true);
      }
    }
  }
}
