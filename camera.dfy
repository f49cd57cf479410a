/**
 * The orbit/pan/zoom camera (PyIGL_viewer/viewer/camera.py). The committed view
 * is eye/target/up; drags write the working copy current_eye/current_target/
 * current_up, which finalize_transformation commits. The vectors are numpy arrays,
 * here `array<real>` of length 3, because reset and finalize_transformation make
 * a committed vector and its working copy the same object, and handle_zoom
 * updates the committed eye in place.
 */
module Camera {
  import opened Values

  datatype V3 = V3(x: real, y: real, z: real)

  function Add(a: V3, b: V3): V3 { V3(a.x + b.x, a.y + b.y, a.z + b.z) }

  function Sub(a: V3, b: V3): V3 { V3(a.x - b.x, a.y - b.y, a.z - b.z) }

  function Scale(k: real, a: V3): V3 { V3(k * a.x, k * a.y, k * a.z) }

  function Dot(a: V3, b: V3): real { a.x * b.x + a.y * b.y + a.z * b.z }

  /** `np.cross`: the result is orthogonal to both arguments. */
  function Cross(a: V3, b: V3): (c: V3)
    ensures Dot(c, a) == 0.0 && Dot(c, b) == 0.0
  {
    V3(a.y * b.z - a.z * b.y, a.z * b.x - a.x * b.z, a.x * b.y - a.y * b.x)
  }

  /** The exception a division by a zero viewport size raises. */
  datatype ArithmeticError = ZeroDivisionError

  /** A 3x3 matrix, row by row, as `rotate` returns it. */
  datatype Mat3 = Mat3(r0: V3, r1: V3, r2: V3)

  /** `np.matmul` of a 3x3 matrix with a 3-vector. */
  function Apply(m: Mat3, v: V3): V3 { V3(Dot(m.r0, v), Dot(m.r1, v), Dot(m.r2, v)) }

  /**
   * The routines of projection.py the camera calls. Their floating-point
   * trigonometry and square roots are not modelled: the camera is stated for
   * whatever functions are supplied here.
   */
  datatype ProjectionMath = ProjectionMath(
    magnitude: V3 -> real,
    normalize: V3 -> V3,
    rotate: (real, V3) -> Mat3,
    lookat: (V3, V3, V3) -> Mat4,
    perspective: (real, real, real, real) -> Mat4)

  /** `handle_zoom` clamps its factor into [-0.9, 0.9]. */
  function ZoomFactor(delta: real): (d: real)
    ensures -0.9 <= d <= 0.9
    ensures -0.9 <= delta <= 0.9 ==> d == delta
    ensures delta > 0.9 ==> d == 0.9
    ensures delta < -0.9 ==> d == -0.9
  {
    var d := if delta < 0.9 then delta else 0.9;
    if d > -0.9 then d else -0.9
  }

  /**
   * The working eye and target after a pan by (dx, dy), already divided by the
   * viewport size: both move by the same offset along up and left, so the eye
   * keeps its position relative to the target.
   */
  function Translated(eye: V3, target: V3, up: V3, dx: real, dy: real, math: ProjectionMath): (r: (V3, V3))
    ensures Sub(r.0, r.1) == Sub(eye, target)
    ensures Sub(r.0, eye) == Sub(r.1, target)
  {
    var left := Cross(up, math.normalize(Sub(eye, target)));
    (Sub(Add(eye, Scale(dy, up)), Scale(dx, left)), Sub(Add(target, Scale(dy, up)), Scale(dx, left)))
  }

  /**
   * The working eye and up after an orbit by the pointer delta (dx, dy): the
   * eye-to-target vector is turned about the left vector by the scaled dy and
   * about up by the scaled dx, and the eye is put back at its old distance
   * along the normalized result.
   */
  function Orbit(eye: V3, target: V3, up: V3, dx: real, dy: real, math: ProjectionMath): (r: (V3, V3))
  {
    var ax := -0.2 * dx;
    var ay := -0.2 * dy;
    var target_vector := Sub(eye, target);
    var dist_target := math.magnitude(target_vector);
    var left_vector := Cross(up, math.normalize(target_vector));
    var rotation_x := math.rotate(ay, left_vector);
    var rotation_y := math.rotate(ax, up);
    var rotated_target := math.normalize(Apply(rotation_y, Apply(rotation_x, target_vector)));
    var rotated_left := Apply(rotation_y, left_vector);
    (Add(target, Scale(dist_target, rotated_target)), Cross(rotated_target, rotated_left))
  }

  /**
   * Each of the three committed vectors and the working copies is an array
   * of length 3, and each committed vector and its working copy share no
   * array with the other two pairs.
   */
  predicate Layout(eye: array<real>, current_eye: array<real>, target: array<real>, current_target: array<real>,
                   up: array<real>, current_up: array<real>)
  {
    && eye.Length == 3 && target.Length == 3 && up.Length == 3
    && current_eye.Length == 3 && current_target.Length == 3 && current_up.Length == 3
    && eye != target && eye != current_target && current_eye != target && current_eye != current_target
    && eye != up && eye != current_up && current_eye != up && current_eye != current_up
    && target != up && target != current_up && current_target != up && current_target != current_up
  }

  class Camera {
    var width: int
    var height: int
    var aspect_ratio: real
    var field_of_view: real
    var near_plane: real
    var far_plane: real

    var eye: array<real>
    var target: array<real>
    var up: array<real>
    var current_eye: array<real>
    var current_target: array<real>
    var current_up: array<real>

    /**
     * Every vector has three entries, and only a committed vector and its own
     * working copy may be one object: eye, target and up never share storage.
     */
    ghost predicate Valid()
      reads this
    {
      Layout(eye, current_eye, target, current_target, up, current_up)
    }

    function Eye(): V3 reads this, eye requires Valid() { V3(eye[0], eye[1], eye[2]) }

    function Target(): V3 reads this, target requires Valid() { V3(target[0], target[1], target[2]) }

    function Up(): V3 reads this, up requires Valid() { V3(up[0], up[1], up[2]) }

    function CurrentEye(): V3 reads this, current_eye requires Valid() {
      V3(current_eye[0], current_eye[1], current_eye[2])
    }

    function CurrentTarget(): V3 reads this, current_target requires Valid() {
      V3(current_target[0], current_target[1], current_target[2])
    }

    function CurrentUp(): V3 reads this, current_up requires Valid() {
      V3(current_up[0], current_up[1], current_up[2])
    }

    /** The six vector objects, committed first. */
    ghost function Vectors(): seq<array<real>> reads this {
      [eye, target, up, current_eye, current_target, current_up]
    }

    /** The viewport size and the projection parameters. */
    ghost function Lens(): (int, int, real, real, real, real) reads this {
      (width, height, aspect_ratio, field_of_view, near_plane, far_plane)
    }

    constructor (width: int, height: int)
      requires height != 0
      ensures Valid()
      ensures this.width == width && this.height == height
      ensures aspect_ratio == width as real / height as real
      ensures field_of_view == 60.0 && near_plane == 0.01 && far_plane == 100.0
      ensures Eye() == V3(0.0, 0.0, 1.0) && Target() == V3(0.0, 0.0, 0.0) && Up() == V3(0.0, 1.0, 0.0)
      ensures current_eye == eye && current_target == target && current_up == up
      ensures fresh(eye) && fresh(target) && fresh(up)
    {
      this.width := width;
      this.height := height;
      aspect_ratio := width as real / height as real;
      new;
      Reset();
    }

    /**
     * Restores the default lens and view. The working copy becomes the same
     * objects as the committed vectors; the viewport size is kept. Applying it
     * twice gives the same values as applying it once.
     */
    method Reset()
      modifies this
      ensures Valid()
      ensures (field_of_view, near_plane, far_plane) == (60.0, 0.01, 100.0)
      ensures fresh(eye) && fresh(target) && fresh(up)
      ensures (Eye(), Target(), Up()) == (V3(0.0, 0.0, 1.0), V3(0.0, 0.0, 0.0), V3(0.0, 1.0, 0.0))
      ensures (current_eye, current_target, current_up) == (eye, target, up)
      ensures (width, height, aspect_ratio) == old((width, height, aspect_ratio))
    {
      field_of_view, near_plane, far_plane := 60.0, 0.01, 100.0;
      ResetView();
    }

    /** The view part of `reset`: new default vectors, shared with the working copy. */
    method ResetView()
      modifies this
      ensures Valid()
      ensures fresh(eye) && fresh(target) && fresh(up)
      ensures (Eye(), Target(), Up()) == (V3(0.0, 0.0, 1.0), V3(0.0, 0.0, 0.0), V3(0.0, 1.0, 0.0))
      ensures (current_eye, current_target, current_up) == (eye, target, up)
      ensures Lens() == old(Lens())
    {
      var e := new real[] [0.0, 0.0, 1.0];
      var t := new real[] [0.0, 0.0, 0.0];
      var u := new real[] [0.0, 1.0, 0.0];
      eye, target, up, current_eye, current_target, current_up := e, t, u, e, t, u;
    }

    /** A zero height raises before anything is assigned. */
    method HandleResize(width: int, height: int) returns (error: Option<ArithmeticError>)
      requires Valid()
      modifies this
      ensures Valid()
      ensures error.Some? <==> height == 0
      ensures error.None? ==> aspect_ratio == width as real / height as real
      ensures error.None? ==> this.width == width && this.height == height
      ensures error.Some? ==> (this.width, this.height, aspect_ratio) == old((this.width, this.height, aspect_ratio))
      ensures field_of_view == old(field_of_view) && near_plane == old(near_plane) && far_plane == old(far_plane)
      ensures Vectors() == old(Vectors())
    {
      if height == 0 {
        return Some(ZeroDivisionError);
      }
      aspect_ratio := width as real / height as real;
      this.width := width;
      this.height := height;
      error := None;
    }

    /** Orbits the working eye around the committed target; writes only current_eye and current_up. */
    method HandleRotation(dx: real, dy: real, math: ProjectionMath)
      requires Valid()
      modifies this
      ensures Valid()
      ensures fresh(current_eye) && fresh(current_up)
      ensures (CurrentEye(), CurrentUp()) == Orbit(Eye(), Target(), Up(), dx, dy, math)
      ensures eye == old(eye) && target == old(target) && up == old(up) && current_target == old(current_target)
      ensures Lens() == old(Lens())
    {
      var r := Orbit(Eye(), Target(), Up(), dx, dy, math);
      current_up := new real[] [r.1.x, r.1.y, r.1.z];
      current_eye := new real[] [r.0.x, r.0.y, r.0.z];
    }

    /**
     * Pans: the working eye and target move by the same offset, scaled by the
     * viewport size, from the committed eye and target. A zero width or height
     * raises before any vector is written.
     */
    method HandleTranslation(dx: real, dy: real, math: ProjectionMath) returns (error: Option<ArithmeticError>)
      requires Valid()
      modifies this
      ensures Valid()
      ensures Lens() == old(Lens())
      ensures error.Some? <==> width == 0 || height == 0
      ensures error.Some? ==> Vectors() == old(Vectors())
      ensures error.None? ==> fresh(current_eye) && fresh(current_target)
      ensures error.None? ==>
        (CurrentEye(), CurrentTarget()) == Translated(Eye(), Target(), Up(), dx / width as real, dy / height as real, math)
      ensures error.None? ==> Sub(CurrentEye(), CurrentTarget()) == Sub(Eye(), Target())
      ensures eye == old(eye) && target == old(target) && up == old(up) && current_up == old(current_up)
    {
      if width == 0 || height == 0 {
        return Some(ZeroDivisionError);
      }
      var r := Translated(Eye(), Target(), Up(), dx / width as real, dy / height as real, math);
      current_eye := new real[] [r.0.x, r.0.y, r.0.z];
      current_target := new real[] [r.1.x, r.1.y, r.1.z];
      error := None;
    }

    /** Commits the working copy: each committed vector becomes its working copy's object. */
    method FinalizeTransformation()
      requires Valid()
      modifies this
      ensures Valid()
      ensures eye == current_eye && target == current_target && up == current_up
      ensures Vectors() == old([current_eye, current_target, current_up, current_eye, current_target, current_up])
      ensures Lens() == old(Lens())
    {
      eye := current_eye;
      target := current_target;
      up := current_up;
    }

    /**
     * Moves the committed eye, in place, along the eye-to-target line by the
     * clamped factor. A working eye that is the same object moves with it.
     */
    method HandleZoom(delta: real)
      requires Valid()
      modifies eye
      ensures Valid()
      ensures Sub(Eye(), Target()) == Scale(1.0 + ZoomFactor(delta), old(Sub(Eye(), Target())))
      ensures Eye() == Add(old(Eye()), Scale(ZoomFactor(delta), old(Sub(Eye(), Target()))))
      ensures Target() == old(Target()) && Up() == old(Up())
      ensures CurrentTarget() == old(CurrentTarget()) && CurrentUp() == old(CurrentUp())
      ensures CurrentEye() == if current_eye == eye then Eye() else old(CurrentEye())
    {
      var target_vector := Sub(Eye(), Target());
      var d := ZoomFactor(delta);
      eye[0] := eye[0] + d * target_vector.x;
      eye[1] := eye[1] + d * target_vector.y;
      eye[2] := eye[2] + d * target_vector.z;
    }

    /** The working eye object itself, not a copy. */
    function GetPosition(): (p: array<real>)
      reads this
      requires Valid()
      ensures p == current_eye && p.Length == 3
    {
      current_eye
    }

    /** The view is built from the working copy, not from the committed vectors. */
    function GetViewMatrix(math: ProjectionMath): (m: Mat4)
      reads this, current_eye, current_target, current_up
      requires Valid()
      ensures m == math.lookat(CurrentEye(), CurrentTarget(), CurrentUp())
    {
      math.lookat(V3(current_eye[0], current_eye[1], current_eye[2]),
                  V3(current_target[0], current_target[1], current_target[2]),
                  V3(current_up[0], current_up[1], current_up[2]))
    }

    function GetProjectionMatrix(math: ProjectionMath): (m: Mat4)
      reads this
      ensures m == math.perspective(field_of_view, aspect_ratio, near_plane, far_plane)
    {
      math.perspective(field_of_view, aspect_ratio, near_plane, far_plane)
    }
  }
}
