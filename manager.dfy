/** The camera manager: the active model plus a cached copy of the four common
    intrinsics and the focal length derived from them. */
module Manager {
  import opened Wrappers
  import opened Variants
  import opened Dispatch

  /** Every field of a manager, as one value. */
  datatype ManagerState = ManagerState(
    rows: int, cols: int, dim: int,
    fx: real, fy: real, cx: real, cy: real,
    fl: real,
    model: Model)

  /** `fl` is the focal length of `fx` and `fy`: sqrt(0.5 * (fx^2 + fy^2)). */
  predicate IsFocalLength(fl: real, fx: real, fy: real)
  {
    0.0 <= fl && fl * fl == 0.5 * (fx * fx + fy * fy)
  }

  /** `sqrt` returns the non-negative square root of every non-negative real. */
  ghost predicate IsSquareRoot(sqrt: real -> real)
  {
    forall v :: 0.0 <= v ==> 0.0 <= sqrt(v) && sqrt(v) * sqrt(v) == v
  }

  /** The cache is a mirror of the active model: `dim` is its parameter count,
      fx, fy, cx, cy are its first four parameters and `fl` is derived from them. */
  predicate Mirrors(s: ManagerState)
  {
    !s.model.Unknown? && |s.model.p| >= 4 && s.dim == DimOf(s.model) &&
    s.fx == s.model.p[0] && s.fy == s.model.p[1] &&
    s.cx == s.model.p[2] && s.cy == s.model.p[3] &&
    IsFocalLength(s.fl, s.fx, s.fy)
  }

  /** `t` is what `UpdateState(dX)` makes of `s` when a model is set: the model
      gets the first `DIM` entries of `dX` (its own `DIM`), the cache gets
      dX[0..4), `fl` is derived from the new fx and fy, and the image size and
      `dim` are kept. */
  predicate Updated(s: ManagerState, dX: seq<real>, t: ManagerState)
  {
    !s.model.Unknown? && |dX| >= DimOf(s.model) && |dX| >= 4 &&
    t.model == Adjust(s.model, dX[..DimOf(s.model)]) &&
    t.fx == s.fx + dX[0] && t.fy == s.fy + dX[1] &&
    t.cx == s.cx + dX[2] && t.cy == s.cy + dX[3] &&
    IsFocalLength(t.fl, t.fx, t.fy) &&
    t.rows == s.rows && t.cols == s.cols && t.dim == s.dim
  }

  /** Only one value can be the focal length of fx and fy. */
  lemma FocalLengthUnique(a: real, b: real, fx: real, fy: real)
    requires IsFocalLength(a, fx, fy) && IsFocalLength(b, fx, fy)
    ensures a == b
  {
    if a < b {
      SquareMonotone(a, b);
    } else if b < a {
      SquareMonotone(b, a);
    }
  }

  /** Squaring is strictly increasing on the non-negative reals. */
  lemma SquareMonotone(a: real, b: real)
    requires 0.0 <= a < b
    ensures a * a < b * b
  {
    assert a * (b - a) >= 0.0;
    assert b * (b - a) > 0.0;
  }

  /** The square root of 0.5 * (fx^2 + fy^2) is the focal length of fx and fy. */
  lemma RootIsFocalLength(sqrt: real -> real, fx: real, fy: real)
    requires IsSquareRoot(sqrt)
    ensures IsFocalLength(sqrt(0.5 * (fx * fx + fy * fy)), fx, fy)
  {
  }

  /** The state after an update is determined by `dX` and the state before,
      except for its `fl`: two states that differ at most in `fl` are updated
      to the same state, so the new `fl` is derived from the new fx and fy
      alone and any earlier `fl` is overwritten. */
  lemma UpdateDeterministic(s1: ManagerState, s2: ManagerState, dX: seq<real>,
                            t1: ManagerState, t2: ManagerState)
    requires s1.(fl := 0.0) == s2.(fl := 0.0)
    requires Updated(s1, dX, t1) && Updated(s2, dX, t2)
    ensures t1 == t2
  {
    FocalLengthUnique(t1.fl, t2.fl, t1.fx, t1.fy);
  }

  /** An update keeps the cache a mirror of the model. */
  lemma UpdateKeepsMirror(s: ManagerState, dX: seq<real>, t: ManagerState)
    requires Mirrors(s) && Updated(s, dX, t)
    ensures Mirrors(t)
  {
  }

  /** Two updates in a row are one update by the sum of the two corrections. */
  lemma UpdateComposes(s: ManagerState, d1: seq<real>, t1: ManagerState,
                       d2: seq<real>, t2: ManagerState, d: seq<real>)
    requires Updated(s, d1, t1) && Updated(t1, d2, t2)
    requires |d| == |d1| == |d2|
    requires forall i :: 0 <= i < |d| ==> d[i] == d1[i] + d2[i]
    ensures Updated(s, d, t2)
  {
  }

  /** An update followed by the opposite correction restores a mirrored state,
      focal length included. */
  lemma UpdateUndone(s: ManagerState, d: seq<real>, t: ManagerState, e: seq<real>, u: ManagerState)
    requires Mirrors(s) && Updated(s, d, t) && Updated(t, e, u)
    requires |e| == |d|
    requires forall i :: 0 <= i < |d| ==> d[i] + e[i] == 0.0
    ensures u == s
  {
    FocalLengthUnique(u.fl, s.fl, s.fx, s.fy);
  }

  /** The example of a Pinhole camera with fx = fy = 500, cx = 320, cy = 240:
      after a correction of 1 to fx and fy alone, fx = fy = 501 and the focal
      length is 501. */
  lemma PinholeScenario(s: ManagerState, dX: seq<real>, t: ManagerState)
    requires s.model.Pinhole? && |s.model.p| >= 4
    requires s.model.p[..4] == [500.0, 500.0, 320.0, 240.0] && Mirrors(s)
    requires |dX| == |s.model.p| && dX[0] == 1.0 && dX[1] == 1.0
    requires forall i :: 2 <= i < |dX| ==> dX[i] == 0.0
    requires Updated(s, dX, t)
    ensures t.fx == 501.0 && t.fy == 501.0 && t.cx == 320.0 && t.cy == 240.0
    ensures t.fl == 501.0
    ensures t.model.Pinhole? && t.model.p[..4] == [501.0, 501.0, 320.0, 240.0]
  {
    assert s.fx == 500.0 && s.fy == 500.0 && s.cx == 320.0 && s.cy == 240.0;
    assert IsFocalLength(501.0, t.fx, t.fy);
    FocalLengthUnique(t.fl, 501.0, t.fx, t.fy);
  }

  class CameraManager {
    var rows: int
    var cols: int
    var fx: real
    var fy: real
    var cx: real
    var cy: real
    var fl: real
    var model: Model
    var dim: int

    /** All fields, as one value. */
    ghost function State(): ManagerState
      reads this
    {
      ManagerState(rows, cols, dim, fx, fy, cx, cy, fl, model)
    }

    /** A model is set and the cache mirrors it. */
    ghost predicate Valid()
      reads this
    {
      Mirrors(State())
    }

    /** Construction from an already-parsed configuration: the image size, the
        chosen model (`Unknown` when the configured name was not recognised)
        and the square root used for the focal length. */
    constructor (rows: int, cols: int, model: Model, sqrt: real -> real)
      requires IsSquareRoot(sqrt)
      requires !model.Unknown? ==> |model.p| >= 4
      ensures this.rows == rows && this.cols == cols && this.model == model
      ensures !model.Unknown? ==> Valid()
    {
      this.rows := rows;
      this.cols := cols;
      this.model := model;
      if model.Unknown? {
        fx, fy, cx, cy, fl, dim := 0.0, 0.0, 0.0, 0.0, 0.0, 0;
      } else {
        fx, fy, cx, cy := model.p[0], model.p[1], model.p[2], model.p[3];
        dim := |model.p|;
        var root := sqrt(0.5 * (model.p[0] * model.p[0] + model.p[1] * model.p[1]));
        RootIsFocalLength(sqrt, model.p[0], model.p[1]);
        fl := root;
      }
    }

    /** Apply the correction `dX` to the active model and to the cache. Fatal,
        with nothing changed, when no model is set. */
    method UpdateState(dX: seq<real>, sqrt: real -> real) returns (status: Outcome<Fatal>)
      requires IsSquareRoot(sqrt)
      requires !model.Unknown? ==> |dX| >= DimOf(model) && |dX| >= 4
      modifies this
      ensures old(model).Unknown? ==> status == Fail(UnknownModel) && State() == old(State())
      ensures !old(model).Unknown? ==> status == Pass && Updated(old(State()), dX, State())
      ensures old(Valid()) ==> Valid()
    {
      if model.Unknown? {
        return Fail(UnknownModel);
      }
      ghost var before := State();
      model := Adjust(model, dX[..DimOf(model)]);
      fx := fx + dX[0];
      fy := fy + dX[1];
      cx := cx + dX[2];
      cy := cy + dX[3];
      var root := sqrt(0.5 * (fx * fx + fy * fy));
      RootIsFocalLength(sqrt, fx, fy);
      fl := root;
      status := Pass;
      if old(Valid()) {
        UpdateKeepsMirror(before, dX, State());
      }
    }

    /** The focal length derived from the cached fx and fy. */
    function GetFocalLength(): (r: real)
      reads this
      ensures Valid() ==> IsFocalLength(r, fx, fy)
    {
      fl
    }

    function Rows(): (r: int)
      reads this
      ensures r == rows
    {
      rows
    }

    function Cols(): (r: int)
      reads this
      ensures r == cols
    {
      cols
    }

    /** The first parameter of the active model. */
    function Fx(): (r: real)
      reads this
      ensures Valid() ==> r == model.p[0]
    {
      fx
    }

    /** The second parameter of the active model. */
    function Fy(): (r: real)
      reads this
      ensures Valid() ==> r == model.p[1]
    {
      fy
    }

    /** The third parameter of the active model. */
    function Cx(): (r: real)
      reads this
      ensures Valid() ==> r == model.p[2]
    {
      cx
    }

    /** The fourth parameter of the active model. */
    function Cy(): (r: real)
      reads this
      ensures Valid() ==> r == model.p[3]
    {
      cy
    }

    /** The parameter count of the active model. */
    function Dim(): (r: int)
      reads this
      ensures Valid() ==> r == DimOf(model)
    {
      dim
    }
  }

  /** The Pinhole example on a manager object: 640 x 480 image, fx = fy = 500,
      cx = 320, cy = 240, then a correction of 1 to fx and fy. */
  method PinholeExample(sqrt: real -> real) returns (fl: real, fx: real, rows: int, cols: int, dim: int)
    requires IsSquareRoot(sqrt)
    ensures fl == 501.0 && fx == 501.0
    ensures rows == 480 && cols == 640 && dim == 4
  {
    var cam := new CameraManager(480, 640, Pinhole([500.0, 500.0, 320.0, 240.0]), sqrt);
    var status := cam.UpdateState([1.0, 1.0, 0.0, 0.0], sqrt);
    fl, fx, rows, cols, dim := cam.GetFocalLength(), cam.Fx(), cam.Rows(), cam.Cols(), cam.Dim();
    assert IsFocalLength(501.0, 501.0, 501.0);
    FocalLengthUnique(fl, 501.0, 501.0, 501.0);
  }
}
