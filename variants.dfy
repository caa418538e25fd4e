/** The closed family of camera models held by the manager's `std::variant`,
    and the part of each model's own contract that the manager relies on. */
module Variants {
  import opened Wrappers

  datatype Vec2 = Vec2(x: real, y: real)
  datatype Vec3 = Vec3(x: real, y: real, z: real)

  /** A Jacobian, row by row; its shape is not modelled. */
  type Matrix = seq<seq<real>>

  /** What a model's projection or unprojection produces: the point, and the
      Jacobians it wrote to the output slots it was given (if any). */
  datatype Output = Output(point: Vec2, jac: Option<Matrix>, jacc: Option<Matrix>)

  /** The alternatives of the variant. `Unknown` is the unset placeholder; every
      other alternative carries the model's intrinsic parameter vector, whose
      first four entries are fx, fy, cx, cy. */
  datatype Model =
    | Unknown
    | ATAN(p: seq<real>)
    | EquiDist(p: seq<real>)
    | RadTan(p: seq<real>)
    | Pinhole(p: seq<real>)

  /** The model's parameter count `DIM`: the length of its parameter vector,
      which no operation changes. */
  function DimOf(m: Model): nat
    requires !m.Unknown?
  {
    |m.p|
  }

  /** Both values hold the same alternative of the variant. */
  predicate SameAlternative(a: Model, b: Model)
  {
    a.Unknown? == b.Unknown? && a.ATAN? == b.ATAN? && a.EquiDist? == b.EquiDist? &&
    a.RadTan? == b.RadTan? && a.Pinhole? == b.Pinhole?
  }

  /** Element-wise sum of two parameter vectors of the same length. */
  function AddVec(a: seq<real>, b: seq<real>): (r: seq<real>)
    requires |a| == |b|
    ensures |r| == |a|
    ensures forall i :: 0 <= i < |a| ==> r[i] == a[i] + b[i]
  {
    if a == [] then [] else [a[0] + b[0]] + AddVec(a[1..], b[1..])
  }

  /** A model's own `UpdateState`: an additive correction of length `DIM` to its
      parameter vector, with no validation of the result. The alternative is
      kept. */
  function Adjust(m: Model, d: seq<real>): (r: Model)
    requires !m.Unknown? && |d| == DimOf(m)
    ensures SameAlternative(r, m) && !r.Unknown?
    ensures |r.p| == |m.p|
    ensures forall i :: 0 <= i < |m.p| ==> r.p[i] == m.p[i] + d[i]
  {
    match m
    case ATAN(p) => ATAN(AddVec(p, d))
    case EquiDist(p) => EquiDist(AddVec(p, d))
    case RadTan(p) => RadTan(AddVec(p, d))
    case Pinhole(p) => Pinhole(AddVec(p, d))
  }

  /** The formulas of one concrete model, which live outside the manager. Each
      takes the model's parameters; the two flags say whether the caller gave
      an output slot for the Jacobian w.r.t. the point (`jac`) and w.r.t. the
      intrinsics (`jacc`). */
  datatype Lens = Lens(
    project: (seq<real>, Vec3, bool, bool) -> Output,
    unproject: (seq<real>, Vec2, bool, bool) -> Output,
    describe: seq<real> -> string)

  /** One `Lens` per concrete alternative of the variant. */
  datatype Lenses = Lenses(atan: Lens, equiDist: Lens, radTan: Lens, pinhole: Lens)

  /** The formulas of the alternative `m` holds. */
  function ActiveLens(m: Model, lenses: Lenses): Lens
    requires !m.Unknown?
  {
    match m
    case ATAN(_) => lenses.atan
    case EquiDist(_) => lenses.equiDist
    case RadTan(_) => lenses.radTan
    case Pinhole(_) => lenses.pinhole
  }
}
