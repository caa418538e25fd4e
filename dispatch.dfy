/** The manager's read-only members `Project`, `UnProject` and `Print`: each
    reads only the variant and forwards to the alternative it holds. */
module Dispatch {
  import opened Wrappers
  import opened Variants

  /** The two fatal conditions the manager reports. */
  datatype Fatal = UnknownModel | JaccNotImplemented

  /** Project the camera-frame point `xc` to pixel coordinates. `jac` and
      `jacc` say whether the caller asked for the Jacobians; both requests are
      passed on unchanged. Fatal exactly when no model is set. */
  function Project(m: Model, lenses: Lenses, xc: Vec3, jac: bool, jacc: bool): (r: Result<Output, Fatal>)
    ensures r.Failure? <==> m.Unknown?
    ensures r.Failure? ==> r.error == UnknownModel
    ensures r.Success? ==> r.value == ActiveLens(m, lenses).project(m.p, xc, jac, jacc)
  {
    match m
    case ATAN(p) => Success(lenses.atan.project(p, xc, jac, jacc))
    case EquiDist(p) => Success(lenses.equiDist.project(p, xc, jac, jacc))
    case RadTan(p) => Success(lenses.radTan.project(p, xc, jac, jacc))
    case Pinhole(p) => Success(lenses.pinhole.project(p, xc, jac, jacc))
    case Unknown => Failure(UnknownModel)
  }

  /** Unproject the pixel `xp` to a camera-frame direction. A request for the
      Jacobian w.r.t. the intrinsics is refused before the variant is looked
      at, so it is refused even when no model is set, and the model that is
      called never sees one. */
  function UnProject(m: Model, lenses: Lenses, xp: Vec2, jac: bool, jacc: bool): (r: Result<Output, Fatal>)
    ensures jacc ==> r == Failure(JaccNotImplemented)
    ensures !jacc && m.Unknown? ==> r == Failure(UnknownModel)
    ensures r.Success? <==> !jacc && !m.Unknown?
    ensures r.Success? ==> r.value == ActiveLens(m, lenses).unproject(m.p, xp, jac, false)
  {
    if jacc then
      Failure(JaccNotImplemented)
    else
      match m
      case ATAN(p) => Success(lenses.atan.unproject(p, xp, jac, jacc))
      case EquiDist(p) => Success(lenses.equiDist.unproject(p, xp, jac, jacc))
      case RadTan(p) => Success(lenses.radTan.unproject(p, xp, jac, jacc))
      case Pinhole(p) => Success(lenses.pinhole.unproject(p, xp, jac, jacc))
      case Unknown => Failure(UnknownModel)
  }

  /** The text the active model writes about itself; the manager adds nothing
      of its own. Fatal exactly when no model is set. */
  function Print(m: Model, lenses: Lenses): (r: Result<string, Fatal>)
    ensures r.Failure? <==> m.Unknown?
    ensures r.Failure? ==> r.error == UnknownModel
    ensures r.Success? ==> r.value == ActiveLens(m, lenses).describe(m.p)
  {
    match m
    case ATAN(p) => Success(lenses.atan.describe(p))
    case EquiDist(p) => Success(lenses.equiDist.describe(p))
    case RadTan(p) => Success(lenses.radTan.describe(p))
    case Pinhole(p) => Success(lenses.pinhole.describe(p))
    case Unknown => Failure(UnknownModel)
  }

  /** The formulas of the alternatives that are not active play no part: two
      sets of formulas that agree on the active alternative give the same
      results for every call. */
  lemma DispatchIsLocal(m: Model, l1: Lenses, l2: Lenses, xc: Vec3, xp: Vec2, jac: bool, jacc: bool)
    requires !m.Unknown? && ActiveLens(m, l1) == ActiveLens(m, l2)
    ensures Project(m, l1, xc, jac, jacc) == Project(m, l2, xc, jac, jacc)
    ensures UnProject(m, l1, xp, jac, jacc) == UnProject(m, l2, xp, jac, jacc)
    ensures Print(m, l1) == Print(m, l2)
  {
  }
}
