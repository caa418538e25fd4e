# CameraManager: a Dafny model

This project models the `CameraManager` of the xivo visual-inertial odometry
system (`src/camera_manager.h`). The manager holds one camera model out of a
closed set (ATAN, equidistant, radial-tangential, pinhole) in a
`std::variant`, or the placeholder `Unknown` when none was configured. It
forwards `Project`, `UnProject`, `Print` and `UpdateState` to whichever model
is active. It also keeps a cached copy of the intrinsics `fx, fy, cx, cy` and
the focal length `fl = sqrt(0.5 * (fx^2 + fy^2))`, which `UpdateState` advances
together with the model.

Files:

- `wrappers.dfy` (module `Wrappers`): `Option`, `Result` and `Outcome`.
- `variants.dfy` (module `Variants`): the variant as the datatype `Model`, with
  `Unknown` and one alternative per camera model, each carrying its intrinsic
  parameter vector. It also holds the part of each model's own contract that
  the manager relies on. `DIM` is the parameter count. A model's own
  `UpdateState` is an additive correction of length `DIM` (`Adjust`). The
  projection, unprojection and description formulas (`Lens`) are external.
- `dispatch.dfy` (module `Dispatch`): the `const` members `Project`,
  `UnProject` and `Print` as functions of the variant.
- `manager.dfy` (module `Manager`): the class `CameraManager` with the source's
  fields, its constructor, `UpdateState` and the getters. It also holds the
  relation `Updated` that specifies one update, the invariant `Mirrors` (the
  cache mirrors the active model), and lemmas about both.

Modelling choices:

- `LOG(FATAL)` stops the process. Each fatal condition is modelled as an error
  value in place of the result (`Failure(UnknownModel)`,
  `Failure(JaccNotImplemented)`, `Fail(UnknownModel)`). What would follow it is
  not modelled, and `UpdateState` leaves every field unchanged in that case.
- `ftype` is `real`. `std::sqrt` is a parameter `sqrt` of the members that call
  it. It is required to return the non-negative square root (`IsSquareRoot`).
  The focal length is specified only by the relation `IsFocalLength`:
  `fl >= 0 && fl * fl == 0.5 * (fx * fx + fy * fy)`.
- An optional output slot (`jac`, `jacc`, null when not wanted) is a flag saying whether the caller
  passed one. The Jacobians a model writes are part of its `Output`.
- `DIM` of a model is the length of its parameter vector. No operation changes
  it. Its concrete value for each model is defined in headers that are not
  part of this model, so any length of at least 4 is allowed.
- The length rules of `UpdateState` follow the code, not the wider reading
  that `dX` must be as long as the largest model's `DIM`. `dX.head<DIM>()`
  uses only the active model's `DIM`, and `dX(0..3)` needs four entries. So
  the requirement is `|dX| >= DIM(active model)` and `|dX| >= 4`. It applies
  only when a model is set, because the fatal branch is taken before any
  indexing.

## Model

| member | source | states |
|---|---|---|
| `Variants.Adjust` | src/camera_manager.h:95-102 | A model's own update adds the correction to each of its parameters, keeps the parameter count, and keeps the alternative of the variant. |
| `Dispatch.Project` | src/camera_manager.h:36-52 | Fatal (unknown camera model) exactly when the variant holds `Unknown`. Otherwise the result is the active alternative's own projection of `xc`, with the parameters that alternative holds and both Jacobian requests passed through unchanged. |
| `Dispatch.UnProject` | src/camera_manager.h:58-78 | A request for the intrinsics Jacobian is fatal for every variant, `Unknown` included, because it is checked first. Without that request, the call is fatal exactly when the variant holds `Unknown`. A successful call is the active alternative's own unprojection of `xp`, with `jac` passed through and no intrinsics Jacobian requested. |
| `Dispatch.Print` | src/camera_manager.h:80-92 | Fatal exactly when the variant holds `Unknown`. Otherwise the output is the active alternative's own description, which depends only on that model's parameters. |
| `Dispatch.DispatchIsLocal` | src/camera_manager.h:36-92 | Only the active alternative's formulas matter. Two sets of formulas that agree on the active alternative give equal results for `Project`, `UnProject` and `Print` on every input. |
| `Manager.RootIsFocalLength` | src/camera_manager.h:111 | `sqrt(0.5 * (fx*fx + fy*fy))` meets the focal-length relation: it is non-negative, and its square is `0.5 * (fx^2 + fy^2)`. |
| `Manager.FocalLengthUnique` | src/camera_manager.h:111 | At most one value meets the focal-length relation for given `fx` and `fy`. |
| `Manager.UpdateDeterministic` | src/camera_manager.h:94-112 | Two start states that differ at most in `fl` are updated by the same `dX` to the same state. So the update is deterministic, the new `fl` depends only on the new `fx` and `fy`, and any earlier `fl` is overwritten. |
| `Manager.UpdateKeepsMirror` | src/camera_manager.h:94-112 | Suppose the cache mirrors the active model: `dim` is its `DIM`, `fx, fy, cx, cy` are its first four parameters, and `fl` is their focal length. Then it still mirrors the model after an update. |
| `Manager.UpdateComposes` | src/camera_manager.h:94-112 | Two updates in a row equal one update by the entry-wise sum of the two corrections. This holds for the model's parameters, the cache and the focal length. |
| `Manager.UpdateUndone` | src/camera_manager.h:94-112 | From a mirrored state, an update followed by the opposite correction restores every field, `fl` included. |
| `Manager.PinholeScenario` | src/camera_manager.h:106-111 | Take a pinhole model with fx = fy = 500, cx = 320, cy = 240. After a correction of 1 to fx and fy only, fx = fy = 501, cx and cy are unchanged, the focal length is exactly 501, and the model's first four parameters match the cache. |
| `Manager.CameraManager.constructor` | src/camera_manager.h:127 | Sets the image size and the chosen model. When a model is set, the cache mirrors it. |
| `Manager.CameraManager.UpdateState` | src/camera_manager.h:94-112 | With `Unknown`, the call is fatal and changes nothing. Otherwise it reports success, and the new state satisfies `Updated`: the model's alternative is kept, and the model receives exactly `dX[0..DIM)` with its own `DIM`. The cache gets `fx + dX[0]`, `fy + dX[1]`, `cx + dX[2]`, `cy + dX[3]`. `fl` meets the focal-length relation for the new `fx`, `fy`. `rows`, `cols` and `dim` are unchanged. A mirrored cache stays mirrored. |
| `Manager.CameraManager.GetFocalLength` | src/camera_manager.h:114 | Returns the focal length. In a valid manager it meets the focal-length relation for the cached `fx` and `fy`. Reads only. |
| `Manager.CameraManager.Rows` | src/camera_manager.h:115 | Returns the image row count. Reads only. |
| `Manager.CameraManager.Cols` | src/camera_manager.h:116 | Returns the image column count. Reads only. |
| `Manager.CameraManager.Fx` | src/camera_manager.h:117 | In a valid manager, returns the active model's first parameter. |
| `Manager.CameraManager.Fy` | src/camera_manager.h:118 | In a valid manager, returns the active model's second parameter. |
| `Manager.CameraManager.Cx` | src/camera_manager.h:119 | In a valid manager, returns the active model's third parameter. |
| `Manager.CameraManager.Cy` | src/camera_manager.h:120 | In a valid manager, returns the active model's fourth parameter. |
| `Manager.CameraManager.Dim` | src/camera_manager.h:121 | In a valid manager, returns the active model's parameter count `DIM`. |
| `Manager.PinholeExample` | src/camera_manager.h:94-121 | On a manager object with a 640 x 480 pinhole camera (fx = fy = 500, cx = 320, cy = 240), `UpdateState([1, 1, 0, 0])` gives `fx() == 501` and `GetFocalLength() == 501`. The image size and `dim()` = 4 are unchanged. |

## Left out

- `scripts/calibrate_imu.py`: reading ROS bags, writing files and running an external calibrator is I/O with no logic of its own.
- The projection, unprojection, Jacobian and description formulas of the ATAN, equidistant, radial-tangential and pinhole models live in headers that are not part of this model. They are parameters (`Lens`), and no round-trip between projection and unprojection is claimed.
- A model is reduced to its parameter vector. Any other state a model holds is taken to be constant (part of its `Lens`) or derived from the parameters.
- The concrete `DIM` of each model is defined in those headers too. Here it is the length of the model's parameter vector.
- Floating-point rounding and `std::sqrt` itself: arithmetic is over `real`, and the square root is a parameter specified by its defining relation.
- `Create` and the JSON constructor (lines 29 and 127): their bodies are not part of this model. Configuration parsing is not modelled, and the constructor takes the parsed model directly.
- `Manager.CameraManager.constructor`: with `Unknown`, it promises nothing about the cache, because the JSON constructor's behaviour there is not part of this model.
- The process-wide `instance_` and `instance()` (lines 30 and 128), and the deleted copy constructor and assignment: these are lifecycle plumbing with no behaviour to state.
- `Print`'s `std::ostream` sink: the output is modelled as the returned text.
- Eigen matrix types and Jacobian shapes: a Jacobian is a `seq<seq<real>>` of unconstrained shape.
- `LOG(FATAL)` terminating the process: modelled as an error value.
- Concurrency: the manager has no synchronisation, and the model is sequential.
