# Ray tracer core in Dafny

This project models the core of the *Ray Tracing in One Weekend* renderer (C++) and proves properties of it:

- the scene queries: the nearest-hit scan of `HittableList`, bounding-box aggregation, BVH construction and BVH traversal;
- the geometric predicates: spheres, moving spheres, the three axis-aligned rectangles, boxes, the `aabb` slab test and `surround`, and `set_face_normal`;
- the scatter rules of the four materials, with Schlick's reflectance polynomial;
- the camera and its primary rays;
- the recursive integrator `get_ray_color` and the per-channel arithmetic of `write_color`.

`double` is idealised as `real`. The IEEE constant `infinity`, which the renderer only uses as an upper ray parameter, is `Bound.Infinity`.

`sqrt`, `tan`, `acos`, `atan2` and `unit_vector` are fields of an oracle value of type `Numerics.Lib` that carries no axioms. A property that needs an exact square root says so in its `requires`, through `Numerics.ExactSqrtAt`, and one that needs the range of `acos` or `atan2` says so in the same way. `refract` and `length` are defined on top of `sqrt`.

Every `rand()` result is a parameter of type `Util.RandDraw`, which holds values in `0..RAND_MAX`. `RAND_MAX` is fixed at 32767, the smallest value the C standard allows; it is a property of the platform, and no proved property depends on its value. The rejection-sampling loops `random_in_unit_sphere` and `random_in_unit_disk` are replaced by their outcome, given as a parameter. The BVH builder draws its axes from a stream `rand: nat -> RandDraw` and returns how many draws it used.

C++ out-parameters (`hit_record&`, `aabb&`, `Color&`, `ray&`) become an input holding the caller's old value, and the new value is returned. That makes "left unchanged on a miss" a provable statement.

The model follows the code as written, including its surprises.

- **`aabb::surround`** leaves `minPoint` alone and sets `maxPoint` to the other box's maximum (aabb.h:53-54). So a list's bounding box has its minimum at the origin, and its maximum is that of the last member that has a box. Proved by `Aabbs.SurroundIsNotUnion`, `Hittables.ListBoundingBox` and `Bvh.NodeBox`.
- **`aabb::hit`** only ever widens its interval (aabb.h:42-43). So it reports a miss only when the caller's interval is already empty, and with `t_max = infinity` it always reports a hit. Proved by `Aabbs.MissMeansClosedInterval`, `Aabbs.BoxBehindRayIsHit` and `Bvh.BvhBoxIrrelevant`.
- **`BvhNode::hit`** returns the left child's hit without asking the right child (bvh_node.h:111-115). So it can report a hit that is farther than the nearest one. Proved by `Bvh.BvhHitCases` and `Bvh.BvhReportsFartherHit`.
- **A BVH span of two** is ordered by comparing the objects' addresses (bvh_node.h:82), which appears here as the oracle `ptrGreater`.
- **An empty span** of `BvhNode`'s range constructor recurses without end, so `Bvh.Build` requires `start < end`.
- **`Box`** hands its y extent to the `z0, z1` parameters of `Rect_yz`, and its z extent to `y0, y1` (box.h:24-25 against axis_rectangle.h:127). So a ray can cross the box's `x = max.x` face and still miss the box. Proved by `Boxes.BoxSidesLayout` and `Boxes.SwappedSideMissesFace`.
- **`DiffuseLight::color_emitted`** is not `const`, so it does not override `Material::color_emitted` (material.h:10 against material.h:103). Emission through a `Material` reference is black, so a ray that hits a light is black: `Integrator.LightIsBlack`.

`Sorting.SortRange` is an in-place insertion sort with a comparator. It stands in for `std::sort` (bvh_node.h:89), which the standard library does not specify further. `HittableList`, `aabb` and `Vec3` are classes whose methods update their state in place. The shapes, materials, textures, rays and the camera are values.

## Model

| member | source | states |
|---|---|---|
| `Util.StdMin` | aabb.h:38 | result is at most both operands and is one of them |
| `Util.StdMax` | aabb.h:39 | result is at least both operands and is one of them |
| `Util.MaxBound` | aabb.h:43 | `max(t_max, t1)` where `t_max` may be `infinity`. It is `t_max` or `t1`. No `t` at or below `t1` exceeds it, and anything not exceeding `t_max` does not exceed it |
| `Util.Clamp` | util.h:17-21 | returns `min` below `min`, `max` above `max` and `x` between them; it lies in `[min, max]` when `min <= max` |
| `Util.DegreeToRadians` | util.h:23-26 | 180 degrees is `pi`, 0 maps to 0, and the sign is kept |
| `Util.RadiansToDegree` | util.h:28-31 | the unique inverse of `degreeToRadians`: `degreeToRadians(radiansToDegree(r)) == r`, and no other degree value maps to `r` |
| `Util.DegreesRoundTrip` | util.h:23-31 | `radiansToDegree(degreeToRadians(d)) == d` |
| `Util.RandomDouble` | util.h:33-36 | lies in `[0, 1)` for every `rand()` value |
| `Util.RandomDoubleIn` | util.h:38-41 | lies in `[min, max)` when `min < max`, and equals `min` when `min == max` |
| `Util.CRem` | util.h:45 | C's `%`, which truncates toward zero: the remainder has the dividend's sign, is smaller than the divisor in magnitude, and recombines with C's truncating quotient `Util.CQuot` into the dividend |
| `Util.RandomInt` | util.h:43-46 | lies in `[min, max]` (both ends included) when `min <= max` |
| `Vectors.WithIndex` | vec3.h:20 | writing `v[i]` changes component `i` to the new value and keeps the other two |
| `Vectors.AddScalar` | vec3.h:101-104 | adds the offset to every component |
| `Vectors.SubScalar` | vec3.h:106-109 | subtracts the offset from every component; adding it back restores the vector |
| `Vectors.RandomInHemisphere` | vec3.h:184-191 | result is the sample or its negation, has the sample's squared length, and has a non-negative dot product with the normal |
| `Vectors.LengthSquaredIsDot` | vec3.h:51-53 | `length_squared()` equals `dot(v, v)`. It is non-negative, and positive for a nonzero vector |
| `Vectors.CrossOrthogonal` | vec3.h:143-150 | `cross(v, u)` is orthogonal to both `v` and `u` |
| `Vectors.CrossAntisymmetric` | vec3.h:143-150 | `cross(v, u) == -cross(u, v)`, so `cross(v, v)` is zero |
| `Vectors.CrossLength` | vec3.h:143-150 | Lagrange's identity: `|v x u|^2 == |v|^2 |u|^2 - (v . u)^2` |
| `Vectors.AddGroup` | vec3.h:111-119 | `+` is commutative with unit zero; `-` undoes `+`; `v - u == v + (-u)`; unary `-` (vec3.h:23-26) is an involution and equals scaling by -1 |
| `Vectors.MulUnit` | vec3.h:121-124 | the component-wise product is commutative, with white as unit and zero as annihilator |
| `Vectors.DivUndoesScale` | vec3.h:125-136 | for `t != 0`, `(v * t) / t == v` and `(v / t) * t == v` |
| `Vectors.DotBilinear` | vec3.h:138-141 | `dot` is symmetric and linear in its first argument |
| `Vectors.LengthSquaredScale` | vec3.h:51-53 | `length_squared(v * t) == t^2 length_squared(v)` |
| `Vectors.ReflectFlipsNormal` | vec3.h:193-196 | for a unit `n`, `dot(reflect(v, n), n) == -dot(v, n)` |
| `Vectors.ReflectInvolutive` | vec3.h:193-196 | for a unit `n`, reflecting twice gives `v` back, and reflection keeps the squared length |
| `Vectors.RefractKeepsTangent` | vec3.h:198-207 | for a unit `n`, the part of `refract(v, n, eta)` tangential to `n` is `eta` times the tangential part of `v`, whatever `sqrt` returns |
| `Vectors.NearZeroMeansShort` | vec3.h:69-73 | `near_zero` implies a squared length below `3e-16`, and a squared length below `1e-16` implies `near_zero` |
| `Vectors.Vec3Var.constructor` | vec3.h:12 | the array holds `(x, y, z)` |
| `Vectors.Vec3Var.Default` | vec3.h:10 | the array holds `(0, 0, 0)` |
| `Vectors.Vec3Var.Get` | vec3.h:15-19 | returns component `i` |
| `Vectors.Vec3Var.Set` | vec3.h:20 | the mutable `operator[]`: sets component `i` and keeps the other two |
| `Vectors.Vec3Var.Assign` | vec3.h:7-12 | copy assignment: the array holds the new vector |
| `Vectors.Vec3Var.AddAssign` | vec3.h:28-35 | `+=`: the new value is the old value plus `other` |
| `Vectors.Vec3Var.MulAssign` | vec3.h:38-44 | `*=`: the new value is the old value scaled by `scalar` |
| `Vectors.Vec3Var.DivAssign` | vec3.h:46-49 | `/=`: the new value is the old value scaled by `1 / scalar`, as `*=` would give |
| `Rays.MakeRay` | ray.h:8-12 | the accessors return the constructor's origin and direction, and the time defaults to 0 |
| `Rays.At` | ray.h:15-18 | `at(t) - origin == t * direction`; `at(0)` is the origin and `at(1)` is origin plus direction |
| `Rays.AtAffine` | ray.h:15-18 | `at(t) - at(s) == (t - s) * direction` |
| `Textures.SolidRgb` | texture.h:17-25 | `value(u, v, p)` is `(r, g, b)` whatever `u`, `v` and `p` are |
| `Textures.ValueIgnoresCoordinates` | texture.h:22-25 | `value(u, v, p)` is the same for all `u`, `v` and `p` |
| `Textures.DefaultIsBlack` | texture.h:15 | the default solid colour is black |
| `HitRecords.IndeterminateRecord` | hittable.h:11-17 | a record declared without initialisation has no material |
| `HitRecords.WithFaceNormal` | hittable.h:19-23 | `front_face` holds iff `dot(dir, outward) < 0`. The normal is `outward` or its negation accordingly, so it never faces along the ray. `p`, `t`, `u`, `v` and the material are unchanged |
| `HitRecords.HitRecordVar.constructor` | hittable.h:11-17 | the fields hold the given record |
| `HitRecords.HitRecordVar.SetFaceNormal` | hittable.h:19-23 | the in-place version: only `front_face` and `normal` change, as `WithFaceNormal` states |
| `Aabbs.SurroundAxis` | aabb.h:53-54 | `max(min(minPoint[i], other.max[i]), other.max[i])` is always `other.max[i]` |
| `Aabbs.Surrounded` | aabb.h:49-56 | `surround` keeps `minPoint` and makes `maxPoint` the other box's maximum, axis by axis |
| `Aabbs.SlabInterval` | aabb.h:38-39 | `t0 <= t1`, and `{t0, t1}` are the two slab crossings |
| `Aabbs.AxisStep` | aabb.h:35-45 | one axis of the loop never raises `t_min` and never lowers `t_max`. On an axis the ray runs parallel to, the box counts as hit from then on iff the origin is off the minimum plane |
| `Aabbs.HitBox` | aabb.h:27-48 | answers false only when `t_max <= t_min` on entry |
| `Aabbs.SlabsOpenInterval` | aabb.h:33-47 | with `t_min < t_max` on entry, every remaining axis passes |
| `Aabbs.MissMeansClosedInterval` | aabb.h:42-45 | `hit` returns false only if `t_max <= t_min` on entry, and with `t_max = infinity` it returns true |
| `Aabbs.BoxBehindRayIsHit` | aabb.h:42-43 | a box wholly behind the ray's origin is reported as hit |
| `Aabbs.SurroundIsNotUnion` | aabb.h:49-56 | surrounding `[0,1]^3` with a box whose minimum has `y = -1` yields a box that does not contain the other box |
| `Aabbs.AabbVar.Default` | aabb.h:11-15 | both corners are at the origin |
| `Aabbs.AabbVar.constructor` | aabb.h:17 | the corners are the arguments |
| `Aabbs.AabbVar.Minimum` | aabb.h:19-22 | returns the minimum corner |
| `Aabbs.AabbVar.Maximum` | aabb.h:23-26 | returns the maximum corner |
| `Aabbs.AabbVar.AssignDefault` | aabb.h:11-15 | `= aabb()`: both corners are back at the origin |
| `Aabbs.AabbVar.Hit` | aabb.h:27-48 | the slab loop with its early exits returns exactly the verdict that `HitBox` defines axis by axis, and changes nothing |
| `Aabbs.AabbVar.Surround` | aabb.h:49-56 | the loop rewrites only `maxPoint`: `minPoint` is unchanged and the new box is `Surrounded(old, other)` |
| `Materials.LambertianColor` | material.h:20 | a Lambertian material whose texture returns the colour everywhere |
| `Materials.MakeMetal` | material.h:40 | the stored fuzz is `min(fuzz, 1)`, so it is at most 1 and equals the argument when that is at most 1 |
| `Materials.DiffuseLightColor` | material.h:94-97 | a light whose texture returns the colour everywhere |
| `Materials.ColorEmitted` | material.h:10-13 | emission through a `Material` is black for every material, because the light's non-`const` member does not override it |
| `Materials.LightEmitted` | material.h:103-106 | a direct call on a `DiffuseLight` returns the texture's colour, which does not depend on the coordinates |
| `Materials.NormalReflectanceRange` | material.h:82-83 | for a positive index, `r0` lies in `[0, 1)` |
| `Materials.Reflectance` | material.h:80-85 | Schlick's value is 1 at `cosine = 0` and `r0` at `cosine = 1` |
| `Materials.ReflectanceRange` | material.h:80-85 | for `cosine` in `[0, 1]`, Schlick's value lies in `[r0, 1]`. It is 1 at `cosine = 0` and `r0` at `cosine = 1` |
| `Materials.ScatterLambertian` | material.h:23-32 | always scatters, from `rec.p` at the incoming time, with the texture's colour. The direction is `normal + unit sample`, or the normal when that sum is near zero |
| `Materials.ScatterMetal` | material.h:41-48 | attenuation is the albedo. The direction is the reflection plus fuzz times the sample. It scatters iff that direction has a positive dot product with the normal |
| `Materials.RefractionRatio` | material.h:61 | `1 / index` on the front face and `index` otherwise; positive |
| `Materials.SineFromCosine` | material.h:65 | with an exact square root, `sin_theta >= 0` and `cos_theta^2 + sin_theta^2 == 1` |
| `Materials.IncidenceAngle` | material.h:63-65 | `cos_theta` is `dot(-unit_direction, normal)` capped at 1, and `sin_theta` is `SineFromCosine` of it |
| `Materials.DielectricReflects` | material.h:67-69 | reflects whenever it cannot refract, and always at grazing incidence |
| `Materials.DielectricReflectsBounds` | material.h:67-72 | at grazing incidence it reflects; at normal incidence, when it can refract, it reflects iff the draw is below `r0`; for a cosine in `[0, 1]` a draw below `r0` always reflects |
| `Materials.ScatterDielectric` | material.h:58-76 | always scatters with white attenuation, from `rec.p` at the incoming time. The direction is `reflect(unit_direction, normal)` exactly when it cannot refract or Schlick's reflectance exceeds the draw, and `refract(unit_direction, normal, ratio)` otherwise |
| `Materials.Scatter` | material.h:98-101 | dispatch: a light never scatters and leaves both out-parameters as they were; Lambertian and dielectric always scatter; a scattered ray starts at `rec.p` at the incoming time |
| `Materials.ScatterAttenuationDim` | material.h:23-76 | a material whose albedo lies in the unit cube attenuates by a factor in `[0, 1]` per channel |
| `Spheres.SelectRoot` | sphere.h:41-47 | takes the near root when it lies in `[t_min, t_max]`, otherwise the far root if that does, otherwise none; any root it returns is in range |
| `Spheres.SphereRoot` | sphere.h:32-47 | a negative discriminant gives no root, and any root is in range |
| `Spheres.RootsOrdered` | sphere.h:42-44 | with `a > 0` the near root is at most the far root |
| `Spheres.SphereRootIsCrossing` | sphere.h:41-47 | the root in `[t_min, t_max]` is the first crossing at or after `t_min`, if that crossing is in range |
| `Spheres.RootSolves` | sphere.h:32-44 | with an exact square root, both roots solve `a t^2 + 2 half_b t + c = 0` |
| `Spheres.SphereUV` | sphere.h:59-76 | when `acos` lies in `[0, pi]` and `atan2` in `[-pi, pi]`, `u` and `v` lie in `[0, 1]` |
| `Spheres.SphereHit` | sphere.h:30-57 | a miss leaves `rec` alone. A hit happens iff a root exists and reports that root, the point `at(t)` and the sphere's material. `front_face` holds iff the ray meets the outward normal `(p - center) / radius` head-on, the normal is that vector or its negation accordingly, and `u, v` are `get_uv_coordinates` of it |
| `Spheres.HitOnSurface` | sphere.h:32-50 | with an exact square root, a reported point lies on the sphere: `lengthSquared(p - center) == radius^2` |
| `Spheres.SphereBoundingBox` | sphere.h:78-81 | reports no box and leaves `output_box` as it was |
| `MovingSpheres.CenterAtTime` | moving_sphere.h:23-26 | the centre is `c0` at `t0` and `c1` at `t1` |
| `MovingSpheres.CenterAtMidTime` | moving_sphere.h:23-26 | halfway through the shutter interval, the centre is the midpoint of `c0` and `c1` |
| `MovingSpheres.MovingSphereHit` | moving_sphere.h:36-65 | uses the sphere at `centerAtTime(r.time())` with the same root selection, and reports that root as `t`. It never writes `u` and `v`, and the final normal is the outward normal at that centre, face-corrected by `set_face_normal` |
| `MovingSpheres.MovingSphereBoundingBox` | moving_sphere.h:67-80 | always reports a box. Through `surround`, the box runs from the origin to `centerAtTime(t1) + radius` |
| `MovingSpheres.MovingBoxMissesSphere` | moving_sphere.h:67-80 | a sphere moving in the negative octant gets a box that does not contain it |
| `Rectangles.PlaneParameter` | axis_rectangle.h:35 | `t = (k - origin) / direction` exists iff the direction's component is nonzero, and `at(t)` then lies on the plane |
| `Rectangles.RectRecord` | axis_rectangle.h:46-53 | the record holds `t`, `at(t)` and the material, with the axis normal face-corrected. `u` and `v` lie in `[0, 1]` inside a rectangle with increasing extents |
| `Rectangles.PlaneHit` | axis_rectangle.h:33-54 | hits iff `t` exists, lies in the inclusive range `[t_min, t_max]`, and `at(t)` lies inside the inclusive extents. A miss leaves the record unchanged |
| `Rectangles.PlaneHitProperties` | axis_rectangle.h:33-54 | a hit reports its point on the plane and inside the rectangle, with `u, v` in `[0, 1]`; `front_face` holds iff the direction's normal component is negative |
| `Rectangles.RectXYHit` | axis_rectangle.h:33-54 | the plane `z = k` with normal `±(0,0,1)`; `front_face` holds iff `dir.z < 0` |
| `Rectangles.RectXZHit` | axis_rectangle.h:87-108 | the plane `y = k` with normal `±(0,1,0)`; `front_face` holds iff `dir.y < 0` |
| `Rectangles.RectYZHit` | axis_rectangle.h:141-162 | the plane `x = k` with normal `±(1,0,0)`; `front_face` holds iff `dir.x < 0` |
| `Rectangles.RectXYBoundingBox` | axis_rectangle.h:56-60 | always reports a box with the rectangle's extents, running from `k - 0.0001` to `k + 0.0001` on z; it contains every point of the rectangle |
| `Rectangles.RectXZBoundingBox` | axis_rectangle.h:110-114 | the same with the x and z extents, from `k - 0.0001` to `k + 0.0001` on y |
| `Rectangles.RectYZBoundingBox` | axis_rectangle.h:164-168 | the same with the y and z extents, from `k - 0.0001` to `k + 0.0001` on x |
| `Hittables.Hit` | hittable.h:26-30 | every kind of object honours the `hit` contract. A miss leaves the record as it was. A hit has `t` in `[t_min, t_max]`, `p == at(t)`, one of the object's materials, and a normal that does not face along the ray |
| `Hittables.BoundingBox` | bvh_node.h:120-124 | a BVH node reports its cached box; a box reports its corners; a sphere reports nothing; rectangles and moving spheres always report a box |
| `Hittables.Advance` | hittable_list.h:41-45 | after a member's query, `temp_rec` holds its result. On a hit, `closest_so_far` and `rec` take the hit; on a miss, both stay |
| `Hittables.ListHit` | hittable_list.h:34-49 | the list honours the same `hit` contract as its members |
| `Hittables.ListScan` | hittable_list.h:40-46 | the loop keeps its invariant: `closest_so_far` is `t_max` or the last hit's `t`, and `rec` is untouched until something hits |
| `Hittables.MemberBox` | hittable_list.h:57-58 | a member queried with a fresh `aabb temp`: a sphere reports no box and leaves it at the origin; every object but a list reports a box |
| `Hittables.ListBoxFacts` | hittable_list.h:55-63 | the loop, as the recursion `ListBox`, finds a box iff some member has one. It never moves the minimum, and the maximum comes from the last member that has a box |
| `Hittables.ListBoundingBox` | hittable_list.h:51-65 | returns true iff some member reports a box. The result has its minimum at the origin and the maximum of the last boxed member; an empty list gives the default box |
| `Hittables.ListMisses` | hittable_list.h:34-49 | when no member hits, the list reports a miss and leaves `rec` unchanged |
| `Hittables.ScanMisses` | hittable_list.h:40-46 | when no remaining member hits, the loop changes nothing |
| `Hittables.NearestStep` | hittable_list.h:41-45 | one iteration keeps the nearest-so-far invariant |
| `Hittables.ScanNearest` | hittable_list.h:40-46 | the loop ends with the nearest in-range candidate |
| `Hittables.NearestHit` | hittable_list.h:34-49 | when each member answers with its first crossing, the list hits iff some candidate is in `[t_min, t_max]`, and the reported `t` is the least such candidate |
| `Hittables.SphereFirstCrossing` | sphere.h:41-47 | a sphere answers with its first crossing at or after `t_min` |
| `Hittables.ShapeFirstCrossing` | sphere.h:30-57 | every sphere and rectangle answers with its first crossing |
| `Hittables.RectXYFirstCrossing` | axis_rectangle.h:35-44 | an xy rectangle answers with its plane crossing |
| `Hittables.RectXZFirstCrossing` | axis_rectangle.h:89-98 | an xz rectangle answers with its plane crossing |
| `Hittables.RectYZFirstCrossing` | axis_rectangle.h:143-152 | a yz rectangle answers with its plane crossing |
| `HittableLists.HittableList.constructor` | hittable_list.h:12 | the list starts empty |
| `HittableLists.HittableList.Single` | hittable_list.h:13-16 | the list is `[object]` |
| `HittableLists.HittableList.Add` | hittable_list.h:18-21 | appends one object at the end and keeps the earlier ones |
| `HittableLists.HittableList.Clear` | hittable_list.h:22-25 | the list is empty |
| `HittableLists.HittableList.Hit` | hittable_list.h:34-49 | the loop's verdict and record are those of the nearest-hit scan `ListHit` |
| `HittableLists.HittableList.BoundingBox` | hittable_list.h:51-65 | the loop resets `output_box`, surrounds it with every member box, and returns `Hittables.BoundingBox` of the list |
| `Boxes.MakeBox` | box.h:16-26 | the box holds its corners and the six sides of `BoxSides` |
| `Boxes.BoxSidesLayout` | box.h:16-26 | `BoxSides` builds six sides in the order xy@min.z, xy@max.z, xz@min.y, xz@max.y, yz@min.x, yz@max.x. The yz sides hold `z0, z1 = min.y, max.y` and `y0, y1 = min.z, max.z` |
| `Boxes.BoxWellFormed` | box.h:18-25 | a box with nonzero extents has well-formed sides |
| `Boxes.BoxDelegates` | box.h:39-47 | `hit` is exactly `sides.hit`, and `boundingBox` is always `(minimum, maximum)` |
| `Boxes.EmptyBoxNeverHit` | box.h:11-15 | a default box has no sides and never hits |
| `Boxes.AlongMinusXMissesSide` | box.h:24-25 | a ray along `-x` at a height `z` between `max.y` and `max.z` misses each of the six sides, since the yz sides only span `z` up to `max.y` |
| `Boxes.SwappedSideMissesFace` | box.h:24-25 | so that ray misses the whole box, although it meets the true face inside the box's corners |
| `Sorting.SortRange` | bvh_node.h:89 | sorting `[start, end)` permutes that range and leaves the rest of the array alone. When the comparator compares by a key, the range ends ordered by that key |
| `Sorting.InsertOne` | bvh_node.h:89 | one pass moves an element left past larger keys, keeping the prefix ordered and the range a permutation |
| `Bvh.CompareObjects` | bvh_node.h:39-50 | false when either box is missing, and otherwise `minA[axis] < minB[axis]` |
| `Bvh.BoxXCompare` | bvh_node.h:52-55 | `a` precedes `b` iff both report a box and `a`'s minimum x is smaller |
| `Bvh.BoxYCompare` | bvh_node.h:57-60 | the same on y |
| `Bvh.BoxZCompare` | bvh_node.h:62-65 | the same on z |
| `Bvh.CompareStrict` | bvh_node.h:39-50 | irreflexive and asymmetric |
| `Bvh.MissingBoxBreaksOrdering` | bvh_node.h:43-47 | with an object without a box, incomparability is not transitive, so `std::sort` has no strict weak ordering |
| `Bvh.LessIsByKey` | bvh_node.h:52-65 | on objects that all have boxes, each `box_*_compare` compares by the box minimum on its axis |
| `Bvh.SortAlong` | bvh_node.h:72-89 | the range is permuted and stays well formed. The rest is untouched. When every object has a box, the range ends ordered by box minimum |
| `Bvh.NodeBox` | bvh_node.h:95-104 | the node's cached box has its minimum at the origin and the right child's maximum (or the origin when the left child has no box) |
| `Bvh.SortedSplit` | bvh_node.h:89-90 | after sorting, every key of the left half is at most every key of the right half |
| `Bvh.Build` | bvh_node.h:66-105 | The node realises a build tree whose leaves are the multiset of `objects[start, end)`. A span of 1 repeats the object, and a span of 2 is ordered by address. A larger span splits at `start + span / 2` along the drawn axis into two non-empty halves, each key-separated when all boxes exist. One draw is used per node |
| `Bvh.BuildSmall` | bvh_node.h:76-86 | span 1 repeats the object; span 2 swaps the pair when `ptrGreater` holds |
| `Bvh.BuildSplit` | bvh_node.h:87-93 | sorts the copy, builds both halves from it, and yields a key-separated split of the range's multiset |
| `Bvh.MakeNode` | bvh_node.h:95-104 | the node holds both children and their surrounded box |
| `Bvh.SplitOrderedAfterSort` | bvh_node.h:87-93 | the halves cut from a sorted permutation make an ordered split of the original multiset, of sizes `mid` and `span - mid` |
| `Bvh.BuildFromList` | bvh_node.h:21-25 | building from a list covers the whole list |
| `Bvh.BvhHitCases` | bvh_node.h:106-118 | a miss of the node's box is a miss with `rec` unchanged. Otherwise a left hit is returned without the right child, and else the right child's answer |
| `Bvh.BvhBoxIrrelevant` | bvh_node.h:108-109 | for a non-empty interval, the cached box never changes the answer |
| `Bvh.BvhReportsFartherHit` | bvh_node.h:111-115 | with the far rectangle on the left, the node reports a hit farther than the right child's hit |
| `Bvh.NodeBoxMissesLeft` | bvh_node.h:95-104 | the cached box can exclude the left child, and `boundingBox` reports it |
| `Cameras.MakeCamera` | camera.h:8-28 | `lens_radius == aperture / 2` and `w`, `u` are the unit vectors named. `v == cross(w, u)`, orthogonal to both. The viewport is `2 tan(vfov/2)` high times the focus distance, and `aspectRatio` times as wide; its centre is `origin - focalDist * w` |
| `Cameras.CameraFrameOrthonormal` | camera.h:17-19 | when `w` and `u` are perpendicular unit vectors, `v` is a unit vector too, so `(u, v, w)` is orthonormal |
| `Cameras.GetRay` | camera.h:30-37 | `at(1)` is the viewport point whatever the lens sample. The origin is offset along `u` and `v` only. The time lies in `[time0, time1)`, or equals `time0` when they are equal |
| `Cameras.PinholeStillCamera` | camera.h:10-36 | with aperture 0 and the default times, every ray leaves `lookfrom` at time 0 |
| `Cameras.LensOffsetInLensPlane` | camera.h:32-34 | when `u` is perpendicular to `w`, the lens offset is perpendicular to the viewing axis |
| `Integrator.SceneQueryDispatchable` | RayTracingInOneWeekend.cpp:182-191 | a scene queried at `[0.001, infinity)` reports materials whose scatter is defined, hit parameters at or beyond 0.001, and the fresh record on a miss |
| `Integrator.RayColor` | RayTracingInOneWeekend.cpp:172-197 | `depth <= 0` is black and a miss is the background. Otherwise the result is `emitted + attenuation * colour(scattered, depth - 1)` when the material scatters, and `emitted` when it does not |
| `Integrator.RayColorUsesDepthSamples` | RayTracingInOneWeekend.cpp:188-194 | the colour depends only on the `depth` scatter samples it consumes, one per bounce |
| `Integrator.BlackBackgroundIsBlack` | RayTracingInOneWeekend.cpp:172-197 | with a black background every ray is black, lights included, because emission through `Material` is black |
| `Integrator.LightIsBlack` | RayTracingInOneWeekend.cpp:190-196 | a ray whose first hit is a diffuse light is black |
| `Integrator.SceneQueryDim` | RayTracingInOneWeekend.cpp:182 | a scene whose materials all have albedos in `[0, 1]` answers queries with such materials |
| `Integrator.RayColorBounded` | RayTracingInOneWeekend.cpp:172-197 | with a background and albedos in `[0, 1]`, every colour lies in `[0, 1]` per channel |
| `Integrator.TruncateToInt` | RayTracingInOneWeekend.cpp:136-138 | `static_cast<int>` truncates toward zero |
| `Integrator.Averaged` | RayTracingInOneWeekend.cpp:127-130 | the averaged channel is clamped into `[0, 0.999]`, and it equals `c / spp` when that value is already in range |
| `Integrator.ChannelByte` | RayTracingInOneWeekend.cpp:127-138 | with an exact square root at the clamped value, the byte lies in `[0, 255]` |
| `Integrator.WriteColor` | RayTracingInOneWeekend.cpp:124-139 | the three numbers are the channel bytes of red, green and blue, in that order |
| `Integrator.WriteColorInByteRange` | RayTracingInOneWeekend.cpp:124-139 | with a square root exact on `[0, 0.999]`, all three numbers lie in `[0, 255]` |

## Left out

- IEEE `double` behaviour:
  - Rounding is not modelled; numbers are exact reals.
  - A zero divisor does not produce an infinity or NaN.
  - On an axis the ray runs parallel to, the `aabb` slab quotients are IEEE infinities or NaNs. The model keeps their effect, not the values: when the origin is off the slab's minimum plane an infinity enters the interval and the box counts as hit from then on; when it is on that plane the NaNs are passed over and the interval is kept (`Aabbs.AxisStep`).
  - A rectangle whose plane is parallel to the ray, and a sphere hit with `a == 0`, are misses.
  - Divisors fixed by the scene are required to be nonzero by `Hittables.WellFormedScene`: radii, time spans and rectangle extents.
- Materials.Scatter: a dielectric must have a positive refraction index (`Materials.WellFormed`). An index of 0 divides by zero, and one of -1 makes Schlick's denominator zero; the other negative indices, which describe no physical material, are left out as well.
- `std::fmin`/`std::fmax` on NaN: without NaN they are `min` and `max`.
- `sqrt`, `tan`, `acos`, `atan2` and `unit_vector`: these are oracle functions without axioms, so nothing about them, or about `length`, is proved unless a member requires exactness or a range.
- `get_uv_coordinates` (sphere.h:59-76): the sphere's `u, v` come from the `acos`/`atan2` oracles; only their range is proved (`Spheres.SphereUV`), not the sample values of the source's comment.
- The rejection-sampling loops `random_in_unit_sphere` and `random_in_unit_disk`: they terminate only with probability one, and their samples are parameters.
- `random_unit_vector`: this is `unit_vector` of the sphere sample, through the oracle.
- The values of an uninitialised `hit_record`: `HitRecords.IndeterminateRecord` fixes them to zero with no material, and no property depends on them.
- Also fixed to zero: the default `Ray()`, and the uninitialised `k` and material of default shapes.
- The default constructors of `Sphere`, `MovingSphere`, `Rect_*` and `BvhNode`: nothing in the core uses them.
- `shared_ptr` ownership and object identity: objects are values. The address comparison of a BVH span of two is the oracle `ptrGreater`.
- `std::sort`'s own algorithm and its order among equal keys: an insertion sort stands in for it.
- Bvh.SortAlong: the range is promised to be ordered only when every object has a box, because with a boxless object the comparator is not a strict weak ordering and `std::sort` is undefined.
- The `time0`/`time1` arguments of `BvhNode` and of every `boundingBox`: no body except `MovingSphere::boundingBox` uses them, and that one uses its own times.
- `std::cerr` diagnostics in bvh_node.h: these only print.
- `CheckeredTexture` and `ImageTexture`: the texture files are not part of this model.
- The scene builders, `main`, `createGradientPPM`, `operator<<`, the output stream of `write_color`, and the stb image library: these are hard-coded data and I/O.
- The compile inconsistencies between the headers (`hit_record`/`HitRecord`, `ray`/`Ray`, the missing `boundingBox` in `Hittable`): the model has one `Hittable` type with `hit` and `boundingBox`.
- Hittables.NearestHit: the nearest-hit result is proved when every member answers with its first crossing. That premise is proved for spheres and rectangles, but not for moving spheres, boxes, nested lists or BVH nodes. A BVH node need not satisfy it (see `Bvh.BvhReportsFartherHit`).
- Integrator.ChannelByte: the byte range is promised only when `sqrt` is exact at the clamped value. Otherwise `static_cast<int>` of an out-of-range value is undefined in C++.
- Integrator.RayColor: the world is any query that honours the `hit` contract (`Integrator.Dispatchable`); `Integrator.SceneQueryDispatchable` shows that every well-formed scene is one.
- Integrator.WriteColor: `samples_per_pixel == 0` is excluded, since C++ would divide by zero.
- The pixel loops of `main`, which accumulate `pixel_color` over samples, and the image output.
