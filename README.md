# AppliedMath core, modelled in Dafny

This project models the hand-written game logic of the AppliedMath Unity project:

- **The collision registry.** `AABBBounds` is an axis-aligned box whose `Extents`, `Min` and `Max` are
  re-derived from `Center` and `Size`. `CollisionManager` keeps two tables: handle → box and handle → owner.
  It issues handles from a counter and moves boxes in place. It also answers the question "would this box
  hit anything if it moved to P". Both are classes whose methods update their fields, as in the source.
  The boxes are shared objects: the registry and its callers hold the same boxes.
- **The procedural mesh generators** for the sphere, the capsule and the cylinder, limited to their index
  arithmetic. The loops fill vertex and index arrays through running counters. The model proves three
  things:
  - each counter ends exactly at its array's length;
  - each slot holds the grid point or cell the source intends;
  - every triangle index names a vertex.

  The vertex positions come from trigonometry. The model takes them as a function parameter and proves
  where each one is stored.
- **The morph setup of `ShapeMeshController`.** This covers the cyclic resize `NormalizeVertexCount` and the
  start/end buffer pairing that keeps the per-frame `i % Length` indexing in bounds.
- **The platformer player's health state.** This covers HP, lives, invincibility and its timer, and the
  grounded jump.
- **The top-down player's rocket state.** This covers a rocket count kept in `[1, maxRockets]`, the volley
  spread around the circle, and the fire timer that restarts after every volley.

Each stateful operation is a method that states its new state. In most cases it states it through a pure
specification function, such as `Damaged`, `Normalized`, `GridTriangles` or `Volley`. The lemmas then prove
what the source promises about those functions. Floats are modelled as reals.

Two points where the code and its comments disagree, and one default worth knowing. The model follows the
code in each case.

- `OffscreenCuller` resizes far-away colliders to zero and comments that this "disables collision". The
  overlap test is inclusive, so a zero-size box still overlaps every box that contains its centre. Two
  lemmas prove this: `CollisionFacts.ZeroSizeBox` and `CollisionFacts.ZeroSizeStillCollides`.
- The doc comment of `GetAllColliders` says it returns a copy. It returns the registry's own dictionary,
  whose boxes are the registry's shared box objects. The model returns the table as it stands at the call,
  holding those same box objects.
- A freshly registered box's matrix is the all-zero default struct, not the identity. `GetMatrix` returns
  the identity only for an unknown handle.

## Model

| member | source | states |
|---|---|---|
| Collision.AABBBounds.constructor | Assets/Scripts/Core/CollisionManager.cs:15-20 | a new box has the given centre, size, handle and player flag, consistent derived bounds, and the all-zero default matrix |
| Collision.AABBBounds.UpdateBounds | Assets/Scripts/Core/CollisionManager.cs:22-29 | re-establishes Extents = Size/2, Min = Center − Extents, Max = Center + Extents for the new centre and size; handle, player flag and matrix are kept |
| Collision.AABBBounds.Intersects | Assets/Scripts/Core/CollisionManager.cs:31-36 | on boxes with consistent derived bounds, the inclusive Min/Max test holds exactly when the centres are within the summed half-sizes on all three axes |
| Collision.CollisionManager.constructor | Assets/Scripts/Core/CollisionManager.cs:57-59 | the registry starts with no boxes, no owners and counter 0 |
| Collision.CollisionManager.RegisterCollider | Assets/Scripts/Core/CollisionManager.cs:61-68 | returns the old counter and increments it; the handle was never issued before and exceeds every handle in use; a fresh box is stored under it and every other entry and owner is unchanged |
| Collision.CollisionManager.SetOwner | Assets/Scripts/Core/CollisionManager.cs:70-76 | inserts or overwrites the owner for any handle, registered or not; the boxes and the counter are untouched |
| Collision.CollisionManager.GetOwner | Assets/Scripts/Core/CollisionManager.cs:78-83 | the stored owner for a known handle, null for an unknown one |
| Collision.CollisionManager.UpdateCollider | Assets/Scripts/Core/CollisionManager.cs:85-91 | for a known handle only that entry's box changes, to the new centre and size; an unknown handle changes nothing |
| Collision.CollisionManager.RemoveCollider | Assets/Scripts/Core/CollisionManager.cs:93-100 | the box is removed; the owner is removed only if there was a box, so an owner of a handle without a box survives; removing twice equals removing once |
| Collision.CollisionManager.UpdateMatrix | Assets/Scripts/Core/CollisionManager.cs:102-111 | for a known handle only that entry changes: it stores the matrix and re-centres the box on the matrix's translation, keeping its size; an unknown handle changes nothing |
| Collision.CollisionManager.CheckCollision | Assets/Scripts/Core/CollisionManager.cs:113-134 | unknown handle: false and an empty list; known handle: the list holds exactly the other registered handles whose boxes overlap a probe of the current size centred at the new point, never the queried handle, each once; the flag is true exactly when the list is non-empty; nothing is modified |
| Collision.CollisionManager.GetMatrix | Assets/Scripts/Core/CollisionManager.cs:136-143 | the stored matrix for a known handle, the identity for an unknown one |
| Collision.CollisionManager.GetAllColliders | Assets/Scripts/Core/CollisionManager.cs:145-149 | the registry's table at the call, holding the registry's own box objects (not copies), each carrying its handle as ID and keeping its derived bounds |
| Collision.CollisionManager.SameHandleSameBox | Assets/Scripts/Core/CollisionManager.cs:64-65 | since each box carries its own handle, no box is stored under two handles, so updating one entry leaves the others unchanged |
| CollisionFacts.DerivedBounds | Assets/Scripts/Core/CollisionManager.cs:22-29 | Max − Min is the size, and the centre sits one extent inside each bound |
| CollisionFacts.ReachesSymmetric | Assets/Scripts/Core/CollisionManager.cs:31-36 | the overlap relation is symmetric |
| CollisionFacts.ReachesIffSharedPoint | Assets/Scripts/Core/CollisionManager.cs:31-36 | for non-negative sizes, two boxes overlap exactly when some point lies in both closed boxes |
| CollisionFacts.FaceContactReaches | Assets/Scripts/Core/CollisionManager.cs:31-36 | boxes that only touch face to face count as overlapping |
| CollisionFacts.GapSeparates | Assets/Scripts/Core/CollisionManager.cs:31-36 | a gap on any one axis means no overlap |
| CollisionFacts.ZeroSizeBox | Assets/Scripts/Core/CollisionManager.cs:22-36 | a zero-size box has Min = Max = Center and overlaps exactly the boxes that contain its centre |
| CollisionFacts.ZeroSizeStillCollides | Assets/Scripts/Core/OffscreenCuller.cs:47-48 | two zero-size boxes at the same centre still overlap, so sizing a collider to zero does not take it out of collisions |
| GridMesh.GridPointsLength | Assets/Scripts/Shapes/SphereGenerator.cs:15-33 | the row-by-row vertex list of a rows × cols grid has rows·cols entries |
| GridMesh.GridPointsAt | Assets/Scripts/Shapes/CylinderGenerator.cs:21-37 | slot y·cols + x lies inside the list and holds grid point (y, x) |
| GridMesh.GridTrianglesLength | Assets/Scripts/Shapes/SphereGenerator.cs:16 | the cell list of a rows × cols grid has rows·cols·6 entries |
| GridMesh.GridTrianglesAt | Assets/Scripts/Shapes/SphereGenerator.cs:40-50 | cell (y, x) owns entries 6(y·cols + x) … +5, which are i0, i2, i1, i1, i2, i3 with i1 = i0+1, i2 = i0+cols+1, i3 = i2+1 |
| GridMesh.CellEntry | Assets/Scripts/Shapes/SphereGenerator.cs:35-52 | entry j of cell (y, x) sits 6x + j past the cells of the rows above row y and holds that cell's j-th index |
| GridMesh.EarlierRowsKept | Assets/Scripts/Shapes/SphereGenerator.cs:35-52 | the cell list of the first r rows is a prefix of the list of any more rows |
| GridMesh.GridTrianglesBounded | Assets/Scripts/Shapes/SphereGenerator.cs:40-50 | every cell index lies in [0, (rows+1)·(cols+1)) |
| GridMesh.SquareNonNegative | Assets/Scripts/Shapes/SphereGenerator.cs:15-16 | the array sizes (s+1)² and s²·6 are never negative, so the allocations never throw |
| GridMesh.FillGridPoints | Assets/Scripts/Shapes/SphereGenerator.cs:18-33 | the nested vertex loops end with the counter exactly at the array's length and the array equal to the grid's point list |
| GridMesh.FillGridTriangles | Assets/Scripts/Shapes/SphereGenerator.cs:35-52 | the nested cell loops end with the counter exactly at the array's length and the array equal to the grid's cell list |
| GridMesh.FillRow | Assets/Scripts/Shapes/SphereGenerator.cs:23-32 | the inner vertex loop appends row y's points after the counter, keeps what was already written, and advances the counter by cols |
| GridMesh.FillRowCells | Assets/Scripts/Shapes/SphereGenerator.cs:38-51 | the inner cell loop appends row y's cells, six indices each, after the counter and keeps what was already written |
| GridMesh.EmitCell | Assets/Scripts/Shapes/CapsuleGenerator.cs:63-68 | the six post-increment writes of one cell append i0, i2, i1, i1, i2, i3 and advance the counter by six |
| Sphere.GenerateMesh | Assets/Scripts/Shapes/SphereGenerator.cs:7-58 | buffers of (s+1)² vertices and s²·6 indices; for s ≥ 0 they hold the surface grid and its cells; for s < 0 nothing is written; every index is in range exactly when s ≠ −1 |
| Capsule.RowClassification | Assets/Scripts/Shapes/CapsuleGenerator.cs:42-45 | row y is lifted exactly when y < segments/2, lowered exactly when y > segments/2, and left in place exactly on the one middle row |
| Capsule.GenerateMesh | Assets/Scripts/Shapes/CapsuleGenerator.cs:7-78 | rings = segments+1 rows of segments+1 points fill exactly (s+1)² slots with the hemisphere-shifted points; s²·6 indices hold the cells; every index is in range exactly when s ≠ −1 |
| Cylinder.BottomFanAt | Assets/Scripts/Shapes/CylinderGenerator.cs:87-93 | bottom triangle i is (centre, start+i+1, start+i): for i < segments, (i+1) % (segments+1) does not wrap |
| Cylinder.TopFanAt | Assets/Scripts/Shapes/CylinderGenerator.cs:95-101 | top triangle i is (centre, start+i, start+i+1) |
| Cylinder.CapWindingReversed | Assets/Scripts/Shapes/CylinderGenerator.cs:87-101 | each bottom triangle is the matching top triangle with its two rim corners swapped |
| Cylinder.CapTrianglesInRange | Assets/Scripts/Shapes/CylinderGenerator.cs:84-101 | the cap buffer has segments·6 entries, each naming a cap centre or a rim point, inside the vertex buffer and past the side grid |
| Cylinder.VertexLayout | Assets/Scripts/Shapes/CylinderGenerator.cs:63-82 | the buffer has side + 2(s+1) + 2 entries; slot side holds the bottom centre (0, −h/2, 0) and slot side+1 the top centre (0, h/2, 0); the bottom rim's s+1 points end where the top rim starts, and the top rim ends at the buffer's length |
| Cylinder.RimSlot | Assets/Scripts/Shapes/CylinderGenerator.cs:72-82 | rim point i sits at bottomStart + i with y = −h/2 and at topStart + i with y = h/2 |
| Cylinder.SideSlot | Assets/Scripts/Shapes/CylinderGenerator.cs:63-64 | every slot below the side vertex count holds the side grid point CopyTo put there |
| Cylinder.BottomFanEntry | Assets/Scripts/Shapes/CylinderGenerator.cs:88-93 | every bottom fan entry is the bottom centre or one of the rim points bottomStart … bottomStart + segments |
| Cylinder.TopFanEntry | Assets/Scripts/Shapes/CylinderGenerator.cs:96-101 | every top fan entry is the top centre or one of the rim points topStart … topStart + segments |
| Cylinder.FillBottomFan | Assets/Scripts/Shapes/CylinderGenerator.cs:87-93 | the bottom loop writes 3·segments entries, equal to the bottom fan |
| Cylinder.FillTopFan | Assets/Scripts/Shapes/CylinderGenerator.cs:95-101 | the top loop continues at the counter, keeps what the bottom loop wrote and appends the top fan, 3·segments entries |
| Cylinder.EmitTriangle | Assets/Scripts/Shapes/CylinderGenerator.cs:90-92 | three post-increment writes append one triangle and advance the counter by three |
| Cylinder.FillCapFans | Assets/Scripts/Shapes/CylinderGenerator.cs:84-101 | the two fan loops end with ct exactly at capTris' length and capTris equal to the bottom fan followed by the top fan |
| Cylinder.AssembleVertices | Assets/Scripts/Shapes/CylinderGenerator.cs:63-82 | CopyTo, the two centre slots and the rim loop produce side grid + centres + bottom rim + top rim |
| Cylinder.PlaceRims | Assets/Scripts/Shapes/CylinderGenerator.cs:75-82 | the rim loop leaves everything before the bottom rim untouched and fills the bottom and top rims with the s+1 rim points at y = −h/2 and y = h/2 |
| Cylinder.Concat | Assets/Scripts/Shapes/CylinderGenerator.cs:104-106 | the combined index buffer is the side indices followed by the cap indices |
| Cylinder.GenerateMesh | Assets/Scripts/Shapes/CylinderGenerator.cs:7-115 | a negative segment count throws (no mesh); otherwise the vertex buffer has side + 2(s+1) + 2 entries in that layout, the index buffer is side cells then cap fans (segments·rings·6 + segments·6 entries), and every index names a vertex |
| Cylinder.MeshFacts | Assets/Scripts/Shapes/CylinderGenerator.cs:40-106 | the specified vertex buffer has the source's length, the index buffer has segments·rings·6 + segments·6 entries, and every side and cap index names a vertex |
| ShapeMesh.NormalizeVertexCount | Assets/Scripts/Core/ShapeMeshController.cs:141-152 | the result has the target length; a null or empty source gives a fresh zero buffer; a source of the target length is returned itself; otherwise a fresh buffer holds source[i % source.Length] |
| ShapeMesh.NormalizedCyclic | Assets/Scripts/Core/ShapeMeshController.cs:145-151 | for a non-empty source every slot i holds source[i mod n], n being the source's length, the returned-as-is case included |
| ShapeMesh.NormalizedFromSource | Assets/Scripts/Core/ShapeMeshController.cs:149-150 | every vertex of a resized non-empty buffer occurs in the source |
| ShapeMesh.NormalizedIdempotent | Assets/Scripts/Core/ShapeMeshController.cs:145-146 | normalizing twice to the same length equals normalizing once |
| ShapeMesh.NormalizedEmpty | Assets/Scripts/Core/ShapeMeshController.cs:143-144 | an empty source yields targetLength zero vertices |
| ShapeMesh.PrepareMorph | Assets/Scripts/Core/ShapeMeshController.cs:103-113 | no morph for a null or empty target; otherwise the end buffer is the target's own buffer, and the start buffer is the current vertices resized to the same non-zero length |
| ShapeMesh.BlendFrame | Assets/Scripts/Core/ShapeMeshController.cs:122-124 | slot i blends start[i % start.Length] with end[i % end.Length]; for buffers of equal length, as PrepareMorph guarantees, slot i blends start[i] with end[i] |
| PlayerControl.PlayerController.constructor | Assets/Scripts/Player/PlayerController.cs:19-42 | starts with maxHP 5, 3 lives, full HP, not grounded, not invincible, at rest |
| PlayerControl.PlayerController.TryJump | Assets/Scripts/Player/PlayerController.cs:81-88 | a grounded player gets upward speed jumpImpulse and leaves the ground; otherwise nothing changes |
| PlayerControl.PlayerController.HandleInvincibility | Assets/Scripts/Player/PlayerController.cs:90-100 | while invincible the timer counts down by dt and invincibility ends once it reaches zero or below; otherwise nothing changes |
| PlayerControl.PlayerController.OnEnemyCollision | Assets/Scripts/Player/PlayerController.cs:216-224 | an invincible player kills the enemy and is unharmed; any other player takes exactly one point of damage, which ends the game exactly when it is lethal with at most one life left, and stops the player exactly when it is lethal and the game goes on |
| PlayerControl.PlayerController.TakeDamage | Assets/Scripts/Player/PlayerController.cs:226-242 | ignored while invincible; otherwise HP drops by the amount and, at zero or below, the player dies and respawns |
| PlayerControl.PlayerController.DieAndRespawn | Assets/Scripts/Player/PlayerController.cs:244-262 | always costs a life; at zero lives or fewer it reports game over, otherwise HP is refilled to maxHP and the velocity zeroed |
| PlayerControl.PlayerController.GrantExtraLife | Assets/Scripts/Player/PlayerController.cs:277-280 | lives grow by the amount and nothing else changes |
| PlayerControl.PlayerController.GrantInvincibility | Assets/Scripts/Player/PlayerController.cs:282-286 | sets invincible and the timer to the larger of its old value and the duration |
| PlayerControl.PlayerController.AddHP | Assets/Scripts/Player/PlayerController.cs:311-314 | HP grows by the amount, capped at maxHP |
| PlayerControl.InvincibleIgnoresDamage | Assets/Scripts/Player/PlayerController.cs:216-232 | while invincible neither a hit nor an enemy changes HP, lives or the shield, and no hit is lethal |
| PlayerControl.DamageLivesAccounting | Assets/Scripts/Player/PlayerController.cs:234-261 | a vulnerable player loses exactly one life on a lethal hit, none on any other, and respawns with full HP unless the game is over |
| PlayerControl.InstakillCostsALife | Assets/Scripts/Player/PlayerController.cs:199-204 | damage equal to the current HP, which an instakill obstacle deals, always costs a vulnerable player a life |
| PlayerControl.HealCapped | Assets/Scripts/Player/PlayerController.cs:311-314 | healing never lifts HP above maxHP and, starting at or below maxHP, a non-negative amount never lowers it |
| PlayerControl.ShieldNeverShortened | Assets/Scripts/Player/PlayerController.cs:282-286 | after a grant the player is invincible for at least the duration and at least the time already left |
| PlayerControl.ShieldLasts | Assets/Scripts/Player/PlayerController.cs:90-100 | a granted shield survives any run of non-negative frame times whose total stays below its timer, which has then counted down by exactly that total |
| PlayerControl.HPNeverAboveMax | Assets/Scripts/Player/PlayerController.cs:226-314 | starting at or below maxHP, no sequence of hits, instakills, enemies, heals, respawns, shields or ticks lifts HP above maxHP |
| PlayerControl.LivesNeverGrowUnaided | Assets/Scripts/Player/PlayerController.cs:244-280 | without an extra-life grant, lives never increase |
| RocketPlayer.Player.constructor | Assets/Scripts/Player.cs:10-20 | fire interval 2, timer set to the interval, 4 of at most 8 rockets, inside the count bounds |
| RocketPlayer.Player.IncreaseRocketCount | Assets/Scripts/Player.cs:66-72 | adds a rocket only below the maximum, keeps 1 ≤ rocketCount ≤ maxRockets, and changes nothing else |
| RocketPlayer.Player.DecreaseRocketCount | Assets/Scripts/Player.cs:74-80 | removes a rocket only above one, keeps 1 ≤ rocketCount ≤ maxRockets, and changes nothing else |
| RocketPlayer.AdjustedInRange | Assets/Scripts/Player.cs:66-80 | any sequence of increases and decreases from a count in [1, maxRockets] stays in [1, maxRockets] |
| RocketPlayer.Player.FireRockets | Assets/Scripts/Player.cs:48-64 | fires exactly rocketCount rockets (none for a count of zero or less), and with the count in [1, maxRockets] at least one; rocket i heads at i · 360 / rocketCount degrees |
| RocketPlayer.VolleySpread | Assets/Scripts/Player.cs:50-63 | with at least one rocket the step is defined, headings start at 0, rise in equal steps, stay in [0, 360), and one more step closes the circle |
| RocketPlayer.VolleySteps | Assets/Scripts/Player.cs:50-63 | consecutive headings differ by exactly 360 / count |
| RocketPlayer.VolleyInCircle | Assets/Scripts/Player.cs:50-63 | every heading lies in [0, 360) |
| RocketPlayer.VolleyCloses | Assets/Scripts/Player.cs:50-63 | one more step after the last heading closes the full circle |
| RocketPlayer.Player.UpdateFireTimer | Assets/Scripts/Player.cs:35-40 | the timer counts down by dt; at zero or below a volley fires and the timer restarts at fireInterval; a timer in (0, fireInterval] stays there for non-negative dt |

## Left out

- Engine plumbing is not modelled. This covers the lazily created singleton, `Debug.Log`, `Start`/`Update` wiring, `Instantiate`/`Destroy`, and the `GetComponent` dispatch on owners. Owners are opaque `GameObject` references.
- Floating point is modelled as exact reals. IEEE rounding of box coordinates, of the timers and of the accumulated rocket angle is not captured.
- Trigonometric vertex positions, `Mathf.Pow`, the bulge curve and `GLRotation` are not modelled. The generators take the positions as a function parameter. The cylinder also takes each rim point's (x, z) as a parameter.
- Collision.CollisionManager.CheckCollision: the source walks the table in .NET `Dictionary` order, which is unspecified. The model walks the handles in increasing order, and its contract claims no order.
- Collision.CollisionManager.GetAllColliders: the result is a snapshot of the table as a map value. The source hands out its live `Dictionary` object itself, so callers also see later registrations and removals through it. That aliasing of the dictionary is not captured. The aliasing of the boxes is captured, because the map holds the same box objects.
- Collision.CollisionManager.RegisterCollider: the handle counter is an unbounded integer. The 32-bit wrap-around after 2³¹ registrations is not modelled.
- 32-bit integer overflow is not modelled; all integers are unbounded. This covers the generators' size arithmetic, `(segments+1)*(segments+1)` and `segments*rings*6` for huge counts. It also covers the player's HP and lives: `currentHP -= amount`, `lives--`, `lives += amount` and `currentHP + amount` in `PlayerController`.
- GridMesh.FillGridPoints: the cylinder writes slot `y*(segments+1)+i` directly, not through a running counter. The model uses the shared counter loop, whose invariant proves that the counter always equals that slot.
- Mesh upload calls are outside the model: `RecalculateNormals`, `RecalculateBounds` and `RecalculateTangents`.
- ShapeMesh.NormalizeVertexCount requires `targetLength >= 0`. A negative length would throw in the allocation. Both callers pass an array's length.
- ShapeMesh.BlendFrame requires a non-empty start buffer whenever the end buffer is non-empty. Otherwise the source's `%` throws. `PrepareMorph` always provides such buffers.
- Several parts of the morph routine are not modelled:
  - the frame-time loop, `AnimationCurve.Evaluate` and `Vector3.Lerp` (the blend is a function parameter);
  - the final assignment of the end vertices;
  - mesh cloning;
  - the scale and spin animations.
- PlayerControl.PlayerController.DieAndRespawn: `GameManager.GameOver()` becomes the returned `gameOver` flag. The spawn position, the collider and matrix updates and the camera call are not modelled.
- PlayerControl.PlayerController.OnEnemyCollision: `enemy.Die()` becomes the returned `enemyKilled` flag.
- `UpdateMovement` is not modelled: gravity, horizontal movement, the ground checks and the collision dispatch loop. `SpawnFireball` is not modelled either.
- RocketPlayer.Player.FireRockets returns the rocket headings in degrees. Spawning the rockets and normalising their direction vectors is not modelled. The source's step `360f / rocketCount` is +infinity for a count of 0 and a finite negative step for a negative count; the loop never uses it. The model uses 0 for that unused step.
- Movement and rotation of the top-down player are not modelled: `Update`'s input handling and `FixedUpdate`.
