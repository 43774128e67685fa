/**
 * The broad-phase collision registry: axis-aligned boxes kept in a table keyed by
 * integer handles, an owner table beside it, and the all-pairs "would this box hit
 * anything if moved to P" query every gameplay object uses.
 */
module Collision {
  import opened Geometry

  /** The closed box spanned by a centre and a full size; Min and Max are derived, never stored apart. */
  datatype Box = Box(center: Vector3, size: Vector3) {

    function Extents(): Vector3 {
      size.Scale(0.5)
    }

    function Min(): Vector3 {
      center.Minus(Extents())
    }

    function Max(): Vector3 {
      center.Plus(Extents())
    }
  }

  /** On one axis, two centres are no further apart than the two half-sizes together. */
  predicate AxisReach(c1: real, s1: real, c2: real, s2: real) {
    -(s1 + s2) / 2.0 <= c2 - c1 <= (s1 + s2) / 2.0
  }

  /** The reference meaning of an overlap: the centres are within reach on all three axes. */
  predicate Reaches(a: Box, b: Box) {
    && AxisReach(a.center.x, a.size.x, b.center.x, b.size.x)
    && AxisReach(a.center.y, a.size.y, b.center.y, b.size.y)
    && AxisReach(a.center.z, a.size.z, b.center.z, b.size.z)
  }

  /** What one registered collider holds, as a value. */
  datatype Entry = Entry(box: Box, isPlayer: bool, matrix: Matrix4x4)

  /** An opaque scene object the registry only points at; it never owns or inspects it. */
  class GameObject { }

  predicate Distinct(s: seq<int>) {
    forall i, j | 0 <= i < j < |s| :: s[i] != s[j]
  }

  /** One axis-aligned box whose Extents, Min and Max are recomputed from Center and Size. */
  class AABBBounds {
    var Center: Vector3
    var Size: Vector3
    var Extents: Vector3
    var Min: Vector3
    var Max: Vector3
    var ID: int
    var IsPlayer: bool
    var Matrix: Matrix4x4

    /** The derived-bounds invariant. */
    ghost predicate Valid()
      reads this
    {
      && Extents == Size.Scale(0.5)
      && Min == Center.Minus(Extents)
      && Max == Center.Plus(Extents)
    }

    ghost function Shape(): Box
      reads this
    {
      Box(Center, Size)
    }

    ghost function View(): Entry
      reads this
    {
      Entry(Shape(), IsPlayer, Matrix)
    }

    /** The matrix is never set here, so it keeps the struct default: all zero, not the identity. */
    constructor (center: Vector3, size: Vector3, id: int, isPlayer: bool)
      ensures Valid()
      ensures Center == center && Size == size && ID == id && IsPlayer == isPlayer
      ensures Matrix == ZeroMatrix
    {
      ID := id;
      IsPlayer := isPlayer;
      Matrix := ZeroMatrix;
      Center := center;
      Size := size;
      Extents := size.Scale(0.5);
      Min := center.Minus(size.Scale(0.5));
      Max := center.Plus(size.Scale(0.5));
    }

    method UpdateBounds(center: Vector3, size: Vector3)
      modifies this
      ensures Valid()
      ensures Center == center && Size == size
      ensures ID == old(ID) && IsPlayer == old(IsPlayer) && Matrix == old(Matrix)
    {
      Center := center;
      Size := size;
      Extents := size.Scale(0.5);
      Min := center.Minus(Extents);
      Max := center.Plus(Extents);
    }

    /**
     * The inclusive test on the stored Min and Max: boxes that only touch count as
     * overlapping. With consistent derived fields it agrees with Reaches on centre and size.
     */
    function Intersects(other: AABBBounds): (r: bool)
      reads this, other
      ensures Valid() && other.Valid() ==> (r <==> Reaches(Shape(), other.Shape()))
    {
      !(Max.x < other.Min.x || Min.x > other.Max.x ||
        Max.y < other.Min.y || Min.y > other.Max.y ||
        Max.z < other.Min.z || Min.z > other.Max.z)
    }
  }

  /** The registry: handle -> bounds, handle -> owner, and the handle counter. */
  class CollisionManager {
    var colliders: map<int, AABBBounds>
    var owners: map<int, GameObject?>
    var nextID: int

    /**
     * Every registered box keeps its derived bounds, carries its own handle as ID, and
     * that handle was issued before nextID. Distinct handles therefore hold distinct boxes.
     * The owner table is unconstrained: it may hold handles with no box.
     */
    ghost predicate Valid()
      reads this, colliders.Values
    {
      && 0 <= nextID
      && forall id | id in colliders :: 0 <= id < nextID && colliders[id].ID == id && colliders[id].Valid()
    }

    /** The registry's contents as values. */
    ghost function Table(): map<int, Entry>
      reads this, colliders.Values
    {
      map id | id in colliders :: colliders[id].View()
    }

    constructor ()
      ensures Valid()
      ensures colliders == map[] && owners == map[] && nextID == 0
    {
      colliders := map[];
      owners := map[];
      nextID := 0;
    }

    /** Issues the current counter value as a fresh handle and stores a new box under it. */
    method RegisterCollider(center: Vector3, size: Vector3, isPlayer: bool) returns (id: int)
      requires Valid()
      modifies this
      ensures Valid()
      ensures id == old(nextID) && nextID == old(nextID) + 1
      ensures id !in old(colliders) && forall k | k in old(colliders) :: k < id
      ensures id in colliders && fresh(colliders[id])
      ensures forall k | k in old(colliders) :: k in colliders && colliders[k] == old(colliders[k])
      ensures Table() == old(Table())[id := Entry(Box(center, size), isPlayer, ZeroMatrix)]
      ensures owners == old(owners)
    {
      id := nextID;
      nextID := nextID + 1;
      var bounds := new AABBBounds(center, size, id, isPlayer);
      colliders := colliders[id := bounds];
    }

    /** Inserts or overwrites, whether or not the handle has a box. */
    method SetOwner(id: int, owner: GameObject?)
      requires Valid()
      modifies this
      ensures Valid()
      ensures owners == old(owners)[id := owner]
      ensures colliders == old(colliders) && nextID == old(nextID)
    {
      // The source adds a new key and overwrites an existing one; both store the owner.
      owners := owners[id := owner];
    }

    function GetOwner(id: int): (owner: GameObject?)
      reads this
      ensures id in owners ==> owner == owners[id]
      ensures id !in owners ==> owner == null
    {
      if id in owners then owners[id] else null
    }

    /** Replaces centre and size of a known box; an unknown handle is ignored. */
    method UpdateCollider(id: int, center: Vector3, size: Vector3)
      requires Valid()
      modifies if id in colliders then {colliders[id]} else {}
      ensures Valid()
      ensures Table() == if id in old(Table())
                         then old(Table())[id := old(Table())[id].(box := Box(center, size))]
                         else old(Table())
    {
      if id in colliders {
        var bounds := colliders[id];
        bounds.UpdateBounds(center, size);
        SameHandleSameBox(bounds);
      }
    }

    /** Drops the box and, only when there was a box, the owner too. */
    method RemoveCollider(id: int)
      requires Valid()
      modifies this
      ensures Valid()
      ensures colliders == old(colliders) - {id}
      ensures owners == if id in old(colliders) then old(owners) - {id} else old(owners)
      ensures nextID == old(nextID)
    {
      if id in colliders {
        colliders := colliders - {id};
        if id in owners {
          owners := owners - {id};
        }
      }
    }

    /** Stores the matrix and moves the box's centre to its translation, keeping the size. */
    method UpdateMatrix(id: int, matrix: Matrix4x4)
      requires Valid()
      modifies if id in colliders then {colliders[id]} else {}
      ensures Valid()
      ensures Table() == if id in old(Table())
                         then old(Table())[id := old(Table())[id].(box := Box(matrix.GetPosition(), old(Table())[id].box.size), matrix := matrix)]
                         else old(Table())
    {
      if id in colliders {
        var bounds := colliders[id];
        bounds.Matrix := matrix;
        var pos := matrix.GetPosition();
        bounds.UpdateBounds(pos, bounds.Size);
        SameHandleSameBox(bounds);
      }
    }

    /**
     * Tests a probe of the box's current size centred at newCenter against every other
     * registered box. Nothing is changed; the result order is the table's, which is unspecified.
     */
    method CheckCollision(id: int, newCenter: Vector3) returns (collided: bool, collidingIds: seq<int>)
      requires Valid()
      ensures id !in colliders ==> !collided && collidingIds == []
      ensures id in colliders ==>
        forall k :: k in collidingIds <==>
          k in colliders && k != id && Reaches(Box(newCenter, colliders[id].Size), colliders[k].Shape())
      ensures id !in collidingIds
      ensures Distinct(collidingIds)
      ensures collided <==> collidingIds != []
    {
      collidingIds := [];
      if id !in colliders {
        return false, collidingIds;
      }
      var current := colliders[id];
      var temp := new AABBBounds(newCenter, current.Size, -1, false);

      collided := false;
      // Every key lies below nextID, so counting up to it visits the whole table.
      var key := 0;
      while key < nextID
        invariant 0 <= key <= nextID
        invariant forall k :: k in collidingIds <==>
          k in colliders && k < key && k != id && Reaches(temp.Shape(), colliders[k].Shape())
        invariant forall k | k in collidingIds :: k < key
        invariant Distinct(collidingIds)
        invariant collided <==> collidingIds != []
      {
        if key in colliders && key != id {
          if temp.Intersects(colliders[key]) {
            collidingIds := collidingIds + [key];
            collided := true;
          }
        }
        key := key + 1;
      }
    }

    /** The stored matrix, or the identity for an unknown handle. */
    function GetMatrix(id: int): (m: Matrix4x4)
      reads this, colliders.Values
      ensures id !in colliders ==> m == Identity
      ensures id in colliders ==> m == colliders[id].Matrix
    {
      if id in colliders then colliders[id].Matrix else Identity
    }

    /**
     * The registry's table as it stands, not a copy of its boxes: they are the shared box
     * objects, so later moves and matrix updates show through the result.
     */
    function GetAllColliders(): (live: map<int, AABBBounds>)
      reads this, colliders.Values
      ensures live == colliders
      ensures Valid() ==> forall k | k in live :: live[k].ID == k && live[k].Valid()
    {
      colliders
    }

    /** A box stored under a handle is stored under no other handle. */
    lemma SameHandleSameBox(b: AABBBounds)
      requires forall k | k in colliders :: colliders[k].ID == k
      ensures forall k | k in colliders && colliders[k] == b :: k == b.ID
    {
    }
  }
}
