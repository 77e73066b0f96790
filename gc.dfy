/**
 * The non-moving mark-and-sweep collector. The heap is given as a map of object records keyed by
 * payload address, with the order the heap iterator visits them in; the mark bit and the deleted
 * bit of every header are kept as the sets of addresses that have them. Marking follows every
 * non-null reference from the frame values: an array of references marks its elements, a class
 * instance its reference fields. Sweeping visits the objects that are not deleted, in heap order,
 * records and deletes the unmarked ones and unmarks the rest.
 */
module GarbageCollection {
  import opened TypeIds

  type Address = nat

  /** A value in a frame or in an object: its static type and its raw 64-bit contents. */
  datatype Value = Value(valueType: TypeId, raw: nat)
  {
    /** A value marking follows: a reference that is not null. */
    predicate Points() { valueType.IsReference() && raw != 0 }
  }

  /**
   * An object record: its type and the values it holds, the elements of an array or the fields
   * of a class instance in declaration order, each with its declared type.
   */
  datatype ObjectRecord = ObjectRecord(objectType: TypeId, slots: seq<Value>)

  /** The values of an array's elements, read with the element type. */
  function ElementValues(element: TypeId, slots: seq<Value>): (r: seq<Value>)
    ensures |r| == |slots|
    ensures forall i :: 0 <= i < |r| ==> r[i] == Value(element, slots[i].raw)
  {
    if |slots| == 0 then [] else [Value(element, slots[0].raw)] + ElementValues(element, slots[1..])
  }

  /** The reference-typed fields, in order. */
  function ReferenceFields(slots: seq<Value>): (r: seq<Value>)
    ensures forall v :: v in r <==> v in slots && v.valueType.IsReference()
  {
    if |slots| == 0 then []
    else if slots[0].valueType.IsReference() then [slots[0]] + ReferenceFields(slots[1..])
    else ReferenceFields(slots[1..])
  }

  /**
   * The values `mark_value` visits inside an object reached through a value of type `t`: the
   * elements of an array whose element type is a reference, the reference fields of a class
   * instance, and nothing for anything else.
   */
  function Traversed(t: TypeId, slots: seq<Value>): seq<Value> {
    match t
    case Array(element) => if element.IsReference() then ElementValues(element, slots) else []
    case Class(_) => ReferenceFields(slots)
    case _ => []
  }

  /** The addresses an object's traversed values point at. */
  function ChildAddresses(o: ObjectRecord): set<Address> {
    set v | v in Traversed(o.objectType, o.slots) && v.Points() :: v.raw
  }

  /** A chain of objects, each pointing at the next. */
  ghost predicate IsPath(objects: map<Address, ObjectRecord>, path: seq<Address>) {
    |path| >= 1 &&
    forall i :: 0 <= i < |path| - 1 ==> path[i] in objects && path[i + 1] in ChildAddresses(objects[path[i]])
  }

  ghost predicate Reachable(objects: map<Address, ObjectRecord>, from: Address, to: Address) {
    exists path :: IsPath(objects, path) && path[0] == from && path[|path| - 1] == to
  }

  /** The non-null references among the roots. */
  function RootAddresses(roots: seq<Value>): set<Address> {
    set v | v in roots && v.Points() :: v.raw
  }

  /** Some root reference reaches the object. */
  ghost predicate ReachedFromRoots(objects: map<Address, ObjectRecord>, roots: seq<Value>, a: Address) {
    exists r :: r in RootAddresses(roots) && Reachable(objects, r, a)
  }

  /** The objects reachable from the roots. */
  ghost function ReachableFromRoots(objects: map<Address, ObjectRecord>, roots: seq<Value>): set<Address> {
    set a | a in objects && ReachedFromRoots(objects, roots, a)
  }

  lemma ReachSelf(objects: map<Address, ObjectRecord>, a: Address)
    ensures Reachable(objects, a, a)
  {
    assert IsPath(objects, [a]);
  }

  /** A reference out of an object extends every chain starting where it points. */
  lemma ReachStep(objects: map<Address, ObjectRecord>, a: Address, b: Address, c: Address)
    requires a in objects && b in ChildAddresses(objects[a]) && Reachable(objects, b, c)
    ensures Reachable(objects, a, c)
  {
    var path :| IsPath(objects, path) && path[0] == b && path[|path| - 1] == c;
    var longer := [a] + path;
    forall i | 0 <= i < |longer| - 1
      ensures longer[i] in objects && longer[i + 1] in ChildAddresses(objects[longer[i]])
    {
      if i > 0 {
        assert longer[i] == path[i - 1] && longer[i + 1] == path[i];
      }
    }
    assert IsPath(objects, longer);
  }

  /** A set closed under references contains everything reachable from its members. */
  lemma {:induction false} ClosedHoldsReachable(objects: map<Address, ObjectRecord>, closed: set<Address>, path: seq<Address>)
    requires IsPath(objects, path) && path[0] in closed
    requires forall a :: a in closed && a in objects ==> ChildAddresses(objects[a]) <= closed
    ensures path[|path| - 1] in closed
    decreases |path|
  {
    if |path| > 1 {
      var rest := path[1..];
      assert IsPath(objects, rest) by {
        forall i | 0 <= i < |rest| - 1
          ensures rest[i] in objects && rest[i + 1] in ChildAddresses(objects[rest[i]])
        {
          assert rest[i] == path[i + 1] && rest[i + 1] == path[i + 2];
        }
      }
      ClosedHoldsReachable(objects, closed, rest);
    }
  }

  ghost predicate PointsIntoLive(objects: map<Address, ObjectRecord>, deleted: set<Address>, v: Value) {
    v.Points() ==> v.raw in objects && v.raw !in deleted && objects[v.raw].objectType == v.valueType
  }

  ghost predicate ClosedUnder(objects: map<Address, ObjectRecord>, deleted: set<Address>) {
    forall a, v :: a in objects && a !in deleted && v in Traversed(objects[a].objectType, objects[a].slots) ==>
      PointsIntoLive(objects, deleted, v)
  }

  class ManagedHeap {
    const objects: map<Address, ObjectRecord>
    /** The order the heap iterator visits the objects in. */
    const order: seq<Address>
    /** The objects whose header has the mark bit set. */
    var marked: set<Address>
    /** The objects whose header says deleted; the iterator skips them. */
    var deleted: set<Address>

    /** Every object appears once in heap order, no object sits at null, and only live objects are marked. */
    ghost predicate Valid()
      reads this
    {
      && (forall a :: a in objects <==> a in order)
      && (forall i, j :: 0 <= i < j < |order| ==> order[i] != order[j])
      && 0 !in objects
      && deleted <= objects.Keys
      && marked <= objects.Keys - deleted
    }

    /** A value points, if at all, at a live object of its own type. */
    ghost predicate PointsInto(v: Value)
      reads this`deleted
    {
      PointsIntoLive(objects, deleted, v)
    }

    /** Every value a live object holds points into the heap: no live object refers to a deleted one. */
    ghost predicate Closed()
      reads this`deleted
    {
      ClosedUnder(objects, deleted)
    }

    /** The objects the iterator visits. */
    ghost function Live(): set<Address>
      reads this`deleted
    {
      objects.Keys - deleted
    }

    constructor (objects: map<Address, ObjectRecord>, order: seq<Address>)
      requires forall a :: a in objects <==> a in order
      requires forall i, j :: 0 <= i < j < |order| ==> order[i] != order[j]
      requires 0 !in objects
      ensures Valid() && this.objects == objects && this.order == order
      ensures marked == {} && deleted == {}
    {
      this.objects := objects;
      this.order := order;
      marked := {};
      deleted := {};
    }
  }

  /** The `(address, type)` records sweeping appends: the live unmarked objects, in heap order. */
  function Swept(objects: map<Address, ObjectRecord>, order: seq<Address>, deleted: set<Address>, marked: set<Address>): (r: seq<(Address, TypeId)>)
    requires forall a :: a in order ==> a in objects
    ensures |r| <= |order|
  {
    if |order| == 0 then []
    else
      var rest := Swept(objects, order[1..], deleted, marked);
      if order[0] !in deleted && order[0] !in marked then [(order[0], objects[order[0]].objectType)] + rest else rest
  }

  class GarbageCollector {
    var deletedObjects: seq<(Address, TypeId)>

    /** `new`: nothing deleted yet. */
    constructor ()
      ensures deletedObjects == []
    {
      deletedObjects := [];
    }

    /**
     * `mark_value`: a non-null reference to an unmarked object marks it and then the values it
     * holds; non-references, null and marked objects are left alone, which ends the traversal
     * on cycles. Everything newly marked is reachable from the value, and every value a newly
     * marked object holds points at a marked object.
     */
    method MarkValue(heap: ManagedHeap, v: Value)
      requires heap.Valid() && heap.Closed() && heap.PointsInto(v)
      modifies heap`marked
      ensures heap.Valid()
      ensures old(heap.marked) <= heap.marked
      ensures v.Points() ==> v.raw in heap.marked
      ensures !v.Points() ==> heap.marked == old(heap.marked)
      ensures forall a :: a in heap.marked - old(heap.marked) ==> ChildAddresses(heap.objects[a]) <= heap.marked
      ensures forall a :: a in heap.marked - old(heap.marked) ==> Reachable(heap.objects, v.raw, a)
      decreases heap.objects.Keys - heap.marked
    {
      if !v.Points() || v.raw in heap.marked {
        return;
      }
      var a := v.raw;
      heap.marked := heap.marked + {a};
      ReachSelf(heap.objects, a);
      var children := Traversed(v.valueType, heap.objects[a].slots);
      for i := 0 to |children|
        invariant heap.Valid()
        invariant old(heap.marked) + {a} <= heap.marked
        invariant forall j :: 0 <= j < i && children[j].Points() ==> children[j].raw in heap.marked
        invariant forall b :: b in heap.marked - old(heap.marked) - {a} ==> ChildAddresses(heap.objects[b]) <= heap.marked
        invariant forall b :: b in heap.marked - old(heap.marked) ==> Reachable(heap.objects, a, b)
      {
        assert children[i] in Traversed(heap.objects[a].objectType, heap.objects[a].slots);
        ghost var before := heap.marked;
        MarkValue(heap, children[i]);
        forall b | b in heap.marked - before
          ensures Reachable(heap.objects, a, b)
        {
          ReachStep(heap.objects, a, children[i].raw, b);
        }
      }
      forall w | w in children && w.Points()
        ensures w.raw in heap.marked
      {
        var j :| 0 <= j < |children| && children[j] == w;
      }
    }

    /**
     * `mark_objects`: every frame value is marked from, in walk order. Afterwards every root
     * reference is marked, everything newly marked is reachable from a root, and every value a
     * newly marked object holds points at a marked object.
     */
    method MarkObjects(heap: ManagedHeap, roots: seq<Value>)
      requires heap.Valid() && heap.Closed() && forall r :: r in roots ==> heap.PointsInto(r)
      modifies heap`marked
      ensures heap.Valid()
      ensures old(heap.marked) <= heap.marked
      ensures RootAddresses(roots) <= heap.marked
      ensures forall a :: a in heap.marked - old(heap.marked) ==> ChildAddresses(heap.objects[a]) <= heap.marked
      ensures forall a :: a in heap.marked - old(heap.marked) ==> a in ReachableFromRoots(heap.objects, roots)
    {
      for k := 0 to |roots|
        invariant heap.Valid()
        invariant old(heap.marked) <= heap.marked
        invariant forall j :: 0 <= j < k && roots[j].Points() ==> roots[j].raw in heap.marked
        invariant forall a :: a in heap.marked - old(heap.marked) ==> ChildAddresses(heap.objects[a]) <= heap.marked
        invariant forall a :: a in heap.marked - old(heap.marked) ==> a in ReachableFromRoots(heap.objects, roots)
      {
        ghost var before := heap.marked;
        MarkValue(heap, roots[k]);
        forall a | a in heap.marked - before
          ensures a in ReachableFromRoots(heap.objects, roots)
        {
          assert roots[k].raw in RootAddresses(roots);
        }
      }
      forall r | r in RootAddresses(roots)
        ensures r in heap.marked
      {
        var v :| v in roots && v.Points() && v.raw == r;
        var j :| 0 <= j < |roots| && roots[j] == v;
      }
    }

    /**
     * `sweep_objects`: in heap order, every live unmarked object is recorded with its type and
     * deleted, and every marked one is unmarked; deleted objects are skipped. No object stays
     * marked, and the records only grow.
     */
    method SweepObjects(heap: ManagedHeap)
      requires heap.Valid()
      modifies this, heap`marked, heap`deleted
      ensures heap.Valid()
      ensures deletedObjects == old(deletedObjects) + Swept(heap.objects, heap.order, old(heap.deleted), old(heap.marked))
      ensures heap.deleted == old(heap.deleted) + (heap.objects.Keys - old(heap.deleted) - old(heap.marked))
      ensures heap.marked == {}
    {
      ghost var deleted0, marked0 := heap.deleted, heap.marked;
      ghost var visited: set<Address> := {};
      for k := 0 to |heap.order|
        invariant heap.Valid()
        invariant forall x :: x in visited <==> x in heap.order[..k]
        invariant deletedObjects == old(deletedObjects) + Swept(heap.objects, heap.order[..k], deleted0, marked0)
        invariant heap.deleted == deleted0 + (visited - deleted0 - marked0)
        invariant heap.marked == marked0 - visited
      {
        var a := heap.order[k];
        assert heap.order[..k + 1] == heap.order[..k] + [a];
        assert a !in visited;
        SweptAppend(heap.objects, heap.order[..k], a, deleted0, marked0);
        SweepObject(heap, a);
        visited := visited + {a};
      }
      assert heap.order[..|heap.order|] == heap.order;
      assert visited == heap.objects.Keys;
    }

    /** One visit of the sweep: a live unmarked object is recorded and deleted, a marked one unmarked. */
    method SweepObject(heap: ManagedHeap, a: Address)
      requires heap.Valid() && a in heap.objects
      modifies this, heap`marked, heap`deleted
      ensures heap.Valid()
      ensures a !in old(heap.deleted) && a !in old(heap.marked) ==>
        deletedObjects == old(deletedObjects) + [(a, heap.objects[a].objectType)] && heap.deleted == old(heap.deleted) + {a}
      ensures a in old(heap.deleted) || a in old(heap.marked) ==>
        deletedObjects == old(deletedObjects) && heap.deleted == old(heap.deleted)
      ensures heap.marked == old(heap.marked) - {a}
    {
      if a !in heap.deleted {
        if a !in heap.marked {
          deletedObjects := deletedObjects + [(a, heap.objects[a].objectType)];
          heap.deleted := heap.deleted + {a};
        } else {
          heap.marked := heap.marked - {a};
        }
      }
    }

    /**
     * `collect`: marking from the frame values, then sweeping. Exactly the live objects no root
     * reaches are deleted and recorded, in heap order; nothing stays marked, and no surviving
     * object refers to a deleted one.
     */
    method Collect(heap: ManagedHeap, roots: seq<Value>)
      requires heap.Valid() && heap.Closed() && heap.marked == {}
      requires forall r :: r in roots ==> heap.PointsInto(r)
      modifies this, heap`marked, heap`deleted
      ensures heap.Valid() && heap.Closed() && heap.marked == {}
      ensures heap.deleted == old(heap.deleted) + (old(heap.Live()) - ReachableFromRoots(heap.objects, roots))
      ensures deletedObjects == old(deletedObjects) + Swept(heap.objects, heap.order, old(heap.deleted), ReachableFromRoots(heap.objects, roots))
    {
      MarkObjects(heap, roots);
      MarkedIsReachable(heap.objects, roots, heap.marked);
      ghost var reached := heap.marked;
      SweepObjects(heap);
      SurvivorsClosed(heap.objects, old(heap.deleted), reached);
    }
  }

  /**
   * Deleting every live object outside a set closed under references leaves no survivor
   * referring to a deleted object.
   */
  lemma SurvivorsClosed(objects: map<Address, ObjectRecord>, deleted: set<Address>, reached: set<Address>)
    requires ClosedUnder(objects, deleted) && reached <= objects.Keys - deleted
    requires forall a :: a in reached ==> ChildAddresses(objects[a]) <= reached
    ensures ClosedUnder(objects, deleted + (objects.Keys - deleted - reached))
  {
    var after := deleted + (objects.Keys - deleted - reached);
    forall a, v | a in objects && a !in after && v in Traversed(objects[a].objectType, objects[a].slots)
      ensures PointsIntoLive(objects, after, v)
    {
      assert PointsIntoLive(objects, deleted, v);
      if v.Points() {
        assert v.raw in ChildAddresses(objects[a]);
      }
    }
  }

  /** The records are exactly the live unmarked objects of the order, each with its own type. */
  lemma {:induction false} SweptRecords(objects: map<Address, ObjectRecord>, order: seq<Address>, deleted: set<Address>, marked: set<Address>)
    requires forall a :: a in order ==> a in objects
    ensures forall x :: x in Swept(objects, order, deleted, marked) <==>
      x.0 in order && x.0 !in deleted && x.0 !in marked && x.1 == objects[x.0].objectType
    decreases |order|
  {
    if |order| > 0 {
      SweptRecords(objects, order[1..], deleted, marked);
      forall a | a in order
        ensures a == order[0] || a in order[1..]
      {
      }
    }
  }

  /** Sweeping one more object appends its record exactly when it is live and unmarked. */
  lemma {:induction false} SweptAppend(objects: map<Address, ObjectRecord>, order: seq<Address>, a: Address, deleted: set<Address>, marked: set<Address>)
    requires forall x :: x in order ==> x in objects
    requires a in objects
    ensures Swept(objects, order + [a], deleted, marked) ==
      Swept(objects, order, deleted, marked) + (if a !in deleted && a !in marked then [(a, objects[a].objectType)] else [])
    decreases |order|
  {
    if |order| > 0 {
      assert (order + [a])[1..] == order[1..] + [a];
      SweptAppend(objects, order[1..], a, deleted, marked);
    } else {
      assert order + [a] == [a];
    }
  }

  /**
   * Marking from nothing leaves exactly the reachable objects marked: what was marked is
   * reachable, and the marked set is closed under references, so it holds everything reachable.
   */
  lemma MarkedIsReachable(objects: map<Address, ObjectRecord>, roots: seq<Value>, marked: set<Address>)
    requires marked <= objects.Keys && RootAddresses(roots) <= marked
    requires forall a :: a in marked ==> ChildAddresses(objects[a]) <= marked
    requires forall a :: a in marked ==> a in ReachableFromRoots(objects, roots)
    ensures marked == ReachableFromRoots(objects, roots)
  {
    forall a | a in ReachableFromRoots(objects, roots)
      ensures a in marked
    {
      ReachedIsMarked(objects, roots, marked, a);
    }
  }

  /** A set that holds the roots and is closed under references holds every object they reach. */
  lemma ReachedIsMarked(objects: map<Address, ObjectRecord>, roots: seq<Value>, marked: set<Address>, a: Address)
    requires RootAddresses(roots) <= marked
    requires forall b :: b in marked && b in objects ==> ChildAddresses(objects[b]) <= marked
    requires ReachedFromRoots(objects, roots, a)
    ensures a in marked
  {
    var r :| r in RootAddresses(roots) && Reachable(objects, r, a);
    var path :| IsPath(objects, path) && path[0] == r && path[|path| - 1] == a;
    ClosedHoldsReachable(objects, marked, path);
  }

  /** A chain is a single object or starts with a reference out of its first object. */
  lemma FirstStep(objects: map<Address, ObjectRecord>, path: seq<Address>)
    requires IsPath(objects, path)
    ensures |path| == 1 || (path[0] in objects && path[1] in ChildAddresses(objects[path[0]]))
  {
  }

  /** An object that refers to nothing reaches only itself. */
  lemma ReachesOnlyItself(objects: map<Address, ObjectRecord>, a: Address, b: Address)
    requires a in objects && ChildAddresses(objects[a]) == {}
    ensures Reachable(objects, a, b) <==> b == a
  {
    if Reachable(objects, a, b) {
      var path :| IsPath(objects, path) && path[0] == a && path[|path| - 1] == b;
      FirstStep(objects, path);
    }
    if b == a {
      ReachSelf(objects, a);
    }
  }
}
