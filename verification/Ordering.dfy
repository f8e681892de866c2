/** List order: the in-place filter, the splice and the renumbering of
    server/internal/boards/store.go, and what they make of the order of a list. */
module Ordering {
  import opened Basics
  import opened Enumeration
  import opened Boards

  // ---------------------------------------------------------------- the order of a list

  /** ORDER BY sort_order, created_at, id. */
  predicate Before(tasks: map<Id, Task>, a: Id, b: Id) {
    && a in tasks && b in tasks
    && var p, q := tasks[a].place, tasks[b].place;
       || p.sortOrder < q.sortOrder
       || (p.sortOrder == q.sortOrder && (p.createdAt < q.createdAt || (p.createdAt == q.createdAt && a < b)))
  }

  function Less(tasks: map<Id, Task>): (Id, Id) -> bool {
    (a: Id, b: Id) => Before(tasks, a, b)
  }

  lemma {:induction false} OrderTotal(tasks: map<Id, Task>, ids: set<Id>)
    requires ids <= tasks.Keys
    ensures TotalOn(Less(tasks), ids)
  {
  }

  /** The given tasks as the database orders them. */
  ghost function Ordered(tasks: map<Id, Task>, ids: set<Id>): seq<Id>
    requires ids <= tasks.Keys
  {
    OrderTotal(tasks, ids);
    Listing(Less(tasks), ids)
  }

  lemma {:induction false} OrderedElements(tasks: map<Id, Task>, ids: set<Id>)
    requires ids <= tasks.Keys
    ensures Elements(Ordered(tasks, ids)) == ids
    ensures Distinct(Ordered(tasks, ids))
    ensures forall id :: id in Ordered(tasks, ids) <==> id in ids
  {
    OrderTotal(tasks, ids);
    ListingAscends(Less(tasks), ids);
    AscendingDistinct(Less(tasks), Ordered(tasks, ids));
    assert forall id :: id in Ordered(tasks, ids) <==> id in Elements(Ordered(tasks, ids));
  }

  /** By number; of equal numbers the older first, and of equal ages the lower identifier. */
  lemma {:induction false} OrderedAscends(tasks: map<Id, Task>, ids: set<Id>, i: nat, j: nat)
    requires ids <= tasks.Keys && i < j < |Ordered(tasks, ids)|
    ensures var a, b := Ordered(tasks, ids)[i], Ordered(tasks, ids)[j];
      && a in tasks && b in tasks && tasks[a].place.sortOrder <= tasks[b].place.sortOrder
      && (tasks[a].place.sortOrder == tasks[b].place.sortOrder ==>
            && tasks[a].place.createdAt <= tasks[b].place.createdAt
            && (tasks[a].place.createdAt == tasks[b].place.createdAt ==> a < b))
  {
    OrderTotal(tasks, ids);
    ListingAscends(Less(tasks), ids);
    assert Less(tasks)(Ordered(tasks, ids)[i], Ordered(tasks, ids)[j]);
  }

  lemma {:induction false} OrderedWithout(tasks: map<Id, Task>, ids: set<Id>, gone: set<Id>)
    requires ids <= tasks.Keys
    ensures Without(Ordered(tasks, ids), gone) == Ordered(tasks, ids - gone)
  {
    OrderTotal(tasks, ids);
    OrderTotal(tasks, ids - gone);
    ListingWithout(Less(tasks), ids, gone);
  }

  // ---------------------------------------------------------------- slices

  /** The in-place filter: the kept prefix of the slice is everything outside `removed`. */
  method RemoveTaskIds(ids: array<Id>, removed: set<Id>) returns (kept: nat)
    modifies ids
    ensures kept <= ids.Length
    ensures ids[..kept] == Without(old(ids[..]), removed)
  {
    kept := 0;
    ghost var was := ids[..];
    var i := 0;
    while i < ids.Length
      invariant 0 <= kept <= i <= ids.Length
      invariant ids[..kept] == Without(was[..i], removed)
      invariant ids[i..] == was[i..]
    {
      assert ids[i] == ids[i..][0] == was[i];
      assert was[..i + 1] == was[..i] + [was[i]];
      WithoutAppend(was[..i], [was[i]], removed);
      assert ids[i + 1..] == ids[i..][1..];
      if ids[i] !in removed {
        ids[kept] := ids[i];
        kept := kept + 1;
      }
      i := i + 1;
    }
    assert was[..ids.Length] == was;
  }

  function Inserted(ids: seq<Id>, group: seq<Id>, position: nat): seq<Id>
    requires position <= |ids|
  {
    ids[..position] + group + ids[position..]
  }

  function IndexOf(ids: seq<Id>, id: Id): (index: int)
    ensures -1 <= index < |ids|
    ensures index >= 0 <==> id in ids
    ensures index >= 0 ==> ids[index] == id
  {
    if ids == [] then -1
    else if ids[0] == id then 0
    else
      var rest := IndexOf(ids[1..], id);
      if rest < 0 then -1 else rest + 1
  }

  lemma IndexOfDistinct(ids: seq<Id>, i: nat)
    requires Distinct(ids) && i < |ids|
    ensures IndexOf(ids, ids[i]) == i
  {
  }

  /** A splice keeps everything that was there, in its old order, and adds the group in one piece. */
  lemma {:induction false} InsertedMeans(ids: seq<Id>, group: seq<Id>, position: nat)
    requires position <= |ids| && Distinct(ids) && Distinct(group)
    requires forall id :: id in group ==> id !in ids
    ensures var order := Inserted(ids, group, position);
            && Distinct(order)
            && Elements(order) == Elements(ids) + Elements(group)
            && Without(order, Elements(group)) == ids
            && order[position..position + |group|] == group
  {
    var order := Inserted(ids, group, position);
    InsertedWithout(ids, group, position);
    forall i, j | 0 <= i < j < |order|
      ensures order[i] != order[j]
    {
      SpliceDistinct(ids, group, position, i, j);
    }
  }

  lemma {:induction false} InsertedWithout(ids: seq<Id>, group: seq<Id>, position: nat)
    requires position <= |ids| && forall id :: id in group ==> id !in ids
    ensures Without(Inserted(ids, group, position), Elements(group)) == ids
  {
    var front, back, gone := ids[..position], ids[position..], Elements(group);
    assert ids == front + back;
    assert Without(front, gone) == front by {
      assert forall id :: id in front ==> id in ids;
      WithoutNone(front, gone);
    }
    assert Without(back, gone) == back by {
      assert forall id :: id in back ==> id in ids;
      WithoutNone(back, gone);
    }
    assert Without(group, gone) == [] by {
      WithoutAll(group, gone);
    }
    assert Without(front + group, gone) == front by {
      WithoutAppend(front, group, gone);
    }
    WithoutAppend(front + group, back, gone);
  }

  lemma {:induction false} SpliceDistinct(ids: seq<Id>, group: seq<Id>, position: nat, i: nat, j: nat)
    requires position <= |ids| && Distinct(ids) && Distinct(group) && i < j < |ids| + |group|
    requires forall id :: id in group ==> id !in ids
    ensures Inserted(ids, group, position)[i] != Inserted(ids, group, position)[j]
  {
    var order, n := Inserted(ids, group, position), |group|;
    var x := if i < position then ids[i] else if i < position + n then group[i - position] else ids[i - n];
    var y := if j < position then ids[j] else if j < position + n then group[j - position] else ids[j - n];
    assert order[i] == x && order[j] == y;
    assert position <= i < position + n ==> x in group;
    assert position <= j < position + n ==> y in group;
    assert !(position <= i < position + n) ==> x in ids;
    assert !(position <= j < position + n) ==> y in ids;
  }

  // ---------------------------------------------------------------- renumbering

  function Renumber(task: Task, order: int): Task {
    task.(place := task.place.(sortOrder := order))
  }

  /** Every task of `order` numbered by its position in it. */
  function Renumbered(tasks: map<Id, Task>, order: seq<Id>): map<Id, Task> {
    map id | id in tasks :: if id in order then Renumber(tasks[id], IndexOf(order, id)) else tasks[id]
  }

  /** The loop of updates that writes an order. */
  method WriteTaskOrder(tasks: map<Id, Task>, order: seq<Id>) returns (written: map<Id, Task>)
    requires Distinct(order)
    ensures written == Renumbered(tasks, order)
  {
    written := tasks;
    for position := 0 to |order|
      invariant written.Keys == tasks.Keys
      invariant forall id :: id in tasks ==>
        written[id] == (if id in order[..position] then Renumber(tasks[id], IndexOf(order, id)) else tasks[id])
    {
      assert order[..position + 1] == order[..position] + [order[position]];
      IndexOfDistinct(order, position);
      if order[position] in written {
        written := written[order[position] := Renumber(written[order[position]], position)];
      }
    }
    assert order[..|order|] == order;
  }

  /** A list is numbered 0..n-1 without gaps or repeats, in the given order. */
  ghost predicate Numbered(tasks: map<Id, Task>, bucket: Id, order: seq<Id>) {
    && Distinct(order)
    && Elements(order) == InBucket(tasks, bucket)
    && forall i :: 0 <= i < |order| ==> order[i] in tasks && tasks[order[i]].place.sortOrder == i
  }

  /** A list numbered by an order is in that order. */
  lemma {:induction false} NumberedOrder(tasks: map<Id, Task>, bucket: Id, order: seq<Id>)
    requires Numbered(tasks, bucket, order)
    ensures Ordered(tasks, InBucket(tasks, bucket)) == order
  {
    var ids := InBucket(tasks, bucket);
    OrderTotal(tasks, ids);
    ListingUnique(Less(tasks), ids, order);
  }

  /** Writing an order numbers its list and leaves all other tasks, and everything but the
      numbers, alone. */
  lemma {:induction false} RenumberedMeans(tasks: map<Id, Task>, order: seq<Id>)
    requires Distinct(order)
    ensures Renumbered(tasks, order).Keys == tasks.Keys
    ensures forall id :: id in tasks ==> Renumber(Renumbered(tasks, order)[id], 0) == Renumber(tasks[id], 0)
    ensures forall id :: id in tasks && id !in order ==> Renumbered(tasks, order)[id] == tasks[id]
    ensures forall i :: 0 <= i < |order| && order[i] in tasks ==> Renumbered(tasks, order)[order[i]].place.sortOrder == i
  {
    forall i | 0 <= i < |order| && order[i] in tasks
      ensures Renumbered(tasks, order)[order[i]].place.sortOrder == i
    {
      IndexOfDistinct(order, i);
    }
  }

  // ---------------------------------------------------------------- moving a group

  function Relocate(task: Task, bucket: Id): Task {
    task.(place := task.place.(bucket := bucket))
  }

  function Relocated(tasks: map<Id, Task>, ids: set<Id>, bucket: Id): map<Id, Task> {
    map id | id in tasks :: if id in ids then Relocate(tasks[id], bucket) else tasks[id]
  }

  /** The task and its subtasks, in their current order. */
  ghost function Group(tasks: map<Id, Task>, id: Id): seq<Id> {
    [id] + Ordered(tasks, ChildrenOf(tasks, id))
  }

  /** A list as a move leaves it before the group goes in. */
  ghost function OrderWithout(tasks: map<Id, Task>, bucket: Id, id: Id): seq<Id> {
    Without(Ordered(tasks, InBucket(tasks, bucket) - {id}), ChildrenOf(tasks, id))
  }

  /** The rows after a move: the group sits at `position` of the destination, and the list it
      came from closes up. */
  ghost function MovedRows(tasks: map<Id, Task>, id: Id, bucket: Id, position: nat): map<Id, Task>
    requires id in tasks && position <= |OrderWithout(tasks, bucket, id)|
  {
    var source := tasks[id].place.bucket;
    var order := Inserted(OrderWithout(tasks, bucket, id), Group(tasks, id), position);
    if source == bucket then Renumbered(tasks, order)
    else
      var relocated := Relocated(tasks, {id} + ChildrenOf(tasks, id), bucket);
      Renumbered(Renumbered(relocated, OrderWithout(tasks, source, id)), order)
  }

  lemma {:induction false} GroupMeans(tasks: map<Id, Task>, id: Id)
    requires id in tasks && tasks[id].place.parent != Some(id)
    ensures Distinct(Group(tasks, id))
    ensures Elements(Group(tasks, id)) == {id} + ChildrenOf(tasks, id)
  {
    OrderedElements(tasks, ChildrenOf(tasks, id));
    DistinctCons(id, Ordered(tasks, ChildrenOf(tasks, id)));
  }

  lemma {:induction false} OrderWithoutMeans(tasks: map<Id, Task>, bucket: Id, id: Id)
    ensures Distinct(OrderWithout(tasks, bucket, id))
    ensures Elements(OrderWithout(tasks, bucket, id)) == InBucket(tasks, bucket) - {id} - ChildrenOf(tasks, id)
    ensures OrderWithout(tasks, bucket, id)
         == Without(Ordered(tasks, InBucket(tasks, bucket)), {id} + ChildrenOf(tasks, id))
  {
    var ids, kids := InBucket(tasks, bucket), ChildrenOf(tasks, id);
    OrderedWithout(tasks, ids - {id}, kids);
    OrderedElements(tasks, ids - {id} - kids);
    OrderedWithout(tasks, ids, {id} + kids);
    assert ids - {id} - kids == ids - ({id} + kids);
  }

  /** What a move leaves. The destination is numbered 0..n-1; the moved task is followed directly
      by its subtasks in their old order; the others keep their relative order; the source, if it
      is another list, closes up; every other list is untouched; nothing but places changes. */
  ghost predicate MoveOk(tasks: map<Id, Task>, tasks': map<Id, Task>, id: Id, bucket: Id, position: nat)
    requires id in tasks
  {
    var source := tasks[id].place.bucket;
    var moved := {id} + ChildrenOf(tasks, id);
    var rest := Without(Ordered(tasks, InBucket(tasks, bucket)), moved);
    && position <= |rest|
    && Numbered(tasks', bucket, Inserted(rest, Group(tasks, id), position))
    && (source != bucket ==> Numbered(tasks', source, Without(Ordered(tasks, InBucket(tasks, source)), moved)))
    && OnlyPlacesMoved(tasks, tasks', moved, bucket)
    && OtherListsKept(tasks, tasks', source, bucket)
  }

  /** The moved tasks are in `bucket`, and nothing else changed but numbers. */
  ghost predicate OnlyPlacesMoved(tasks: map<Id, Task>, tasks': map<Id, Task>, moved: set<Id>, bucket: Id) {
    && tasks'.Keys == tasks.Keys
    && forall id :: id in tasks ==>
         Renumber(tasks'[id], 0) == Renumber(if id in moved then Relocate(tasks[id], bucket) else tasks[id], 0)
  }

  ghost predicate OtherListsKept(tasks: map<Id, Task>, tasks': map<Id, Task>, source: Id, bucket: Id) {
    forall id :: id in tasks && id in tasks' && tasks[id].place.bucket != source && tasks[id].place.bucket != bucket ==>
      tasks'[id] == tasks[id]
  }

  lemma {:induction false} MoveOrder(tasks: map<Id, Task>, id: Id, bucket: Id, position: nat)
    requires id in tasks && tasks[id].place.parent.None?
    requires position <= |OrderWithout(tasks, bucket, id)|
    ensures var order := Inserted(OrderWithout(tasks, bucket, id), Group(tasks, id), position);
            Distinct(order) && Elements(order) == InBucket(tasks, bucket) + {id} + ChildrenOf(tasks, id)
  {
    var rest, group := OrderWithout(tasks, bucket, id), Group(tasks, id);
    GroupMeans(tasks, id);
    OrderWithoutMeans(tasks, bucket, id);
    forall x | x in group
      ensures x !in rest
    {
      assert x in Elements(group);
      assert x in rest ==> x in Elements(rest);
    }
    InsertedMeans(rest, group, position);
  }

  /** A move of a top-level task does all of that, from any state in which nesting holds. */
  lemma {:induction false} MoveMeans(tasks: map<Id, Task>, id: Id, bucket: Id, position: nat)
    requires id in tasks && Nested(tasks) && tasks[id].place.parent.None?
    requires position <= |OrderWithout(tasks, bucket, id)|
    ensures MoveOk(tasks, MovedRows(tasks, id, bucket, position), id, bucket, position)
  {
    var source := tasks[id].place.bucket;
    OrderWithoutMeans(tasks, bucket, id);
    MoveOrder(tasks, id, bucket, position);
    var order := Inserted(OrderWithout(tasks, bucket, id), Group(tasks, id), position);
    if source == bucket {
      assert InBucket(tasks, bucket) + {id} + ChildrenOf(tasks, id) == InBucket(tasks, bucket);
      SameListMove(tasks, id, order);
    } else {
      var moved := {id} + ChildrenOf(tasks, id);
      OrderWithoutMeans(tasks, source, id);
      assert InBucket(tasks, source) - {id} - ChildrenOf(tasks, id) == InBucket(tasks, source) - moved;
      assert InBucket(tasks, bucket) + {id} + ChildrenOf(tasks, id) == InBucket(tasks, bucket) + moved;
      CrossListMove(tasks, moved, source, bucket, OrderWithout(tasks, source, id), order);
    }
  }

  lemma {:induction false} SameListMove(tasks: map<Id, Task>, id: Id, order: seq<Id>)
    requires id in tasks && Nested(tasks) && Distinct(order)
    requires Elements(order) == InBucket(tasks, tasks[id].place.bucket)
    ensures var bucket, tasks' := tasks[id].place.bucket, Renumbered(tasks, order);
            && Numbered(tasks', bucket, order)
            && OnlyPlacesMoved(tasks, tasks', {id} + ChildrenOf(tasks, id), bucket)
            && OtherListsKept(tasks, tasks', bucket, bucket)
  {
    var bucket, tasks' := tasks[id].place.bucket, Renumbered(tasks, order);
    RenumberedMeans(tasks, order);
    assert forall other :: other in order <==> other in Elements(order);
    assert forall other :: other in tasks ==> tasks'[other].place.bucket == Renumber(tasks'[other], 0).place.bucket;
    assert InBucket(tasks', bucket) == InBucket(tasks, bucket);
    forall i | 0 <= i < |order|
      ensures order[i] in tasks
    {
      assert order[i] in Elements(order);
    }
    assert forall other :: other in {id} + ChildrenOf(tasks, id) ==> Relocate(tasks[other], bucket) == tasks[other];
  }

  /** Two orders without a common task can be written one after the other. */
  lemma {:induction false} TwoOrders(tasks: map<Id, Task>, one: seq<Id>, two: seq<Id>)
    requires Distinct(one) && Distinct(two) && forall id :: id in one ==> id !in two
    ensures var written := Renumbered(Renumbered(tasks, one), two);
            && written.Keys == tasks.Keys
            && (forall id :: id in tasks ==> Renumber(written[id], 0) == Renumber(tasks[id], 0))
            && (forall id :: id in tasks && id !in one && id !in two ==> written[id] == tasks[id])
            && (forall i :: 0 <= i < |one| && one[i] in tasks ==> written[one[i]].place.sortOrder == i)
            && (forall i :: 0 <= i < |two| && two[i] in tasks ==> written[two[i]].place.sortOrder == i)
  {
    var first := Renumbered(tasks, one);
    RenumberedMeans(tasks, one);
    RenumberedMeans(first, two);
    forall i | 0 <= i < |one| && one[i] in tasks
      ensures Renumbered(first, two)[one[i]] == first[one[i]]
    {
      assert one[i] in one;
    }
  }

  lemma {:induction false} RelocatedBuckets(tasks: map<Id, Task>, moved: set<Id>, source: Id, bucket: Id)
    requires source != bucket && moved <= InBucket(tasks, source)
    ensures var relocated := Relocated(tasks, moved, bucket);
            && InBucket(relocated, bucket) == InBucket(tasks, bucket) + moved
            && InBucket(relocated, source) == InBucket(tasks, source) - moved
  {
  }

  lemma {:induction false} SameBuckets(tasks: map<Id, Task>, tasks': map<Id, Task>, bucket: Id)
    requires tasks'.Keys == tasks.Keys && forall id :: id in tasks ==> Renumber(tasks'[id], 0) == Renumber(tasks[id], 0)
    ensures InBucket(tasks', bucket) == InBucket(tasks, bucket)
  {
    assert forall id :: id in tasks ==> tasks'[id].place.bucket == Renumber(tasks'[id], 0).place.bucket;
    assert forall id :: id in tasks ==> tasks[id].place.bucket == Renumber(tasks[id], 0).place.bucket;
  }

  lemma {:induction false} CrossListMove(tasks: map<Id, Task>, moved: set<Id>, source: Id, bucket: Id, closed: seq<Id>, order: seq<Id>)
    requires source != bucket && moved <= InBucket(tasks, source) && Distinct(order) && Distinct(closed)
    requires Elements(order) == InBucket(tasks, bucket) + moved
    requires Elements(closed) == InBucket(tasks, source) - moved
    ensures var tasks' := Renumbered(Renumbered(Relocated(tasks, moved, bucket), closed), order);
            && Numbered(tasks', bucket, order)
            && Numbered(tasks', source, closed)
            && OnlyPlacesMoved(tasks, tasks', moved, bucket)
            && OtherListsKept(tasks, tasks', source, bucket)
  {
    var relocated := Relocated(tasks, moved, bucket);
    assert forall other :: other in order <==> other in Elements(order);
    assert forall other :: other in closed <==> other in Elements(closed);
    TwoOrders(relocated, closed, order);
    var tasks' := Renumbered(Renumbered(relocated, closed), order);
    assert Numbered(tasks', bucket, order) && Numbered(tasks', source, closed) by {
      RelocatedBuckets(tasks, moved, source, bucket);
      SameBuckets(relocated, tasks', bucket);
      SameBuckets(relocated, tasks', source);
      forall i | 0 <= i < |order|
        ensures order[i] in relocated
      {
        assert order[i] in Elements(order);
      }
      forall i | 0 <= i < |closed|
        ensures closed[i] in relocated
      {
        assert closed[i] in Elements(closed);
      }
    }
  }

  // ---------------------------------------------------------------- where a move lands

  datatype Side = BeforeReference | AfterReference

  /** The position fields of a move request, as they arrive. */
  datatype Target = Target(position: Option<int>, reference: Option<Id>, side: Option<Side>, preserve: bool, append: bool)

  predicate TargetOk(target: Target) {
    && (target.reference.None? && !target.preserve && !target.append ==> target.position.Some? && target.position.value >= 0)
    && (target.reference.Some? ==> target.side.Some?)
    && !((target.preserve || target.append) && (target.reference.Some? || target.position.Some?))
    && !(target.preserve && target.append)
  }

  /** Past the reference and past each of its subtasks found in the list, in turn. */
  function PastSubtasks(ids: seq<Id>, children: seq<Id>, position: nat): nat {
    if children == [] then position
    else
      var found := IndexOf(ids, children[0]);
      PastSubtasks(ids, children[1..], if found >= position then found + 1 else position)
  }

  lemma PastSubtasksMeans(ids: seq<Id>, children: seq<Id>, position: nat)
    requires position <= |ids|
    ensures position <= PastSubtasks(ids, children, position) <= |ids|
    ensures forall child :: child in children ==> IndexOf(ids, child) < PastSubtasks(ids, children, position)
    ensures var past := PastSubtasks(ids, children, position); past == position || ids[past - 1] in children
  {
    if children == [] {
    } else {
      var found := IndexOf(ids, children[0]);
      PastSubtasksMeans(ids, children[1..], if found >= position then found + 1 else position);
    }
  }

  /** The loop that steps past the reference's subtasks. */
  method StepPast(ids: seq<Id>, children: seq<Id>, from: nat) returns (position: nat)
    requires from <= |ids|
    ensures position == PastSubtasks(ids, children, from)
    ensures from <= position <= |ids| && forall child :: child in children ==> IndexOf(ids, child) < position
    ensures position == from || ids[position - 1] in children
  {
    position := from;
    for i := 0 to |children|
      invariant PastSubtasks(ids, children[i..], position) == PastSubtasks(ids, children, from)
    {
      assert children[i..][1..] == children[i + 1..];
      var childPosition := IndexOf(ids, children[i]);
      if childPosition >= position {
        position := childPosition + 1;
      }
    }
    PastSubtasksMeans(ids, children, from);
  }

  /** The position a move request asks for in the destination list without the group. */
  ghost function MovePosition(tasks: map<Id, Task>, id: Id, bucket: Id, target: Target): Result<nat, Error>
    requires id in tasks && TargetOk(target)
  {
    var ids := OrderWithout(tasks, bucket, id);
    if target.preserve then
      var source := tasks[id].place.bucket;
      var here := IndexOf(Without(Ordered(tasks, InBucket(tasks, source)), ChildrenOf(tasks, id)), id);
      var position := if here >= 0 then here else tasks[id].place.sortOrder;
      // The position of the task in its own list is never missing, so never negative.
      if position < 0 then Err(InvalidData) else Ok(if position > |ids| then |ids| else position)
    else if target.append then Ok(|ids|)
    else if target.reference.Some? then
      var at := IndexOf(ids, target.reference.value);
      if at < 0 then Err(InvalidData)
      else if target.side.value == BeforeReference then Ok(at)
      else Ok(PastSubtasks(ids, Ordered(tasks, ChildrenOf(tasks, target.reference.value)), at + 1))
    else if target.position.value > |ids| then Err(InvalidData)
    else Ok(target.position.value)
  }

  /** A task has a position among the tasks of its list that are not its subtasks, and taking the
      task out leaves room for that position. */
  lemma {:induction false} PreservedPosition(tasks: map<Id, Task>, id: Id)
    requires id in tasks && tasks[id].place.parent != Some(id)
    ensures var bucket := tasks[id].place.bucket;
            0 <= IndexOf(Without(Ordered(tasks, InBucket(tasks, bucket)), ChildrenOf(tasks, id)), id)
              <= |OrderWithout(tasks, bucket, id)|
  {
    var ids, kids := InBucket(tasks, tasks[id].place.bucket), ChildrenOf(tasks, id);
    OrderedWithout(tasks, ids, kids);
    OrderedElements(tasks, ids - kids);
    OrderWithoutMeans(tasks, tasks[id].place.bucket, id);
    DistinctCardinality(Ordered(tasks, ids - kids));
    DistinctCardinality(OrderWithout(tasks, tasks[id].place.bucket, id));
    assert ids - {id} - kids == (ids - kids) - {id};
  }

  /** A kept position is the task's own, as far as the destination reaches. */
  lemma {:induction false} PreservedLands(tasks: map<Id, Task>, id: Id, bucket: Id, target: Target)
    requires id in tasks && TargetOk(target) && tasks[id].place.parent != Some(id) && target.preserve
    ensures var r, ids := MovePosition(tasks, id, bucket, target), OrderWithout(tasks, bucket, id);
            var source := Without(Ordered(tasks, InBucket(tasks, tasks[id].place.bucket)), ChildrenOf(tasks, id));
            && id in source
            && r == Ok(if IndexOf(source, id) < |ids| then IndexOf(source, id) else |ids|)
            && (tasks[id].place.bucket == bucket ==> IndexOf(source, id) <= |ids|)
  {
    hide Ordered, OrderWithout, Without;
    PreservedPosition(tasks, id);
  }

  /** Before means directly before; after means directly past the reference and the last of its subtasks
      that follow it. */
  lemma {:induction false} ReferenceLands(tasks: map<Id, Task>, id: Id, bucket: Id, target: Target)
    requires id in tasks && TargetOk(target) && target.reference.Some?
    ensures var r, ids, reference := MovePosition(tasks, id, bucket, target), OrderWithout(tasks, bucket, id), target.reference.value;
      && (r.Ok? <==> reference in ids)
      && (r.Ok? ==> r.value <= |ids|)
      && (r.Ok? && target.side.value == BeforeReference ==> r.value < |ids| && ids[r.value] == reference)
      && (r.Ok? && target.side.value == AfterReference ==>
            && 0 < r.value && reference in ids[..r.value]
            && (ids[r.value - 1] == reference || ids[r.value - 1] in ChildrenOf(tasks, reference))
            && forall child :: child in ChildrenOf(tasks, reference) && child in ids ==> child in ids[..r.value])
  {
    hide Ordered, OrderWithout;
    var ids := OrderWithout(tasks, bucket, id);
    var at := IndexOf(ids, target.reference.value);
    if at >= 0 && target.side.value == AfterReference {
      var children := ChildrenOf(tasks, target.reference.value);
      OrderedElements(tasks, children);
      PastSubtasksMeans(ids, Ordered(tasks, children), at + 1);
      var position := PastSubtasks(ids, Ordered(tasks, children), at + 1);
      assert ids[..position][at] == target.reference.value;
      forall child | child in children && child in ids
        ensures child in ids[..position]
      {
        assert child in Ordered(tasks, children);
        assert ids[..position][IndexOf(ids, child)] == child;
      }
    }
  }

  /** Where each kind of request lands, in the destination list without the group. */
  lemma {:induction false} MovePositionMeans(tasks: map<Id, Task>, id: Id, bucket: Id, target: Target)
    requires id in tasks && TargetOk(target) && tasks[id].place.parent != Some(id)
    ensures var r, ids := MovePosition(tasks, id, bucket, target), OrderWithout(tasks, bucket, id);
      && (r.Ok? ==> r.value <= |ids|)
      && (target.append ==> r == Ok(|ids|))
      && (target.preserve ==>
            var source := Without(Ordered(tasks, InBucket(tasks, tasks[id].place.bucket)), ChildrenOf(tasks, id));
            id in source && r == Ok(if IndexOf(source, id) < |ids| then IndexOf(source, id) else |ids|))
      && (target.reference.Some? ==> (r.Ok? <==> target.reference.value in ids))
      && (target.reference.Some? && r.Ok? && target.side.value == BeforeReference ==>
            r.value < |ids| && ids[r.value] == target.reference.value)
      && (target.reference.Some? && r.Ok? && target.side.value == AfterReference ==>
            && 0 < r.value && target.reference.value in ids[..r.value]
            && (ids[r.value - 1] == target.reference.value || ids[r.value - 1] in ChildrenOf(tasks, target.reference.value))
            && forall child :: child in ChildrenOf(tasks, target.reference.value) && child in ids ==> child in ids[..r.value])
      && (target.reference.None? && !target.preserve && !target.append ==>
            r == if target.position.value > |ids| then Err(InvalidData) else Ok(target.position.value))
  {
    hide Ordered, OrderWithout, Without, ChildrenOf, InBucket;
    if target.preserve {
      PreservedLands(tasks, id, bucket, target);
    } else if target.reference.Some? {
      ReferenceLands(tasks, id, bucket, target);
    }
  }
}
