/** Reordering the subtasks of a task: `ReorderSubtasks` in server/internal/boards/store.go.

    Unlike moves, this repairs subtasks that strayed from their parent's list, so nothing is
    assumed about where they are. */
module SubtaskOrder {
  import opened Basics
  import opened Boards
  import opened Ordering

  /** The loop that crosses requested subtasks off the current ones. */
  method AcceptsOrder(ids: seq<Id>, current: seq<Id>) returns (ok: bool)
    requires Distinct(current)
    ensures ok <==> Distinct(ids) && Elements(ids) == Elements(current)
  {
    DistinctCardinality(current);
    if |ids| != |current| {
      if Distinct(ids) {
        DistinctCardinality(ids);
      }
      return false;
    }
    var remaining := Elements(current);
    for i := 0 to |ids|
      invariant Distinct(ids[..i]) && Elements(ids[..i]) <= Elements(current)
      invariant remaining == Elements(current) - Elements(ids[..i])
    {
      assert ids[..i + 1] == ids[..i] + [ids[i]];
      if ids[i] !in remaining {
        assert ids[i] in Elements(ids);
        assert ids[i] in ids[..i] ==> !Distinct(ids) by {
          if j :| 0 <= j < i && ids[..i][j] == ids[i] {
            assert ids[j] == ids[i];
          }
        }
        return false;
      }
      remaining := remaining - {ids[i]};
    }
    assert ids[..|ids|] == ids;
    DistinctOfSize(ids, Elements(current));
    return true;
  }

  /** The lists a reorder rewrites: the parent's and those its subtasks strayed to. */
  function TouchedLists(tasks: map<Id, Task>, parent: Id): set<Id>
    requires parent in tasks
  {
    {tasks[parent].place.bucket} + set id | id in ChildrenOf(tasks, parent) :: tasks[id].place.bucket
  }

  /** The order written to one of them. */
  ghost function NewOrder(tasks: map<Id, Task>, parent: Id, ids: seq<Id>, bucket: Id): seq<Id>
    requires parent in tasks
  {
    var rest := Without(Ordered(tasks, InBucket(tasks, bucket)), ChildrenOf(tasks, parent));
    if bucket == tasks[parent].place.bucket then Inserted(rest, ids, IndexOf(rest, parent) + 1) else rest
  }

  /** Orders written one after the other. */
  ghost function WriteAll(tasks: map<Id, Task>, parent: Id, ids: seq<Id>, from: map<Id, Task>, buckets: seq<Id>): map<Id, Task>
    requires parent in from
  {
    if buckets == [] then tasks
    else
      var last := |buckets| - 1;
      Renumbered(WriteAll(tasks, parent, ids, from, buckets[..last]), NewOrder(from, parent, ids, buckets[last]))
  }

  /** The rows after a reorder that writes the touched lists in the order `buckets`. */
  ghost function ReorderedRows(tasks: map<Id, Task>, parent: Id, ids: seq<Id>, buckets: seq<Id>): map<Id, Task>
    requires parent in tasks
  {
    WriteAll(Relocated(tasks, ChildrenOf(tasks, parent), tasks[parent].place.bucket), parent, ids, tasks, buckets)
  }

  /** A requested order is a permutation of the subtasks. */
  ghost predicate Permutes(tasks: map<Id, Task>, parent: Id, ids: seq<Id>) {
    && parent in tasks && tasks[parent].place.parent != Some(parent)
    && Distinct(ids) && Elements(ids) == ChildrenOf(tasks, parent)
  }

  lemma {:induction false} NewOrderMeans(tasks: map<Id, Task>, parent: Id, ids: seq<Id>, bucket: Id)
    requires Permutes(tasks, parent, ids)
    ensures var order := NewOrder(tasks, parent, ids, bucket);
            var rest := Without(Ordered(tasks, InBucket(tasks, bucket)), ChildrenOf(tasks, parent));
            && Distinct(order)
            && Elements(order) == InBucket(tasks, bucket) - ChildrenOf(tasks, parent)
                 + (if bucket == tasks[parent].place.bucket then ChildrenOf(tasks, parent) else {})
            && Without(order, ChildrenOf(tasks, parent)) == rest
            && (bucket == tasks[parent].place.bucket ==>
                  var at := IndexOf(rest, parent);
                  at >= 0 && order[at] == parent && order[at + 1..at + 1 + |ids|] == ids)
  {
    var kids := ChildrenOf(tasks, parent);
    var rest := Without(Ordered(tasks, InBucket(tasks, bucket)), kids);
    OrderedWithout(tasks, InBucket(tasks, bucket), kids);
    OrderedElements(tasks, InBucket(tasks, bucket) - kids);
    if bucket == tasks[parent].place.bucket {
      assert parent in rest;
      forall id | id in ids
        ensures id !in rest
      {
        assert id in Elements(ids);
      }
      InsertedMeans(rest, ids, IndexOf(rest, parent) + 1);
    } else {
      WithoutNone(rest, kids);
    }
  }

  lemma {:induction false} NewOrdersDisjoint(tasks: map<Id, Task>, parent: Id, ids: seq<Id>, one: Id, two: Id, id: Id)
    requires Permutes(tasks, parent, ids) && one != two
    ensures !(id in NewOrder(tasks, parent, ids, one) && id in NewOrder(tasks, parent, ids, two))
  {
    NewOrderMeans(tasks, parent, ids, one);
    NewOrderMeans(tasks, parent, ids, two);
    assert id in NewOrder(tasks, parent, ids, one) <==> id in Elements(NewOrder(tasks, parent, ids, one));
    assert id in NewOrder(tasks, parent, ids, two) <==> id in Elements(NewOrder(tasks, parent, ids, two));
  }

  /** What writing the lists does to one row, however they are enumerated: the number its own list
      gives it, and nothing else. */
  lemma {:induction false} WriteAllRow(tasks: map<Id, Task>, parent: Id, ids: seq<Id>, from: map<Id, Task>, buckets: seq<Id>, id: Id)
    requires Permutes(from, parent, ids) && Distinct(buckets) && id in tasks
    ensures WriteAll(tasks, parent, ids, from, buckets).Keys == tasks.Keys
    ensures forall bucket :: bucket in buckets && id in NewOrder(from, parent, ids, bucket) ==>
      WriteAll(tasks, parent, ids, from, buckets)[id] == Renumber(tasks[id], IndexOf(NewOrder(from, parent, ids, bucket), id))
    ensures (forall bucket :: bucket in buckets ==> id !in NewOrder(from, parent, ids, bucket)) ==>
      WriteAll(tasks, parent, ids, from, buckets)[id] == tasks[id]
  {
    if buckets == [] {
    } else {
      var last := |buckets| - 1;
      var front := buckets[..last];
      assert buckets == front + [buckets[last]];
      WriteAllRow(tasks, parent, ids, from, front, id);
      forall bucket | bucket in front && id in NewOrder(from, parent, ids, bucket)
        ensures id !in NewOrder(from, parent, ids, buckets[last])
      {
        NewOrdersDisjoint(from, parent, ids, bucket, buckets[last], id);
      }
    }
  }

  /** The result does not depend on the order in which the lists are written. */
  lemma {:induction false} ReorderIsOrderFree(tasks: map<Id, Task>, parent: Id, ids: seq<Id>, one: seq<Id>, two: seq<Id>)
    requires Permutes(tasks, parent, ids) && Distinct(one) && Distinct(two) && Elements(one) == Elements(two)
    ensures ReorderedRows(tasks, parent, ids, one) == ReorderedRows(tasks, parent, ids, two)
  {
    hide WriteAll, NewOrder, ChildrenOf, Distinct;
    var relocated := Relocated(tasks, ChildrenOf(tasks, parent), tasks[parent].place.bucket);
    assert forall bucket :: bucket in one <==> bucket in Elements(one);
    assert forall bucket :: bucket in two <==> bucket in Elements(two);
    WriteAllRow(relocated, parent, ids, tasks, one, parent);
    WriteAllRow(relocated, parent, ids, tasks, two, parent);
    forall id | id in relocated
      ensures ReorderedRows(tasks, parent, ids, one)[id] == ReorderedRows(tasks, parent, ids, two)[id]
    {
      WriteAllRow(relocated, parent, ids, tasks, one, id);
      WriteAllRow(relocated, parent, ids, tasks, two, id);
    }
  }

  /** A successful reorder puts the subtasks directly after the parent, in the requested order and
      in its list; every touched list is numbered 0..n-1 with the other tasks in their old order;
      no other list changes. */
  lemma {:induction false} ReorderMeans(tasks: map<Id, Task>, parent: Id, ids: seq<Id>, buckets: seq<Id>)
    requires Permutes(tasks, parent, ids) && Distinct(buckets) && Elements(buckets) == TouchedLists(tasks, parent)
    ensures var tasks' := ReorderedRows(tasks, parent, ids, buckets);
            && OnlyPlacesMoved(tasks, tasks', ChildrenOf(tasks, parent), tasks[parent].place.bucket)
            && (forall bucket :: bucket in buckets ==> Numbered(tasks', bucket, NewOrder(tasks, parent, ids, bucket)))
            && (forall id :: id in tasks && tasks[id].place.bucket !in buckets ==> tasks'[id] == tasks[id])
  {
    ReorderShape(tasks, parent, ids, buckets);
    forall bucket | bucket in buckets
      ensures Numbered(ReorderedRows(tasks, parent, ids, buckets), bucket, NewOrder(tasks, parent, ids, bucket))
    {
      ReorderNumbers(tasks, parent, ids, buckets, bucket);
    }
  }

  lemma {:induction false} ReorderShape(tasks: map<Id, Task>, parent: Id, ids: seq<Id>, buckets: seq<Id>)
    requires Permutes(tasks, parent, ids) && Distinct(buckets) && Elements(buckets) == TouchedLists(tasks, parent)
    ensures var tasks' := ReorderedRows(tasks, parent, ids, buckets);
            && OnlyPlacesMoved(tasks, tasks', ChildrenOf(tasks, parent), tasks[parent].place.bucket)
            && (forall id :: id in tasks && tasks[id].place.bucket !in buckets ==> tasks'[id] == tasks[id])
  {
    var relocated := Relocated(tasks, ChildrenOf(tasks, parent), tasks[parent].place.bucket);
    var tasks' := ReorderedRows(tasks, parent, ids, buckets);
    WriteAllRow(relocated, parent, ids, tasks, buckets, parent);
    forall id | id in tasks
      ensures Renumber(tasks'[id], 0) == Renumber(relocated[id], 0)
      ensures tasks[id].place.bucket !in buckets ==> tasks'[id] == tasks[id]
    {
      WriteAllRow(relocated, parent, ids, tasks, buckets, id);
      ReorderedRow(tasks, parent, ids, buckets, id);
    }
  }

  lemma {:induction false} ReorderNumbers(tasks: map<Id, Task>, parent: Id, ids: seq<Id>, buckets: seq<Id>, bucket: Id)
    requires Permutes(tasks, parent, ids) && Distinct(buckets) && Elements(buckets) == TouchedLists(tasks, parent)
    requires bucket in buckets
    ensures Numbered(ReorderedRows(tasks, parent, ids, buckets), bucket, NewOrder(tasks, parent, ids, bucket))
  {
    var kids, home := ChildrenOf(tasks, parent), tasks[parent].place.bucket;
    var relocated := Relocated(tasks, kids, home);
    var tasks' := ReorderedRows(tasks, parent, ids, buckets);
    var order := NewOrder(tasks, parent, ids, bucket);
    NewOrderMeans(tasks, parent, ids, bucket);
    assert InBucket(tasks', bucket) == Elements(order) by {
      ReorderShape(tasks, parent, ids, buckets);
      assert forall id :: id in tasks ==> tasks'[id].place.bucket == Renumber(tasks'[id], 0).place.bucket;
      assert forall id :: id in tasks ==> tasks'[id].place.bucket == (if id in kids then home else tasks[id].place.bucket);
    }
    forall i | 0 <= i < |order|
      ensures order[i] in tasks' && tasks'[order[i]].place.sortOrder == i
    {
      assert order[i] in Elements(order);
      WriteAllRow(relocated, parent, ids, tasks, buckets, order[i]);
      IndexOfDistinct(order, i);
    }
  }

  /** A row of an untouched list is in no written order. */
  lemma {:induction false} ReorderedRow(tasks: map<Id, Task>, parent: Id, ids: seq<Id>, buckets: seq<Id>, id: Id)
    requires Permutes(tasks, parent, ids) && Elements(buckets) == TouchedLists(tasks, parent) && id in tasks
    ensures tasks[id].place.bucket !in buckets ==>
      id !in ChildrenOf(tasks, parent) && forall bucket :: bucket in buckets ==> id !in NewOrder(tasks, parent, ids, bucket)
  {
    if tasks[id].place.bucket !in buckets {
      assert tasks[id].place.bucket !in Elements(buckets);
      assert id !in ChildrenOf(tasks, parent);
      forall bucket | bucket in buckets
        ensures id !in NewOrder(tasks, parent, ids, bucket)
      {
        NewOrderMeans(tasks, parent, ids, bucket);
        assert id !in Elements(NewOrder(tasks, parent, ids, bucket));
      }
    }
  }
}
