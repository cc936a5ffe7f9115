/**
 The priority queue of sync operations. The binary heap is a multiset whose `pop` returns some element
 that no other precedes; the order among operations of equal priority and creation time is left open.
 */
module SyncQueue {
  import opened CloudTypes

  datatype Kind = Upload | Download | Delete

  datatype Priority = Low | Normal | High

  datatype Operation = Operation(
    id: string,
    accountId: AccountId,
    fileId: FileId,
    path: string,
    kind: Kind,
    priority: Priority,
    createdAt: int,
    size: Option<nat>
  )

  function Level(p: Priority): nat {
    match p
    case Low => 0
    case Normal => 1
    case High => 2
  }

  /** What the queue orders by. */
  datatype Key = Key(level: nat, createdAt: int)

  function KeyOf(op: Operation): Key {
    Key(Level(op.priority), op.createdAt)
  }

  /** Higher priority first, older first within a priority. */
  predicate Leq(k: Key, l: Key) {
    k.level > l.level || (k.level == l.level && k.createdAt <= l.createdAt)
  }

  /** `Ord::cmp` of queued operations: positive when `a` should come out of the heap before `b`. */
  function Cmp(a: Operation, b: Operation): int {
    if Level(a.priority) != Level(b.priority) then Level(a.priority) - Level(b.priority)
    else b.createdAt - a.createdAt
  }

  /** The comparison `list` sorts by. */
  function ListCmp(a: Operation, b: Operation): int {
    if Level(b.priority) != Level(a.priority) then Level(b.priority) - Level(a.priority)
    else a.createdAt - b.createdAt
  }

  /**
   The heap's order and the list's order are one total order, read from opposite ends: High before Normal
   before Low, and within a priority the older operation first.
   */
  lemma HeapAndListAgree(a: Operation, b: Operation)
    ensures a.priority.High? && !b.priority.High? ==> Cmp(a, b) > 0
    ensures a.priority.Normal? && b.priority.Low? ==> Cmp(a, b) > 0
    ensures a.priority == b.priority ==> (Cmp(a, b) > 0 <==> a.createdAt < b.createdAt)
    ensures Cmp(a, b) >= 0 <==> Leq(KeyOf(a), KeyOf(b))
    ensures ListCmp(a, b) <= 0 <==> Leq(KeyOf(a), KeyOf(b))
    ensures Cmp(a, b) == 0 <==> KeyOf(a) == KeyOf(b)
    ensures Leq(KeyOf(a), KeyOf(b)) || Leq(KeyOf(b), KeyOf(a))
  {
  }

  predicate First(op: Operation, heap: multiset<Operation>) {
    op in heap && forall x :: x in heap ==> Leq(KeyOf(op), KeyOf(x))
  }

  predicate Ordered(ops: seq<Operation>) {
    forall i, j :: 0 <= i < j < |ops| ==> Leq(KeyOf(ops[i]), KeyOf(ops[j]))
  }

  // ---------- Popping ----------

  /** `ops` can come out of `heap` by successive pops, leaving `rest`. */
  predicate Pops(heap: multiset<Operation>, ops: seq<Operation>, rest: multiset<Operation>) {
    if ops == [] then rest == heap
    else First(ops[0], heap) && Pops(heap - multiset{ops[0]}, ops[1..], rest)
  }

  ghost predicate Precede(ops: seq<Operation>, rest: multiset<Operation>) {
    forall i, x :: 0 <= i < |ops| && x in rest ==> Leq(KeyOf(ops[i]), KeyOf(x))
  }

  lemma FrontAndRest(ops: seq<Operation>)
    requires ops != []
    ensures multiset(ops) == multiset{ops[0]} + multiset(ops[1..])
  {
    assert ops == [ops[0]] + ops[1..];
  }

  lemma OrderedCons(op: Operation, tail: seq<Operation>)
    ensures Ordered([op] + tail) <==> Ordered(tail) && forall i :: 0 <= i < |tail| ==> Leq(KeyOf(op), KeyOf(tail[i]))
  {
    var ops := [op] + tail;
    assert forall i :: 0 < i < |ops| ==> ops[i] == tail[i - 1];
    if Ordered(ops) {
      forall i | 0 <= i < |tail| ensures Leq(KeyOf(op), KeyOf(tail[i])) {
        assert ops[0] == op && ops[i + 1] == tail[i];
      }
      forall i, j | 0 <= i < j < |tail| ensures Leq(KeyOf(tail[i]), KeyOf(tail[j])) {
        assert ops[i + 1] == tail[i] && ops[j + 1] == tail[j];
      }
    }
  }

  lemma PutBack(heap: multiset<Operation>, ops: seq<Operation>, rest: multiset<Operation>)
    requires ops != [] && ops[0] in heap
    requires heap - multiset{ops[0]} == multiset(ops[1..]) + rest
    ensures heap == multiset(ops) + rest
    ensures forall i :: 0 <= i < |ops| ==> ops[i] in heap
    ensures forall x :: x in rest ==> x in heap
  {
    FrontAndRest(ops);
    assert heap == multiset{ops[0]} + (heap - multiset{ops[0]});
    assert forall i :: 0 <= i < |ops| ==> ops[i] in multiset(ops);
  }

  lemma {:induction false} PopsAreOrdered(heap: multiset<Operation>, ops: seq<Operation>, rest: multiset<Operation>)
    requires Pops(heap, ops, rest)
    ensures heap == multiset(ops) + rest && Ordered(ops) && Precede(ops, rest)
    decreases |ops|
  {
    if ops != [] {
      PopsAreOrdered(heap - multiset{ops[0]}, ops[1..], rest);
      PutBack(heap, ops, rest);
      FirstThenOrdered(heap, ops, rest);
    }
  }

  lemma FirstThenOrdered(heap: multiset<Operation>, ops: seq<Operation>, rest: multiset<Operation>)
    requires ops != [] && First(ops[0], heap) && Ordered(ops[1..]) && Precede(ops[1..], rest)
    requires forall i :: 0 <= i < |ops| ==> ops[i] in heap
    requires forall x :: x in rest ==> x in heap
    ensures Ordered(ops) && Precede(ops, rest)
  {
    var tail := ops[1..];
    assert forall i :: 0 < i < |ops| ==> ops[i] == tail[i - 1];
    forall i, j | 0 <= i < j < |ops| ensures Leq(KeyOf(ops[i]), KeyOf(ops[j])) {
      if i > 0 {
        assert ops[i] == tail[i - 1] && ops[j] == tail[j - 1];
      }
    }
    forall i, x | 0 <= i < |ops| && x in rest ensures Leq(KeyOf(ops[i]), KeyOf(x)) {
      if i > 0 {
        assert ops[i] == tail[i - 1];
      }
    }
  }

  lemma {:induction false} OrderedCanPop(heap: multiset<Operation>, ops: seq<Operation>, rest: multiset<Operation>)
    requires heap == multiset(ops) + rest && Ordered(ops) && Precede(ops, rest)
    ensures Pops(heap, ops, rest)
    decreases |ops|
  {
    if ops != [] {
      var op, tail := ops[0], ops[1..];
      FrontAndRest(ops);
      assert ops == [op] + tail && heap - multiset{op} == multiset(tail) + rest;
      OrderedCons(op, tail);
      assert First(op, heap) by {
        forall x | x in heap ensures Leq(KeyOf(op), KeyOf(x)) {
          assert x == op || x in tail || x in rest;
        }
      }
      assert forall i :: 0 <= i < |tail| ==> tail[i] == ops[i + 1];
      OrderedCanPop(heap - multiset{op}, tail, rest);
    }
  }

  /**
   Exactly what successive pops may return: pops lose and invent nothing, come in order, and everything
   left behind comes after everything popped; and every sequence with these properties is a possible one.
   */
  lemma {:induction false} PopsCharacterised(heap: multiset<Operation>, ops: seq<Operation>, rest: multiset<Operation>)
    ensures Pops(heap, ops, rest) <==> heap == multiset(ops) + rest && Ordered(ops) && Precede(ops, rest)
  {
    if Pops(heap, ops, rest) {
      PopsAreOrdered(heap, ops, rest);
    } else if heap == multiset(ops) + rest && Ordered(ops) && Precede(ops, rest) {
      OrderedCanPop(heap, ops, rest);
    }
  }

  // ---------- Two orderings of the same operations have the same keys ----------

  function Keys(ops: seq<Operation>): seq<Key> {
    seq(|ops|, i requires 0 <= i < |ops| => KeyOf(ops[i]))
  }

  function Without<T>(s: seq<T>, i: nat): seq<T>
    requires i < |s|
  {
    s[..i] + s[i + 1..]
  }

  lemma WithoutMultiset<T>(s: seq<T>, i: nat)
    requires i < |s|
    ensures multiset(s) == multiset(Without(s, i)) + multiset{s[i]}
  {
    assert s == s[..i] + [s[i]] + s[i + 1..];
  }

  lemma KeysWithout(ops: seq<Operation>, i: nat)
    requires i < |ops|
    ensures multiset(Keys(ops)) == multiset(Keys(Without(ops, i))) + multiset{KeyOf(ops[i])}
  {
    assert Keys(Without(ops, i)) == Without(Keys(ops), i);
    WithoutMultiset(Keys(ops), i);
  }

  lemma KeysFront(ops: seq<Operation>)
    requires ops != []
    ensures multiset(Keys(ops)) == multiset(Keys(ops[1..])) + multiset{KeyOf(ops[0])}
  {
    assert Keys(ops) == [KeyOf(ops[0])] + Keys(ops[1..]);
  }

  lemma {:induction false} SameOperationsSameKeys(a: seq<Operation>, b: seq<Operation>)
    requires multiset(a) == multiset(b)
    ensures multiset(Keys(a)) == multiset(Keys(b))
    decreases |a|
  {
    if a == [] {
      assert |multiset(b)| == 0;
    } else {
      assert a[0] in multiset(b);
      var j :| 0 <= j < |b| && b[j] == a[0];
      FrontAndRest(a);
      WithoutMultiset(b, j);
      assert multiset(a[1..]) == multiset(a) - multiset{a[0]};
      assert multiset(Without(b, j)) == multiset(b) - multiset{b[j]};
      SameOperationsSameKeys(a[1..], Without(b, j));
      KeysWithout(b, j);
      KeysFront(a);
    }
  }

  lemma KeysTail(k: seq<Key>)
    requires k != []
    ensures multiset(k[1..]) == multiset(k) - multiset{k[0]}
  {
    assert k == [k[0]] + k[1..];
  }

  lemma {:induction false} OrderedKeysUnique(k: seq<Key>, l: seq<Key>)
    requires multiset(k) == multiset(l)
    requires forall i, j :: 0 <= i < j < |k| ==> Leq(k[i], k[j])
    requires forall i, j :: 0 <= i < j < |l| ==> Leq(l[i], l[j])
    ensures k == l
    decreases |k|
  {
    assert |k| == |multiset(k)| == |multiset(l)| == |l|;
    if k != [] {
      assert k[0] in multiset(l) && l[0] in multiset(k);
      assert Leq(l[0], k[0]) && Leq(k[0], l[0]);
      KeysTail(k);
      KeysTail(l);
      OrderedKeysUnique(k[1..], l[1..]);
      assert k == [k[0]] + k[1..] && l == [l[0]] + l[1..];
    }
  }

  lemma OrderedSameOperations(a: seq<Operation>, b: seq<Operation>)
    requires multiset(a) == multiset(b) && Ordered(a) && Ordered(b)
    ensures Keys(a) == Keys(b)
  {
    SameOperationsSameKeys(a, b);
    OrderedKeysUnique(Keys(a), Keys(b));
  }

  /** What `list` returns for a heap. */
  predicate Lists(heap: multiset<Operation>, listed: seq<Operation>) {
    multiset(listed) == heap && Ordered(listed)
  }

  /** Popping some operations gives the beginning of `list`, up to order among equals; draining gives all of it. */
  lemma {:induction false} PopsAgreeWithList(
    heap: multiset<Operation>, ops: seq<Operation>, rest: multiset<Operation>, listed: seq<Operation>)
    requires Pops(heap, ops, rest) && Lists(heap, listed)
    ensures |ops| <= |listed| && Keys(ops) == Keys(listed)[..|ops|]
    ensures rest == multiset{} ==> Keys(ops) == Keys(listed) && multiset(ops) == multiset(listed)
  {
    PopsCharacterised(heap, ops, rest);
    var tail := SortedOf(rest);
    var all := ops + tail;
    OrderedAppend(ops, tail, rest);
    assert multiset(all) == multiset(ops) + multiset(tail) == multiset(listed);
    OrderedSameOperations(all, listed);
    assert Keys(all)[..|ops|] == Keys(ops) && |Keys(all)| == |all| && |Keys(listed)| == |listed|;
    if rest == multiset{} {
      assert |multiset(tail)| == |tail| == 0;
      assert all == ops;
    }
  }

  lemma OrderedAppend(ops: seq<Operation>, tail: seq<Operation>, rest: multiset<Operation>)
    requires Ordered(ops) && Lists(rest, tail) && Precede(ops, rest)
    ensures Ordered(ops + tail)
  {
    var all := ops + tail;
    forall i, j | 0 <= i < j < |all| ensures Leq(KeyOf(all[i]), KeyOf(all[j])) {
      if i < |ops| <= j {
        assert all[j] == tail[j - |ops|] && all[j] in multiset(tail);
      } else if i >= |ops| {
        assert all[i] == tail[i - |ops|] && all[j] == tail[j - |ops|];
      }
    }
  }

  /** Every heap can be drained. */
  lemma {:induction false} SortedOf(heap: multiset<Operation>) returns (listed: seq<Operation>)
    ensures Lists(heap, listed)
    decreases |heap|
  {
    if heap == multiset{} {
      listed := [];
    } else {
      var op := FirstExists(heap);
      var rest := heap - multiset{op};
      var tail := SortedOf(rest);
      listed := [op] + tail;
      assert heap == multiset{op} + rest;
      forall i | 0 <= i < |tail| ensures Leq(KeyOf(op), KeyOf(tail[i])) {
        assert tail[i] in multiset(tail);
      }
    }
  }

  lemma {:induction false} FirstExists(heap: multiset<Operation>) returns (op: Operation)
    requires heap != multiset{}
    ensures First(op, heap)
    decreases |heap|
  {
    op :| op in heap;
    var rest := heap - multiset{op};
    assert heap == multiset{op} + rest;
    if rest != multiset{} {
      var best := FirstExists(rest);
      if !Leq(KeyOf(op), KeyOf(best)) {
        op := best;
      }
    }
  }

  lemma OrderedWithout(ops: seq<Operation>, k: nat)
    requires Ordered(ops) && k < |ops|
    ensures Ordered(Without(ops, k))
  {
    var r := Without(ops, k);
    forall i, j | 0 <= i < j < |r| ensures Leq(KeyOf(r[i]), KeyOf(r[j])) {
      assert r[i] == ops[if i < k then i else i + 1] && r[j] == ops[if j < k then j else j + 1];
    }
  }

  lemma WithoutSame(heap: multiset<Operation>, ops: seq<Operation>, i: nat)
    requires i < |ops| && multiset(ops) == heap
    ensures multiset(Without(ops, i)) == heap - multiset{ops[i]}
    ensures Keys(Without(ops, i)) == Without(Keys(ops), i)
  {
    WithoutMultiset(ops, i);
  }

  /** Removing one operation takes exactly its place out of what later pops return. */
  lemma {:induction false} RemoveKeepsOtherPops(
    heap: multiset<Operation>, x: Operation, before: seq<Operation>, after: seq<Operation>) returns (i: nat)
    requires x in heap
    requires Pops(heap, before, multiset{}) && Pops(heap - multiset{x}, after, multiset{})
    ensures i < |before| && before[i] == x && Keys(after) == Without(Keys(before), i)
  {
    DrainLists(heap, before);
    DrainLists(heap - multiset{x}, after);
    assert x in multiset(before);
    i :| 0 <= i < |before| && before[i] == x;
    WithoutSame(heap, before, i);
    OrderedWithout(before, i);
    OrderedSameOperations(after, Without(before, i));
  }

  lemma DrainLists(heap: multiset<Operation>, ops: seq<Operation>)
    requires Pops(heap, ops, multiset{})
    ensures Lists(heap, ops)
  {
    PopsAreOrdered(heap, ops, multiset{});
  }

  lemma InsertedInOrder(listed: seq<Operation>, op: Operation, k: nat)
    requires Ordered(listed) && k <= |listed|
    requires forall j :: k <= j < |listed| ==> Leq(KeyOf(op), KeyOf(listed[j]))
    requires k > 0 ==> Leq(KeyOf(listed[k - 1]), KeyOf(op))
    ensures Ordered(listed[..k] + [op] + listed[k..])
  {
    var r := listed[..k] + [op] + listed[k..];
    forall i, j | 0 <= i < j < |r| ensures Leq(KeyOf(r[i]), KeyOf(r[j])) {
      assert i != k ==> r[i] == listed[if i < k then i else i - 1];
      assert j != k ==> r[j] == listed[if j < k then j else j - 1];
      if j == k && i < k - 1 {
        assert Leq(KeyOf(listed[i]), KeyOf(listed[k - 1]));
      }
    }
  }

  // ---------- The queue in the source's form ----------

  datatype QueueError = QueueEmpty | OperationNotFound

  class Queue {
    var heap: multiset<Operation>

    constructor ()
      ensures heap == multiset{}
    {
      heap := multiset{};
    }

    method Push(op: Operation)
      modifies this
      ensures heap == old(heap) + multiset{op}
    {
      heap := heap + multiset{op};
    }

    method Peek() returns (r: Result<Operation, QueueError>)
      ensures r.Ok? <==> heap != multiset{}
      ensures r.Ok? ==> First(r.value, heap)
      ensures r.Err? ==> r.error == QueueEmpty
    {
      if heap == multiset{} {
        return Err(QueueEmpty);
      }
      var _ := FirstExists(heap);
      var op :| First(op, heap);
      r := Ok(op);
    }

    method Pop() returns (r: Result<Operation, QueueError>)
      modifies this
      ensures r.Ok? <==> old(heap) != multiset{}
      ensures r.Ok? ==> First(r.value, old(heap)) && heap == old(heap) - multiset{r.value}
      ensures r.Err? ==> r.error == QueueEmpty && heap == old(heap)
    {
      r := Peek();
      if r.Ok? {
        heap := heap - multiset{r.value};
      }
    }

    /** As written: the heap is drained before the search, so an unknown id empties the queue. */
    method Remove(id: string) returns (r: Result<Operation, QueueError>)
      modifies this
      ensures r.Ok? <==> exists op :: op in old(heap) && op.id == id
      ensures r.Ok? ==> r.value in old(heap) && r.value.id == id && heap == old(heap) - multiset{r.value}
      ensures r.Err? ==> r.error == OperationNotFound && heap == multiset{}
      ensures r.Err? ==> (heap == old(heap) <==> old(heap) == multiset{})
    {
      var operations := heap;
      heap := multiset{};
      if op :| op in operations && op.id == id {
        heap := operations - multiset{op};
        return Ok(op);
      }
      r := Err(OperationNotFound);
    }

    /** Repaired: the heap is replaced only once the operation has been found. */
    method RemoveRepaired(id: string) returns (r: Result<Operation, QueueError>)
      modifies this
      ensures r.Ok? <==> exists op :: op in old(heap) && op.id == id
      ensures r.Ok? ==> r.value in old(heap) && r.value.id == id && heap == old(heap) - multiset{r.value}
      ensures r.Err? ==> r.error == OperationNotFound && heap == old(heap)
    {
      if op :| op in heap && op.id == id {
        heap := heap - multiset{op};
        return Ok(op);
      }
      r := Err(OperationNotFound);
    }

    /** All operations in priority order; the queue is not changed. */
    method List() returns (listed: seq<Operation>)
      ensures Lists(heap, listed)
    {
      var left := heap;
      listed := [];
      while left != multiset{}
        invariant multiset(listed) + left == heap
        invariant Ordered(listed)
        decreases |left|
      {
        var op :| op in left;
        left := left - multiset{op};
        listed := InsertInOrder(listed, op);
      }
    }

    static method InsertInOrder(listed: seq<Operation>, op: Operation) returns (r: seq<Operation>)
      requires Ordered(listed)
      ensures Ordered(r) && multiset(r) == multiset(listed) + multiset{op}
    {
      var i := |listed|;
      while i > 0 && ListCmp(listed[i - 1], op) > 0
        invariant 0 <= i <= |listed|
        invariant forall j :: i <= j < |listed| ==> Leq(KeyOf(op), KeyOf(listed[j]))
      {
        i := i - 1;
      }
      assert listed == listed[..i] + listed[i..];
      r := listed[..i] + [op] + listed[i..];
      InsertedInOrder(listed, op, i);
    }

    method Clear()
      modifies this
      ensures heap == multiset{}
    {
      heap := multiset{};
    }
  }
}
