/** The container cache: a doubly linked list of nodes with a map from task id to node. */
module ContainerCache {
  import opened Wrappers
  import opened LRU

  class CacheNode<T> {
    const taskID: string
    var container: T
    var prev: CacheNode?<T>
    var next: CacheNode?<T>

    constructor (taskID: string, container: T)
      ensures this.taskID == taskID && this.container == container
    {
      this.taskID := taskID;
      this.container := container;
      prev, next := null, null;
    }
  }

  ghost predicate NoTwice<T>(nodes: seq<CacheNode<T>>) {
    forall i, j | 0 <= i < j < |nodes| :: nodes[i] != nodes[j]
  }

  /** The map has exactly the nodes of the list, under their own task ids. */
  ghost predicate MapsTo<T>(cache: map<string, CacheNode<T>>, nodes: seq<CacheNode<T>>) {
    && (forall i | 0 <= i < |nodes| :: nodes[i].taskID in cache && cache[nodes[i].taskID] == nodes[i])
    && (forall k | k in cache :: cache[k] in nodes && cache[k].taskID == k)
  }

  lemma MapsWithout<T>(cache: map<string, CacheNode<T>>, nodes: seq<CacheNode<T>>, i: nat)
    requires MapsTo(cache, nodes) && i < |nodes| && NoTwice(nodes)
    ensures MapsTo(cache - {nodes[i].taskID}, nodes[..i] + nodes[i + 1..])
  {
    var rest := nodes[..i] + nodes[i + 1..];
    forall k | k in cache && k != nodes[i].taskID ensures cache[k] in rest {
      var j :| 0 <= j < |nodes| && nodes[j] == cache[k];
      assert nodes[j] == rest[if j < i then j else j - 1];
    }
    forall j | 0 <= j < |rest| ensures rest[j].taskID in cache && cache[rest[j].taskID] == rest[j] != nodes[i] {
      assert rest[j] == nodes[if j < i then j else j + 1];
    }
  }

  lemma MapsWith<T>(cache: map<string, CacheNode<T>>, nodes: seq<CacheNode<T>>, node: CacheNode<T>)
    requires MapsTo(cache, nodes) && node.taskID !in cache
    ensures MapsTo(cache[node.taskID := node], [node] + nodes)
  {
    assert ([node] + nodes)[0] == node;
    forall k | k in cache ensures cache[k] in [node] + nodes {
      var j :| 0 <= j < |nodes| && nodes[j] == cache[k];
      assert ([node] + nodes)[j + 1] == cache[k];
    }
  }

  ghost function TaskIDs<T>(nodes: seq<CacheNode<T>>): (ids: seq<string>)
    ensures |ids| == |nodes| && forall i | 0 <= i < |nodes| :: ids[i] == nodes[i].taskID
  {
    seq(|nodes|, i requires 0 <= i < |nodes| => nodes[i].taskID)
  }

  /** The map and the list have the same size. */
  lemma MapSize<T>(cache: map<string, CacheNode<T>>, nodes: seq<CacheNode<T>>)
    requires MapsTo(cache, nodes) && NoTwice(nodes)
    ensures |cache| == |nodes|
  {
    var ids := TaskIDs(nodes);
    forall k | k in cache ensures k in ids {
      var j :| 0 <= j < |nodes| && nodes[j] == cache[k];
      assert ids[j] == k;
    }
    assert cache.Keys == set x | x in ids;
    DistinctSize(ids);
  }

  class Cache<T> {
    const capacity: nat
    var cache: map<string, CacheNode<T>>
    var head: CacheNode?<T>
    var tail: CacheNode?<T>
    ghost var nodes: seq<CacheNode<T>>

    /** nodes is the list from head to tail, and prev is the inverse of next. */
    ghost predicate Linked()
      reads this, nodes
    {
      && NoTwice(nodes)
      && head == (if nodes == [] then null else nodes[0])
      && tail == (if nodes == [] then null else nodes[|nodes| - 1])
      && (forall i {:trigger nodes[i].prev} | 0 <= i < |nodes| ::
            nodes[i].prev == if i == 0 then null else nodes[i - 1])
      && (forall i {:trigger nodes[i].next} | 0 <= i < |nodes| ::
            nodes[i].next == if i == |nodes| - 1 then null else nodes[i + 1])
    }

    ghost predicate Mapped()
      reads this
    {
      MapsTo(cache, nodes)
    }

    ghost predicate Valid()
      reads this, nodes
    {
      capacity > 0 && Linked() && Mapped() && |nodes| <= capacity
    }

    ghost function Entries(): (es: seq<Entry<T>>)
      reads this, nodes
      ensures |es| == |nodes|
    {
      seq(|nodes|, i requires 0 <= i < |nodes| reads this, nodes => Entry(nodes[i].taskID, nodes[i].container))
    }

    /** A capacity that is not positive means the default of 100. */
    constructor (capacity: int)
      ensures Valid() && Entries() == [] && nodes == []
      ensures this.capacity == if capacity <= 0 then 100 else capacity
    {
      this.capacity := if capacity <= 0 then 100 else capacity;
      cache := map[];
      head, tail := null, null;
      nodes := [];
    }

    /** Detaches a node; its own links are left as they were. */
    method RemoveNode(node: CacheNode<T>, ghost i: nat)
      requires Linked() && i < |nodes| && nodes[i] == node
      modifies this`head, this`tail, this`nodes, nodes
      ensures Linked() && nodes == old(nodes)[..i] + old(nodes)[i + 1..]
      ensures Entries() == old(Entries())[..i] + old(Entries())[i + 1..]
      ensures forall n | n in old(nodes) :: n.container == old(n.container)
    {
      ghost var es := Entries();
      ghost var rest := nodes[..i] + nodes[i + 1..];
      assert forall j | 0 <= j < |rest| :: rest[j] == nodes[if j < i then j else j + 1];
      assert node.prev == if i == 0 then null else nodes[i - 1];
      if node.prev != null {
        node.prev.next := node.next;
      } else {
        head := node.next;
      }
      if node.next != null {
        node.next.prev := node.prev;
      } else {
        tail := node.prev;
      }
      forall j | 0 <= j < |rest|
        ensures rest[j].prev == if j == 0 then null else rest[j - 1]
        ensures rest[j].next == if j == |rest| - 1 then null else rest[j + 1]
      {
        var o := if j < i then j else j + 1;
        assert rest[j] == nodes[o] && nodes[o] != node;
      }
      nodes := rest;
      assert Entries() == es[..i] + es[i + 1..];
    }

    method AddToFront(node: CacheNode<T>)
      requires Linked() && node !in nodes
      modifies this`head, this`tail, this`nodes, nodes, node
      ensures Linked() && nodes == [node] + old(nodes)
      ensures Entries() == [Entry(node.taskID, node.container)] + old(Entries())
      ensures node.container == old(node.container)
    {
      node.next := head;
      node.prev := null;
      if head != null {
        head.prev := node;
      }
      head := node;
      if tail == null {
        tail := node;
      }
      nodes := [node] + nodes;
    }

    method MoveToFront(node: CacheNode<T>, ghost i: nat)
      requires Linked() && Mapped() && i < |nodes| && nodes[i] == node
      modifies this`head, this`tail, this`nodes, nodes
      ensures Linked() && Mapped() && |nodes| == old(|nodes|)
      ensures node.container == old(node.container)
      ensures Entries() == [Entry(node.taskID, node.container)] + (old(Entries())[..i] + old(Entries())[i + 1..])
      ensures forall n | n in nodes :: n in old(nodes)
    {
      if head == node {
        assert i == 0;
        assert Entries() == [Entries()[0]] + (Entries()[..0] + Entries()[1..]);
        return;
      }
      RemoveNode(node, i);
      AddToFront(node);
    }

    /** Takes a node out of the list and out of the map. */
    method Detach(node: CacheNode<T>, ghost i: nat)
      requires Linked() && Mapped() && i < |nodes| && nodes[i] == node
      modifies this, nodes
      ensures Linked() && Mapped() && nodes == old(nodes)[..i] + old(nodes)[i + 1..]
      ensures Entries() == old(Entries())[..i] + old(Entries())[i + 1..]
    {
      ghost var before := nodes;
      RemoveNode(node, i);
      MapsWithout(cache, before, i);
      cache := cache - {node.taskID};
    }

    /** Evicts the tail. */
    method EvictLRU()
      requires Linked() && Mapped()
      modifies this, nodes
      ensures Linked() && Mapped()
      ensures old(nodes) != [] ==>
        nodes == old(nodes)[..|old(nodes)| - 1] && Entries() == old(Entries())[..|old(nodes)| - 1]
      ensures old(nodes) == [] ==> nodes == [] && Entries() == []
    {
      if tail == null {
        return;
      }
      Detach(tail, |nodes| - 1);
    }

    /** The position of a cached key in the list. */
    lemma Position(k: string) returns (i: nat)
      requires Linked() && Mapped() && k in cache
      ensures i < |nodes| && nodes[i] == cache[k] && Entries()[i].key == k
      ensures Lookup(Entries(), k) == Some(cache[k].container)
      ensures Without(Entries(), k) == Entries()[..i] + Entries()[i + 1..]
    {
      i :| 0 <= i < |nodes| && nodes[i] == cache[k];
      KeysUnique();
      WithoutAt(Entries(), i);
    }

    lemma KeysUnique()
      requires Linked() && Mapped()
      ensures UniqueKeys(Entries())
    {
    }

    lemma Missing(k: string)
      requires Linked() && Mapped() && k !in cache
      ensures Lookup(Entries(), k).None? && Without(Entries(), k) == Entries()
    {
      WithoutAbsent(Entries(), k);
    }

    method Get(taskID: string) returns (r: Option<T>)
      requires Valid()
      modifies this`head, this`tail, this`nodes, nodes
      ensures Valid()
      ensures r == Lookup(old(Entries()), taskID)
      ensures Entries() == LRU.Get(old(Entries()), taskID)
      ensures forall n | n in nodes :: n in old(nodes)
    {
      if taskID !in cache {
        Missing(taskID);
        return None;
      }
      var node := cache[taskID];
      ghost var i := Position(taskID);
      MoveToFront(node, i);
      return Some(node.container);
    }

    method PushNew(taskID: string, cont: T) returns (ghost newNode: CacheNode<T>)
      requires Linked() && Mapped() && taskID !in cache
      modifies this, nodes
      ensures Linked() && Mapped() && fresh(newNode) && nodes == [newNode] + old(nodes)
      ensures Entries() == [Entry(taskID, cont)] + old(Entries())
    {
      var node := new CacheNode(taskID, cont);
      newNode := node;
      MapsWith(cache, nodes, node);
      cache := cache[taskID := node];
      AddToFront(node);
    }

    /** Adds a node for a key that is not cached, and evicts the last one if there are too many. */
    method Insert(taskID: string, cont: T) returns (ghost newNode: CacheNode<T>)
      requires Valid() && taskID !in cache
      modifies this, nodes
      ensures Valid() && fresh(newNode) && nodes <= [newNode] + old(nodes)
      ensures Entries() ==
              var es := [Entry(taskID, cont)] + old(Entries());
              if |es| > capacity then es[..|es| - 1] else es
    {
      newNode := PushNew(taskID, cont);
      ghost var es := Entries();
      MapSize(cache, nodes);
      if |cache| > capacity {
        EvictLRU();
        assert Entries() == es[..|es| - 1];
      }
    }

    /** Updates a cached entry in place and moves it to the front. */
    method Replace(taskID: string, cont: T)
      requires Valid() && taskID in cache
      modifies this`head, this`tail, this`nodes, nodes
      ensures Valid() && forall n | n in nodes :: n in old(nodes)
      ensures Entries() == [Entry(taskID, cont)] + Without(old(Entries()), taskID)
    {
      var node := cache[taskID];
      ghost var i := Position(taskID);
      ghost var es := Entries();
      node.container := cont;
      assert Entries()[..i] == es[..i] && Entries()[i + 1..] == es[i + 1..];
      MoveToFront(node, i);
    }

    method Set(taskID: string, cont: T)
      requires Valid()
      modifies this, nodes
      ensures Valid()
      ensures Entries() == LRU.Set(old(Entries()), taskID, cont, capacity)
      ensures forall n | n in nodes :: n in old(nodes) || fresh(n)
    {
      if taskID in cache {
        Replace(taskID, cont);
        assert |Entries()| <= capacity;
      } else {
        Missing(taskID);
        ghost var newNode := Insert(taskID, cont);
      }
    }

    method Delete(taskID: string)
      requires Valid()
      modifies this, nodes
      ensures Valid()
      ensures Entries() == Without(old(Entries()), taskID)
    {
      if taskID !in cache {
        Missing(taskID);
        return;
      }
      var node := cache[taskID];
      ghost var i := Position(taskID);
      Detach(node, i);
    }

    method Clear()
      modifies this
      ensures capacity > 0 ==> Valid()
      ensures Entries() == []
    {
      cache := map[];
      head, tail := null, null;
      nodes := [];
    }

    method Len() returns (n: nat)
      requires Valid()
      ensures n == |Entries()|
    {
      MapSize(cache, nodes);
      return |cache|;
    }
  }
}
