/** The linked client list of src/client_list.c. */
module ClientList {
  import opened Iptables
  import opened Session

  class Node {
    var client: Client
    var next: Node?

    constructor (c: Client)
      ensures client == c && next == null
    {
      client, next := c, null;
    }
  }

  class List {
    var first: Node?        // firstclient
    var count: nat          // client_count
    var nextId: nat         // client_id
    ghost var nodes: seq<Node>
    ghost var contents: seq<Client>
    ghost var footprint: set<Node>   // every node that is or was on the list

    /** `nodes` is the chain of links from `first`, without repetition, and `contents` its records. */
    ghost predicate Valid()
      reads this, footprint
    {
      && |nodes| == |contents| == count
      && (forall i :: 0 <= i < |nodes| ==> nodes[i] in footprint)
      && first == (if nodes == [] then null else nodes[0])
      && (forall i {:trigger nodes[i].next} :: 0 <= i < |nodes| ==>
            nodes[i].next == if i + 1 < |nodes| then nodes[i + 1] else null)
      && (forall i, j :: 0 <= i < j < |nodes| ==> nodes[i] != nodes[j])
      && (forall i {:trigger nodes[i].client} :: 0 <= i < |nodes| ==> nodes[i].client == contents[i])
    }

    constructor ()
      ensures Valid() && contents == [] && nodes == [] && nextId == 1 && footprint == {}
    {
      first, count, nextId := null, 0, 1;
      nodes, contents, footprint := [], [], {};
    }

    /** The five finders: walk the links until a record satisfies the test. */
    method Find(p: Client -> bool) returns (n: Node?, ghost k: nat)
      requires Valid()
      ensures k == First(contents, p)
      ensures n == if First(contents, p) < |nodes| then nodes[First(contents, p)] else null
    {
      n, k := first, 0;
      while n != null && !p(n.client)
        invariant k <= |nodes|
        invariant n == if k < |nodes| then nodes[k] else null
        invariant forall j :: 0 <= j < k ==> !p(contents[j])
        decreases |nodes| - k
      {
        n, k := n.next, k + 1;
      }
      FirstIs(contents, p, k);
    }

    /** `client_list_find_by_any`, called with one argument for all three keys. */
    method FindByAny(arg: string) returns (n: Node?, ghost k: nat)
      requires Valid()
      ensures k == ByAny(contents, arg)
      ensures n == if ByAny(contents, arg) < |nodes| then nodes[ByAny(contents, arg)] else null
    {
      n, k := Find(ByToken(arg));
      if n == null {
        n, k := Find(ByIp(arg));
      }
      if n == null {
        n, k := Find(ByMac(arg));
      }
    }

    /** The linking part of `_client_list_append`: the new record goes to the end. */
    method Append(c: Client) returns (n: Node)
      requires Valid()
      modifies this, footprint
      ensures Valid() && fresh(n) && footprint == old(footprint) + {n}
      ensures contents == old(contents) + [c] && nodes == old(nodes) + [n]
      ensures nextId == old(nextId) + 1
    {
      var prev: Node?, cur := null, first;
      ghost var k := 0;
      while cur != null
        invariant k <= |nodes|
        invariant cur == if k < |nodes| then nodes[k] else null
        invariant prev == if k > 0 then nodes[k - 1] else null
        decreases |nodes| - k
      {
        prev, cur, k := cur, cur.next, k + 1;
      }
      n := new Node(c);
      if prev == null {
        first := n;
      } else {
        prev.next := n;
      }
      count, nextId := count + 1, nextId + 1;
      nodes, contents, footprint := nodes + [n], contents + [c], footprint + {n};
    }

    /** `client_list_delete`: unlinks the node, if it is on the list. */
    method Delete(n: Node)
      requires Valid()
      modifies this, footprint
      ensures Valid() && nextId == old(nextId) && footprint == old(footprint)
      ensures n !in old(nodes) ==> nodes == old(nodes) && contents == old(contents)
      ensures forall k :: 0 <= k < |old(nodes)| && old(nodes)[k] == n ==>
                nodes == RemoveAt(old(nodes), k) && contents == RemoveAt(old(contents), k)
    {
      if first == null {
      } else if first == n {
        first := n.next;
        count := count - 1;
        nodes, contents := RemoveAt(nodes, 0), RemoveAt(contents, 0);
      } else {
        var ptr: Node := first;
        ghost var k := 0;
        while ptr.next != null && ptr.next != n
          invariant k < |nodes| && ptr == nodes[k]
          invariant forall j :: 0 <= j <= k ==> nodes[j] != n
          decreases |nodes| - k
        {
          ptr, k := ptr.next, k + 1;
        }
        if ptr.next != null {
          Unlink(ptr, n, k + 1);
        }
      }
    }

    /** The inner deletion: `n` follows `ptr`. */
    method Unlink(ptr: Node, n: Node, ghost k: nat)
      requires Valid() && 0 < k < |nodes| && nodes[k] == n && nodes[k - 1] == ptr
      modifies this, ptr
      ensures Valid() && nextId == old(nextId) && footprint == old(footprint)
      ensures nodes == RemoveAt(old(nodes), k) && contents == RemoveAt(old(contents), k)
    {
      ptr.next := n.next;
      count := count - 1;
      ghost var ns := nodes;
      nodes, contents := RemoveAt(nodes, k), RemoveAt(contents, k);
      assert forall i :: 0 <= i < k ==> nodes[i] == ns[i];
      assert forall i :: k <= i < |nodes| ==> nodes[i] == ns[i + 1];
    }

    /** `client_list_flush`: an empty list keeps its id counter. */
    method Flush()
      requires Valid()
      modifies this
      ensures Valid() && contents == [] && nodes == [] && footprint == old(footprint)
      ensures nextId == if old(contents) == [] then old(nextId) else 1
    {
      if count == 0 {
        return;
      }
      first, count, nextId := null, 0, 1;
      nodes, contents := [], [];
    }

    /** Overwrites the record of a node. */
    method Store(n: Node, c: Client, ghost k: nat)
      requires Valid() && k < |nodes| && nodes[k] == n
      modifies this`contents, n`client
      ensures Valid() && contents == old(contents)[k := c]
    {
      n.client := c;
      contents := contents[k := c];
    }
  }
}
