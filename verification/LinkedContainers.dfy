/** The node list and the hash of src/ast.c as they are: chains of links that are extended at the tail in place. */
module LinkedContainers {
  import opened Containers
  import opened Tokens

  // rbs_hash_get.
  function HashGet<K(==), V>(h: seq<Entry<K, V>>, k: K): Option<V> {
    if HasKey(h, k) then Some(h[HashFind(h, k)].value) else None
  }

  lemma FindIs<K, V>(h: seq<Entry<K, V>>, k: K, i: nat)
    requires i <= |h| && (forall j :: 0 <= j < i ==> h[j].key != k) && (i < |h| ==> h[i].key == k)
    ensures HashFind(h, k) == i
  {}

  // A hash that is only ever set is a map in insertion order: the key has the new value, every other key its old
  // one, no key is there twice, and no key ever moves.
  lemma SetIsAMapUpdate<K, V>(h: seq<Entry<K, V>>, k: K, v: V, x: K)
    requires DistinctKeys(h)
    ensures var g := HashSet(h, k, v);
            && DistinctKeys(g)
            && HashGet(g, x) == (if x == k then Some(v) else HashGet(h, x))
            && |g| == |h| + (if HasKey(h, k) then 0 else 1)
            && forall i :: 0 <= i < |h| ==> g[i].key == h[i].key
  {
    var g := HashSet(h, k, v);
    HasKeyAfterSet(h, k, v, x);
    if HasKey(g, x) {
      FindIs(g, x, if x == k then HashFind(h, k) else HashFind(h, x));
    }
  }

  // ---- the linked structures ------------------------------------------------------------------------

  // One link of a chain.
  class Link<T> {
    var item: T
    var next: Link?<T>

    constructor (item: T)
      ensures this.item == item && next == null
    {
      this.item, next := item, null;
    }
  }

  // The links in order: the first is the head, the last the tail, and each one leads to the one after it.
  ghost predicate Linked<T>(links: seq<Link<T>>, head: Link?<T>, tail: Link?<T>)
    reads links
  {
    && head == (if links == [] then null else links[0])
    && tail == (if links == [] then null else links[|links| - 1])
    && (forall i, j :: 0 <= i < j < |links| ==> links[i] != links[j])
    && forall i :: 0 <= i < |links| ==> links[i].next == (if i + 1 < |links| then links[i + 1] else null)
  }

  ghost function Items<T>(links: seq<Link<T>>): (items: seq<T>)
    reads links
    ensures |items| == |links| && forall i :: 0 <= i < |links| ==> items[i] == links[i].item
  {
    if links == [] then [] else Items(links[..|links| - 1]) + [links[|links| - 1].item]
  }

  // tail->next = link.
  method Attach<T>(ghost links: seq<Link<T>>, tail: Link<T>, link: Link<T>)
    requires links != [] && Linked(links, links[0], tail) && link !in links && link.next == null
    modifies tail
    ensures Linked(links + [link], links[0], link)
    ensures Items(links + [link]) == old(Items(links)) + [link.item]
  {
    ghost var longer := links + [link];
    assert forall l :: l in links && l != tail ==> l in links[..|links| - 1];
    tail.next := link;
    assert forall i :: 0 <= i < |links| ==> links[i].item == old(links[i].item);
    assert forall i :: 0 <= i < |links| - 1 ==> links[i].next == links[i + 1];
  }

  lemma EndsOfLinks<T>(links: seq<Link<T>>, head: Link?<T>, tail: Link?<T>)
    requires Linked(links, head, tail)
    ensures tail == null <==> links == []
    ensures links != [] ==> head == links[0] && Linked(links, links[0], tail)
    ensures links == [] ==> Items(links) == []
  {}

  lemma OneLink<T>(link: Link<T>)
    requires link.next == null
    ensures Linked([link], link, link) && Items([link]) == [link.item]
  {}

  // existing_node->value = value.
  method Replace<T>(ghost links: seq<Link<T>>, ghost i: nat, link: Link<T>, x: T)
    requires i < |links| && links[i] == link && Linked(links, links[0], links[|links| - 1])
    modifies link
    ensures Linked(links, links[0], links[|links| - 1])
    ensures Items(links) == old(Items(links))[i := x]
  {
    link.item := x;
  }

  // rbs_node_list.
  class NodeList<T> {
    var head: Link?<T>
    var tail: Link?<T>
    var length: nat
    ghost var links: seq<Link<T>>

    ghost predicate Valid()
      reads this, links
    {
      Linked(links, head, tail) && length == |links|
    }

    ghost function Contents(): seq<T>
      reads this, links
    {
      Items(links)
    }

    constructor ()
      ensures Valid() && Contents() == [] && links == []
    {
      head, tail, length, links := null, null, 0, [];
    }

    // rbs_node_list_append.
    method Append(x: T)
      requires Valid()
      modifies this, links
      ensures Valid() && Contents() == old(Contents()) + [x]
      ensures exists l: Link<T> :: fresh(l) && links == old(links) + [l]
    {
      hide Linked, Items;
      EndsOfLinks(links, head, tail);
      var link := new Link(x);
      OneLink(link);
      if tail == null {
        head, tail := link, link;
        assert links + [link] == [link] && Items(old(links)) + [link.item] == [link.item];
      } else {
        Attach(links, tail, link);
        tail := link;
      }
      length := length + 1;
      links := links + [link];
    }
  }

  // rbs_hash; the `length` of a hash is set to 0 when it is made and never touched again.
  class Hash<K(==), V> {
    var head: Link?<Entry<K, V>>
    var tail: Link?<Entry<K, V>>
    var length: nat
    ghost var links: seq<Link<Entry<K, V>>>

    ghost predicate Valid()
      reads this, links
    {
      Linked(links, head, tail)
    }

    ghost function Entries(): seq<Entry<K, V>>
      reads this, links
    {
      Items(links)
    }

    constructor ()
      ensures Valid() && Entries() == [] && links == [] && length == 0
    {
      head, tail, length, links := null, null, 0, [];
    }

    // rbs_hash_find.
    method Find(k: K) returns (link: Link?<Entry<K, V>>)
      requires Valid()
      ensures var i := HashFind(Entries(), k); link == if i < |links| then links[i] else null
    {
      link := head;
      ghost var i: nat := 0;
      while link != null
        invariant i <= |links| && link == (if i < |links| then links[i] else null)
        invariant forall j :: 0 <= j < i ==> Entries()[j].key != k
        decreases |links| - i
      {
        if k == link.item.key {
          FindIs(Entries(), k, i);
          return;
        }
        link, i := link.next, i + 1;
      }
      FindIs(Entries(), k, i);
    }

    // rbs_hash_set.
    method Set(k: K, v: V)
      requires Valid()
      modifies this, links
      ensures Valid() && Entries() == HashSet(old(Entries()), k, v) && length == old(length)
      ensures links == old(links) || exists l: Link<Entry<K, V>> :: fresh(l) && links == old(links) + [l]
    {
      var existing := Find(k);
      if existing != null {
        Replace(links, HashFind(Entries(), k), existing, Entry(existing.item.key, v));
      } else {
        Add(k, v);
      }
    }

    // The part of rbs_hash_set for a new key.
    method Add(k: K, v: V)
      requires Valid()
      modifies this, links
      ensures Valid() && Entries() == old(Entries()) + [Entry(k, v)] && length == old(length)
      ensures exists l: Link<Entry<K, V>> :: fresh(l) && links == old(links) + [l]
    {
      hide Linked, Items;
      EndsOfLinks(links, head, tail);
      var link := new Link(Entry(k, v));
      OneLink(link);
      if tail == null {
        head, tail := link, link;
        links := [link];
        assert old(links) + [link] == [link] && Items(old(links)) + [link.item] == [link.item];
      } else {
        Attach(links, tail, link);
        tail := link;
        links := links + [link];
      }
    }

    // rbs_hash_get.
    method Get(k: K) returns (v: Option<V>)
      requires Valid()
      ensures v == HashGet(Entries(), k)
    {
      var link := Find(k);
      v := if link == null then None else Some(link.item.value);
    }
  }
}
