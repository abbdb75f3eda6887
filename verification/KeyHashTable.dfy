// The intrusive hash table of rtpkeyhashtable.h: a bucket array whose chains
// are doubly linked, one doubly linked list over all elements in insertion
// order, and a cursor. Every operation is proved against TableView.
module KeyHashTable {
  import opened TableView
  import opened Types

  class HashElement<K, E> {
    const hashindex: nat
    const key: K
    const element: E
    var hashprev: HashElement?<K, E>
    var hashnext: HashElement?<K, E>
    var listprev: HashElement?<K, E>
    var listnext: HashElement?<K, E>

    constructor (k: K, e: E, index: nat)
      ensures key == k && element == e && hashindex == index
      ensures hashprev == null && hashnext == null && listprev == null && listnext == null
    {
      hashindex, key, element := index, k, e;
      hashprev, hashnext, listprev, listnext := null, null, null, null;
    }
  }

  ghost function NodeAt<K, E>(s: seq<HashElement<K, E>>, i: int): HashElement?<K, E> {
    if 0 <= i < |s| then s[i] else null
  }

  ghost predicate Distinct<K, E>(s: seq<HashElement<K, E>>) {
    forall i, j :: 0 <= i < j < |s| ==> s[i] != s[j]
  }

  ghost function Pairs<K, E>(s: seq<HashElement<K, E>>): (r: seq<(K, E)>)
    ensures |r| == |s| && forall i :: 0 <= i < |s| ==> r[i] == (s[i].key, s[i].element)
  {
    seq(|s|, i requires 0 <= i < |s| => (s[i].key, s[i].element))
  }

  // The elements of one bucket, oldest first. AddElement pushes at the head of
  // the chain, so the chain is this sequence read backwards.
  ghost function Bucket<K, E>(s: seq<HashElement<K, E>>, b: nat): seq<HashElement<K, E>> {
    if s == [] then []
    else Bucket(s[..|s| - 1], b) + if s[|s| - 1].hashindex == b then [s[|s| - 1]] else []
  }

  lemma {:induction false} BucketOf<K, E>(s: seq<HashElement<K, E>>, b: nat)
    ensures forall i :: 0 <= i < |Bucket(s, b)| ==> Bucket(s, b)[i] in s && Bucket(s, b)[i].hashindex == b
  {
    if s != [] {
      BucketOf(s[..|s| - 1], b);
      assert s == s[..|s| - 1] + [s[|s| - 1]];
    }
  }

  lemma {:induction false} BucketHas<K, E>(s: seq<HashElement<K, E>>, i: nat)
    requires i < |s|
    ensures s[i] in Bucket(s, s[i].hashindex)
  {
    if i < |s| - 1 {
      BucketHas(s[..|s| - 1], i);
    }
  }

  lemma {:induction false} BucketConcat<K, E>(s: seq<HashElement<K, E>>, t: seq<HashElement<K, E>>, b: nat)
    ensures Bucket(s + t, b) == Bucket(s, b) + Bucket(t, b)
  {
    if t == [] {
      assert s + t == s;
    } else {
      var n := |t| - 1;
      BucketConcat(s, t[..n], b);
      assert (s + t)[..|s + t| - 1] == s + t[..n];
    }
  }

  lemma BucketSingle<K, E>(x: HashElement<K, E>, b: nat)
    ensures Bucket([x], b) == if x.hashindex == b then [x] else []
  {
    assert Bucket([x][..0], b) == [];
  }

  lemma BucketAdd<K, E>(s: seq<HashElement<K, E>>, x: HashElement<K, E>, b: nat)
    ensures Bucket(s + [x], b) == if x.hashindex == b then Bucket(s, b) + [x] else Bucket(s, b)
  {
    BucketConcat(s, [x], b);
    BucketSingle(x, b);
  }

  lemma RemoveMiddle<T>(a: seq<T>, x: T, c: seq<T>, all: seq<T>)
    requires all == a + ([x] + c)
    ensures |a| < |all| && all[|a|] == x && RemoveAt(all, |a|) == a + c
  {
  }

  // Removing a list element removes it from its own bucket and from no other.
  lemma BucketRemove<K, E>(s: seq<HashElement<K, E>>, k: nat, b: nat)
    requires k < |s|
    ensures var r, j := Bucket(RemoveAt(s, k), b), |Bucket(s[..k], b)|;
            if s[k].hashindex != b then r == Bucket(s, b)
            else j < |Bucket(s, b)| && Bucket(s, b)[j] == s[k] && r == RemoveAt(Bucket(s, b), j)
  {
    assert s == s[..k] + ([s[k]] + s[k + 1..]);
    BucketConcat(s[..k], [s[k]] + s[k + 1..], b);
    BucketConcat([s[k]], s[k + 1..], b);
    BucketConcat(s[..k], s[k + 1..], b);
    BucketSingle(s[k], b);
    if s[k].hashindex == b {
      RemoveMiddle(Bucket(s[..k], b), s[k], Bucket(s[k + 1..], b), Bucket(s, b));
    }
  }

  lemma {:induction false} BucketDistinct<K, E>(s: seq<HashElement<K, E>>, b: nat)
    requires Distinct(s)
    ensures Distinct(Bucket(s, b))
  {
    if s != [] {
      BucketDistinct(s[..|s| - 1], b);
      BucketOf(s[..|s| - 1], b);
    }
  }

  // The prev and next links of both structures, position by position.
  ghost predicate ListLinked<K, E>(s: seq<HashElement<K, E>>)
    reads s`listprev, s`listnext
  {
    && (forall i {:trigger s[i].listprev} :: 0 <= i < |s| ==> s[i].listprev == NodeAt(s, i - 1))
    && (forall i {:trigger s[i].listnext} :: 0 <= i < |s| ==> s[i].listnext == NodeAt(s, i + 1))
  }

  ghost predicate ChainLinked<K, E>(head: HashElement?<K, E>, s: seq<HashElement<K, E>>)
    reads s`hashprev, s`hashnext
  {
    && head == NodeAt(s, |s| - 1)
    && (forall i {:trigger s[i].hashprev} :: 0 <= i < |s| ==> s[i].hashprev == NodeAt(s, i + 1))
    && (forall i {:trigger s[i].hashnext} :: 0 <= i < |s| ==> s[i].hashnext == NodeAt(s, i - 1))
  }

  ghost predicate BucketLinked<K, E>(table: array<HashElement?<K, E>>, nodes: seq<HashElement<K, E>>, b: nat)
    requires b < table.Length
    reads table, nodes`hashprev, nodes`hashnext
  {
    BucketOf(nodes, b);
    ChainLinked(table[b], Bucket(nodes, b))
  }

  ghost predicate BucketsLinked<K, E>(table: array<HashElement?<K, E>>, nodes: seq<HashElement<K, E>>)
    reads table, nodes`hashprev, nodes`hashnext
  {
    forall b :: 0 <= b < table.Length ==> BucketLinked(table, nodes, b)
  }

  // The list s with its two ends.
  ghost predicate ListWithEnds<K, E>(s: seq<HashElement<K, E>>, first: HashElement?<K, E>, last: HashElement?<K, E>)
    reads s`listprev, s`listnext
  {
    ListLinked(s) && first == NodeAt(s, 0) && last == NodeAt(s, |s| - 1)
  }

  ghost predicate Indexed<K, E>(nodes: seq<HashElement<K, E>>, f: K -> nat, n: nat) {
    && UniqueKeys(Pairs(nodes))
    && forall x :: x in nodes ==> x.hashindex == f(x.key) < n
  }

  lemma IndexedDistinct<K, E>(nodes: seq<HashElement<K, E>>, f: K -> nat, n: nat)
    requires Indexed(nodes, f, n)
    ensures Distinct(nodes)
  {
    forall i, j | 0 <= i < j < |nodes| ensures nodes[i] != nodes[j] {
      assert Pairs(nodes)[i].0 != Pairs(nodes)[j].0;
    }
  }

  lemma IndexedAdd<K, E>(nodes: seq<HashElement<K, E>>, f: K -> nat, n: nat, x: HashElement<K, E>)
    requires Indexed(nodes, f, n) && x.hashindex == f(x.key) < n
    requires Find(Pairs(nodes), x.key) == |nodes|
    ensures Indexed(nodes + [x], f, n) && Pairs(nodes + [x]) == Pairs(nodes) + [(x.key, x.element)]
  {
  }

  lemma IndexedRemove<K, E>(nodes: seq<HashElement<K, E>>, f: K -> nat, n: nat, k: nat)
    requires Indexed(nodes, f, n) && k < |nodes|
    ensures Indexed(RemoveAt(nodes, k), f, n)
    ensures Pairs(RemoveAt(nodes, k)) == RemoveAt(Pairs(nodes), k)
  {
  }

  // A key that is listed is found, at its one position, in the chain of its index.
  lemma FoundInBucket<K, E>(nodes: seq<HashElement<K, E>>, f: K -> nat, n: nat, k: K)
    requires Indexed(nodes, f, n) && Find(Pairs(nodes), k) < |nodes|
    ensures nodes[Find(Pairs(nodes), k)] in Bucket(nodes, f(k))
  {
    var i := Find(Pairs(nodes), k);
    assert Pairs(nodes)[i] == (nodes[i].key, nodes[i].element) && nodes[i] in nodes;
    BucketHas(nodes, i);
  }

  lemma FoundIsUnique<K, E>(nodes: seq<HashElement<K, E>>, f: K -> nat, n: nat, x: HashElement<K, E>)
    requires Indexed(nodes, f, n) && x in nodes
    ensures NodeAt(nodes, Find(Pairs(nodes), x.key)) == x
  {
    var j :| 0 <= j < |nodes| && nodes[j] == x;
    assert Pairs(nodes)[j].0 == x.key;
  }

  class KeyHashTable<K(==), E> {
    const getIndex: K -> nat
    const table: array<HashElement?<K, E>>
    var firsthashelem: HashElement?<K, E>
    var lasthashelem: HashElement?<K, E>
    var curhashelem: HashElement?<K, E>

    ghost var nodes: seq<HashElement<K, E>>  // the list, in insertion order
    ghost var cursor: Cursor

    ghost function View(): View<K, E>
      reads this`nodes, this`cursor
    {
      TableView.View(Pairs(nodes), cursor)
    }

    ghost predicate CursorOk()
      reads this`nodes, this`cursor, this`curhashelem
    {
      && (cursor.End? ==> curhashelem == null)
      && (cursor.At? ==> cursor.pos < |nodes| && curhashelem == nodes[cursor.pos])
    }

    ghost predicate ListOk()
      reads this`nodes, this`firsthashelem, this`lasthashelem, nodes`listprev, nodes`listnext
    {
      ListWithEnds(nodes, firsthashelem, lasthashelem)
    }

    ghost predicate Valid()
      reads this, table, nodes
    {
      Indexed(nodes, getIndex, table.Length) && ListOk() && BucketsLinked(table, nodes) && CursorOk()
    }

    constructor (hashsize: nat, indexOf: K -> nat)
      ensures Valid() && fresh(table) && nodes == [] && View() == TableView.View([], Dangling)
      ensures getIndex == indexOf && table.Length == hashsize
    {
      getIndex := indexOf;
      table := new HashElement?<K, E>[hashsize](i => null);
      firsthashelem, lasthashelem := null, null;
      nodes, cursor := [], Dangling;
    }

    method GotoFirstElement()
      requires Valid()
      modifies this`curhashelem, this`cursor
      ensures Valid() && View() == old(View()).(cur := CursorAt(0, |old(View()).order|))
    {
      curhashelem := firsthashelem;
      cursor := CursorAt(0, |nodes|);
    }

    method GotoLastElement()
      requires Valid()
      modifies this`curhashelem, this`cursor
      ensures Valid()
      ensures View() == old(View()).(cur := if nodes == [] then End else At(|nodes| - 1))
    {
      curhashelem := lasthashelem;
      cursor := if nodes == [] then End else At(|nodes| - 1);
    }

    method HasCurrentElement() returns (has: bool)
      requires Valid() && !cursor.Dangling?
      ensures has == View().cur.At?
    {
      has := curhashelem != null;
    }

    method GetCurrentElement() returns (e: E)
      requires Valid() && cursor.At?
      ensures e == View().order[cursor.pos].1
    {
      e := curhashelem.element;
    }

    method GetCurrentKey() returns (k: K)
      requires Valid() && cursor.At?
      ensures k == View().order[cursor.pos].0
    {
      k := curhashelem.key;
    }

    method GotoNextElement()
      requires Valid() && !cursor.Dangling?
      modifies this`curhashelem, this`cursor
      ensures Valid() && View() == Next(old(View()))
    {
      if curhashelem != null {
        curhashelem := curhashelem.listnext;
        cursor := CursorAt(cursor.pos + 1, |nodes|);
      }
    }

    method GotoPreviousElement()
      requires Valid() && !cursor.Dangling?
      modifies this`curhashelem, this`cursor
      ensures Valid() && View() == Previous(old(View()))
    {
      if curhashelem != null {
        curhashelem := curhashelem.listprev;
        cursor := if cursor.pos == 0 then End else At(cursor.pos - 1);
      }
    }

    // The chain walk shared by GotoElement, HasElement and AddElement.
    method FindNode(k: K) returns (e: HashElement?<K, E>)
      requires Valid() && getIndex(k) < table.Length
      ensures e == NodeAt(nodes, Find(View().order, k))
    {
      var index := getIndex(k);
      e := table[index];
      assert BucketLinked(table, nodes, index);
      ghost var chain := Bucket(nodes, index);
      ghost var j := |chain| - 1;
      var found := false;
      while !found && e != null
        invariant -1 <= j < |chain| && e == NodeAt(chain, j)
        invariant found ==> e != null && e.key == k
        invariant !found ==> forall i :: j < i < |chain| ==> chain[i].key != k
        decreases j + 1, !found
      {
        if e.key == k {
          found := true;
        } else {
          e := e.hashnext;
          j := j - 1;
        }
      }
      if found {
        BucketOf(nodes, index);
        FoundIsUnique(nodes, getIndex, table.Length, e);
      } else if Find(View().order, k) < |nodes| {
        FoundInBucket(nodes, getIndex, table.Length, k);
      }
    }

    method MoveTo(e: HashElement?<K, E>, ghost i: nat)
      requires Valid() && i <= |nodes| && e == NodeAt(nodes, i)
      modifies this`curhashelem, this`cursor
      ensures Valid() && View() == old(View()).(cur := CursorAt(i, |old(View()).order|))
    {
      curhashelem := e;
      cursor := CursorAt(i, |nodes|);
    }

    method GotoElement(k: K) returns (status: Status)
      requires Valid()
      modifies this`curhashelem, this`cursor
      ensures Valid()
      ensures getIndex(k) >= table.Length ==> status == InvalidHashIndex && View() == old(View())
      ensures getIndex(k) < table.Length ==>
                && View() == Goto(old(View()), k)
                && status == if HasKey(old(View()).order, k) then Ok else KeyNotFound
    {
      var index := getIndex(k);
      if index >= table.Length {
        return InvalidHashIndex;
      }
      var e := FindNode(k);
      MoveTo(e, Find(View().order, k));
      status := if e == null then KeyNotFound else Ok;
    }

    method HasElement(k: K) returns (found: bool)
      requires Valid()
      ensures found == (getIndex(k) < table.Length && HasKey(View().order, k))
    {
      var index := getIndex(k);
      if index >= table.Length {
        return false;
      }
      var e := FindNode(k);
      found := e != null;
    }

    // First half of AddElement: push the new element at the head of its chain.
    method PushChain(newelem: HashElement<K, E>, index: nat, ghost chain: seq<HashElement<K, E>>)
      requires index < table.Length && ChainLinked(table[index], chain) && Distinct(chain)
      requires newelem !in chain && newelem.hashprev == null
      modifies table, newelem`hashnext, chain`hashprev
      ensures ChainLinked(table[index], chain + [newelem])
      ensures forall b :: 0 <= b < table.Length && b != index ==> table[b] == old(table[b])
    {
      var e := table[index];
      table[index] := newelem;
      newelem.hashnext := e;
      if e != null {
        e.hashprev := newelem;
      }
    }

    // The chains of the other buckets.
    ghost predicate OthersLinked(index: nat)
      reads this`nodes, table, nodes`hashprev, nodes`hashnext
    {
      forall b :: 0 <= b < table.Length && b != index ==> BucketLinked(table, nodes, b)
    }

    method PushNode(newelem: HashElement<K, E>)
      requires BucketsLinked(table, nodes) && Distinct(nodes)
      requires newelem !in nodes && newelem.hashindex < table.Length && newelem.hashprev == null
      modifies table, newelem`hashnext, nodes`hashprev
      ensures ChainLinked(table[newelem.hashindex], Bucket(nodes, newelem.hashindex) + [newelem])
      ensures OthersLinked(newelem.hashindex)
    {
      ghost var index := newelem.hashindex;
      assert BucketLinked(table, nodes, index);
      BucketDistinct(nodes, index);
      BucketOf(nodes, index);
      PushChain(newelem, newelem.hashindex, Bucket(nodes, index));
      forall b | 0 <= b < table.Length && b != index ensures BucketLinked(table, nodes, b) {
        assert old(BucketLinked(table, nodes, b));
        BucketOf(nodes, b);
      }
    }

    method LinkHash(newelem: HashElement<K, E>)
      requires BucketsLinked(table, nodes) && Distinct(nodes)
      requires newelem !in nodes && newelem.hashindex < table.Length && newelem.hashprev == null
      modifies table, newelem`hashnext, nodes`hashprev
      ensures BucketsLinked(table, nodes + [newelem])
    {
      PushNode(newelem);
      forall b | 0 <= b < table.Length ensures BucketLinked(table, nodes + [newelem], b) {
        BucketAdd(nodes, newelem, b);
        assert b != newelem.hashindex ==> BucketLinked(table, nodes, b);
      }
    }

    // Second half of AddElement: append to the insertion-order list.
    method LinkList(newelem: HashElement<K, E>)
      requires ListOk() && Distinct(nodes)
      requires newelem !in nodes && newelem.listprev == null && newelem.listnext == null
      modifies this`firsthashelem, this`lasthashelem, newelem`listprev, nodes`listnext
      ensures ListWithEnds(nodes + [newelem], firsthashelem, lasthashelem)
    {
      if firsthashelem == null {
        firsthashelem := newelem;
        lasthashelem := newelem;
      } else {
        lasthashelem.listnext := newelem;
        newelem.listprev := lasthashelem;
        lasthashelem := newelem;
      }
    }

    method AddElement(k: K, elem: E) returns (status: Status)
      requires Valid()
      modifies this, table, nodes
      ensures Valid() && forall x :: x in nodes ==> x in old(nodes) || fresh(x)
      ensures getIndex(k) >= table.Length ==> status == InvalidHashIndex && View() == old(View())
      ensures getIndex(k) < table.Length ==>
                if HasKey(old(View()).order, k) then
                  status == KeyAlreadyExists && View() == old(View())
                else
                  status == Ok && View() == Add(old(View()), k, elem)
    {
      var index := getIndex(k);
      if index >= table.Length {
        return InvalidHashIndex;
      }
      var e := FindNode(k);
      if e != null {
        return KeyAlreadyExists;
      }
      var newelem := new HashElement(k, elem, index);
      Link(newelem);
      return Ok;
    }

    method LinkBoth(newelem: HashElement<K, E>)
      requires ListOk() && BucketsLinked(table, nodes) && Distinct(nodes)
      requires newelem !in nodes && newelem.hashindex < table.Length
      requires newelem.hashprev == null && newelem.listprev == null && newelem.listnext == null
      modifies this`firsthashelem, this`lasthashelem, table, nodes, newelem`listprev, newelem`hashnext
      ensures BucketsLinked(table, nodes + [newelem]) && ListWithEnds(nodes + [newelem], firsthashelem, lasthashelem)
    {
      LinkHash(newelem);
      LinkList(newelem);
    }

    // The list becomes s, which the links already follow, and the cursor moves.
    method Settle(ghost s: seq<HashElement<K, E>>, cur: HashElement?<K, E>, ghost c: Cursor)
      requires Indexed(s, getIndex, table.Length) && BucketsLinked(table, s)
      requires ListWithEnds(s, firsthashelem, lasthashelem)
      requires (c.End? ==> cur == null) && (c.At? ==> c.pos < |s| && cur == s[c.pos])
      modifies this`nodes, this`curhashelem, this`cursor
      ensures Valid() && nodes == s && cursor == c && curhashelem == cur
    {
      curhashelem := cur;
      nodes, cursor := s, c;
    }

    method Link(newelem: HashElement<K, E>)
      requires Valid() && newelem.hashindex == getIndex(newelem.key) < table.Length
      requires newelem !in nodes && !HasKey(View().order, newelem.key)
      requires newelem.hashprev == null && newelem.listprev == null && newelem.listnext == null
      modifies this, table, nodes, newelem`listprev, newelem`hashnext
      ensures Valid() && nodes == old(nodes) + [newelem]
      ensures View() == Add(old(View()), newelem.key, newelem.element)
    {
      IndexedDistinct(nodes, getIndex, table.Length);
      IndexedAdd(nodes, getIndex, table.Length, newelem);
      LinkBoth(newelem);
      Settle(nodes + [newelem], curhashelem, cursor);
    }

    // First half of DeleteCurrentElement: relink the element's chain around it.
    method UnlinkChain(x: HashElement<K, E>, ghost chain: seq<HashElement<K, E>>, ghost j: nat)
      requires x.hashindex < table.Length && ChainLinked(table[x.hashindex], chain) && Distinct(chain)
      requires j < |chain| && chain[j] == x
      modifies table, chain`hashprev, chain`hashnext
      ensures ChainLinked(table[x.hashindex], RemoveAt(chain, j))
      ensures forall b :: 0 <= b < table.Length && b != x.hashindex ==> table[b] == old(table[b])
    {
      var tmp1, tmp2 := x.hashprev, x.hashnext;
      if tmp1 == null {
        table[x.hashindex] := tmp2;
        if tmp2 != null {
          tmp2.hashprev := null;
        }
      } else {
        tmp1.hashnext := tmp2;
        if tmp2 != null {
          tmp2.hashprev := tmp1;
        }
      }
    }

    method UnlinkNode(x: HashElement<K, E>, ghost k: nat)
      requires BucketsLinked(table, nodes) && Distinct(nodes) && k < |nodes| && x == nodes[k]
      requires x.hashindex < table.Length
      modifies table, nodes`hashprev, nodes`hashnext
      ensures ChainLinked(table[x.hashindex], Bucket(RemoveAt(nodes, k), x.hashindex)) && OthersLinked(x.hashindex)
    {
      ghost var index := x.hashindex;
      assert BucketLinked(table, nodes, index);
      BucketDistinct(nodes, index);
      BucketOf(nodes, index);
      BucketRemove(nodes, k, index);
      UnlinkChain(x, Bucket(nodes, index), |Bucket(nodes[..k], index)|);
      forall b | 0 <= b < table.Length && b != index ensures BucketLinked(table, nodes, b) {
        assert old(BucketLinked(table, nodes, b));
        BucketOf(nodes, b);
      }
    }

    method UnlinkHash(x: HashElement<K, E>, ghost k: nat)
      requires ListOk() && BucketsLinked(table, nodes) && Distinct(nodes) && k < |nodes| && x == nodes[k]
               && x.hashindex < table.Length
      modifies table, nodes`hashprev, nodes`hashnext
      ensures ListOk() && BucketsLinked(table, RemoveAt(nodes, k))
    {
      UnlinkNode(x, k);
      forall b | 0 <= b < table.Length ensures BucketLinked(table, RemoveAt(nodes, k), b) {
        BucketRemove(nodes, k, b);
        assert b != x.hashindex ==> BucketLinked(table, nodes, b);
      }
    }

    // Second half of DeleteCurrentElement: relink the list around the cursor.
    method UnlinkList(x: HashElement<K, E>, ghost k: nat) returns (next: HashElement?<K, E>)
      requires ListOk() && Distinct(nodes) && k < |nodes| && x == nodes[k]
      modifies this`firsthashelem, this`lasthashelem, nodes`listprev, nodes`listnext
      ensures ListWithEnds(RemoveAt(nodes, k), firsthashelem, lasthashelem)
      ensures next == NodeAt(RemoveAt(nodes, k), k)
    {
      ghost var r := RemoveAt(nodes, k);
      assert forall i :: 0 <= i < k ==> r[i] == nodes[i];
      assert forall i :: k <= i < |r| ==> r[i] == nodes[i + 1];
      var tmp1, tmp2 := x.listprev, x.listnext;
      if tmp1 == null {
        firsthashelem := tmp2;
        SetPrevious(tmp2, null);
      } else {
        tmp1.listnext := tmp2;
        SetPrevious(tmp2, tmp1);
      }
      next := tmp2;
    }

    // Without a successor, the predecessor becomes the last element.
    method SetPrevious(tmp2: HashElement?<K, E>, tmp1: HashElement?<K, E>)
      modifies this`lasthashelem, (if tmp2 == null then {} else {tmp2})`listprev
      ensures if tmp2 == null then lasthashelem == tmp1
              else lasthashelem == old(lasthashelem) && tmp2.listprev == tmp1
    {
      if tmp2 != null {
        tmp2.listprev := tmp1;
      } else {
        lasthashelem := tmp1;
      }
    }

    method UnlinkBoth(x: HashElement<K, E>, ghost k: nat) returns (next: HashElement?<K, E>)
      requires ListOk() && BucketsLinked(table, nodes) && Distinct(nodes)
      requires k < |nodes| && x == nodes[k] && x.hashindex < table.Length
      modifies this`firsthashelem, this`lasthashelem, table, nodes
      ensures BucketsLinked(table, RemoveAt(nodes, k)) && ListWithEnds(RemoveAt(nodes, k), firsthashelem, lasthashelem)
      ensures next == NodeAt(RemoveAt(nodes, k), k)
    {
      UnlinkHash(x, k);
      next := UnlinkList(x, k);
    }

    // The cursor is left on the list successor.
    method Unlink(x: HashElement<K, E>, ghost k: nat)
      requires Valid() && k < |nodes| && x == nodes[k]
      modifies this, table, nodes
      ensures Valid() && nodes == RemoveAt(old(nodes), k)
      ensures View() == TableView.View(RemoveAt(old(View()).order, k), CursorAt(k, |old(nodes)| - 1))
    {
      IndexedDistinct(nodes, getIndex, table.Length);
      IndexedRemove(nodes, getIndex, table.Length, k);
      var next := UnlinkBoth(x, k);
      Settle(RemoveAt(nodes, k), next, CursorAt(k, |nodes| - 1));
    }

    method DeleteCurrentElement() returns (status: Status)
      requires Valid() && !cursor.Dangling?
      modifies this, table, nodes
      ensures Valid() && forall x :: x in nodes ==> x in old(nodes)
      ensures View() == DeleteCurrent(old(View()))
      ensures status == if old(cursor).At? then Ok else NoCurrentElement
    {
      if curhashelem == null {
        return NoCurrentElement;
      }
      Unlink(curhashelem, cursor.pos);
      return Ok;
    }

    method DeleteElement(k: K) returns (status: Status)
      requires Valid()
      modifies this, table, nodes
      ensures Valid() && forall x :: x in nodes ==> x in old(nodes)
      ensures getIndex(k) >= table.Length ==> status == InvalidHashIndex && View() == old(View())
      ensures getIndex(k) < table.Length ==>
                && View() == DeleteCurrent(Goto(old(View()), k))
                && status == if HasKey(old(View()).order, k) then Ok else KeyNotFound
    {
      status := GotoElement(k);
      if status != Ok {
        return;
      }
      status := DeleteCurrentElement();
    }

    method Clear()
      requires Valid()
      modifies table, this`firsthashelem, this`lasthashelem, this`nodes, this`cursor
      ensures Valid() && nodes == [] && View() == Cleared(old(View()))
    {
      for i := 0 to table.Length
        invariant forall b :: 0 <= b < i ==> table[b] == null
        modifies table
      {
        table[i] := null;
      }
      // The nodes are walked through listnext and freed.
      var tmp1 := firsthashelem;
      ghost var j := 0;
      while tmp1 != null
        invariant j <= |nodes| && tmp1 == NodeAt(nodes, j)
        decreases |nodes| - j
        modifies {}
      {
        tmp1 := tmp1.listnext;
        j := j + 1;
      }
      firsthashelem, lasthashelem := null, null;
      nodes := [];
      cursor := if cursor.At? then Dangling else cursor;
    }
  }
}
