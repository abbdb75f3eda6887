// Runs of table operations, and the simple structure they refine: a map from
// key to element, the live keys in order of insertion, and the key under the
// cursor. The linked table performs these runs.
module TableRuns {
  import opened KeyHashTable
  import opened TableView
  import opened Types

  datatype Op<K, E> =
    | Insert(key: K, elem: E)
    | Remove(key: K)
    | Seek(key: K)
    | First
    | Last
    | Forward
    | Backward
    | RemoveCurrent
    | Reset

  // The operations of KeyHashTable on its list-and-cursor value; a key for which
  // the index function leaves the bucket array is refused.
  function Step<K(==), E>(v: View<K, E>, op: Op<K, E>, indexed: K -> bool): View<K, E>
    requires v.cur.At? ==> v.cur.pos < |v.order|
  {
    match op
    case Insert(k, e) => if !indexed(k) || HasKey(v.order, k) then v else Add(v, k, e)
    case Remove(k) => if !indexed(k) then v else DeleteCurrent(Goto(v, k))
    case Seek(k) => if !indexed(k) then v else Goto(v, k)
    case First => v.(cur := CursorAt(0, |v.order|))
    case Last => v.(cur := if v.order == [] then End else At(|v.order| - 1))
    case Forward => Next(v)
    case Backward => Previous(v)
    case RemoveCurrent => DeleteCurrent(v)
    case Reset => Cleared(v)
  }

  // ---- The simple structure ----

  datatype KeyCursor<K> = Unset | Off | On(key: K)

  datatype Simple<K, E> = Simple(elems: map<K, E>, keys: seq<K>, cur: KeyCursor<K>)

  function Without<K(==)>(keys: seq<K>, k: K): seq<K> {
    if keys == [] then [] else Without(keys[..|keys| - 1], k) + if keys[|keys| - 1] == k then [] else [keys[|keys| - 1]]
  }

  // The neighbours of a key in the insertion order.
  function After<K(==)>(keys: seq<K>, k: K): KeyCursor<K> {
    if |keys| < 2 then Off
    else if keys[0] == k then On(keys[1])
    else After(keys[1..], k)
  }

  function Before<K(==)>(keys: seq<K>, k: K): KeyCursor<K> {
    if |keys| < 2 then Off
    else if keys[1] == k then On(keys[0])
    else Before(keys[1..], k)
  }

  function Drop<K(==), E>(s: Simple<K, E>): Simple<K, E> {
    if s.cur.On? then Simple(s.elems - {s.cur.key}, Without(s.keys, s.cur.key), After(s.keys, s.cur.key)) else s
  }

  function Point<K(==), E>(s: Simple<K, E>, k: K): Simple<K, E> {
    s.(cur := if k in s.elems then On(k) else Off)
  }

  function SimpleStep<K(==), E>(s: Simple<K, E>, op: Op<K, E>, indexed: K -> bool): Simple<K, E> {
    match op
    case Insert(k, e) => if !indexed(k) || k in s.elems then s else s.(elems := s.elems[k := e], keys := s.keys + [k])
    case Remove(k) => if !indexed(k) then s else Drop(Point(s, k))
    case Seek(k) => if !indexed(k) then s else Point(s, k)
    case First => s.(cur := if s.keys == [] then Off else On(s.keys[0]))
    case Last => s.(cur := if s.keys == [] then Off else On(s.keys[|s.keys| - 1]))
    case Forward => if s.cur.On? then s.(cur := After(s.keys, s.cur.key)) else s
    case Backward => if s.cur.On? then s.(cur := Before(s.keys, s.cur.key)) else s
    case RemoveCurrent => Drop(s)
    case Reset => Simple(map[], [], if s.cur.On? then Unset else s.cur)
  }

  // ---- What a table value stands for ----

  function Keys<K, E>(s: seq<(K, E)>): (r: seq<K>)
    ensures |r| == |s| && forall i :: 0 <= i < |s| ==> r[i] == s[i].0
  {
    seq(|s|, i requires 0 <= i < |s| => s[i].0)
  }

  function Elems<K(==), E>(s: seq<(K, E)>): map<K, E> {
    if s == [] then map[] else Elems(s[..|s| - 1])[s[|s| - 1].0 := s[|s| - 1].1]
  }

  function Meaning<K(==), E>(v: View<K, E>): Simple<K, E>
    requires v.cur.At? ==> v.cur.pos < |v.order|
  {
    Simple(Elems(v.order), Keys(v.order),
           match v.cur case Dangling => Unset case End => Off case At(i) => On(v.order[i].0))
  }

  lemma {:induction false} ElemsAt<K, E>(s: seq<(K, E)>, k: K)
    requires UniqueKeys(s)
    ensures k in Elems(s) <==> HasKey(s, k)
    ensures HasKey(s, k) ==> Elems(s)[k] == s[Find(s, k)].1
  {
    if s != [] {
      var n := |s| - 1;
      ElemsAt(s[..n], k);
      FindPrefix(s, n, k);
    }
  }

  lemma FindPrefix<K, E>(s: seq<(K, E)>, n: nat, k: K)
    requires n < |s| && UniqueKeys(s)
    ensures Find(s[..n], k) < n ==> Find(s, k) == Find(s[..n], k)
    ensures s[n].0 == k ==> Find(s, k) == n && Find(s[..n], k) == n
    ensures Find(s, k) < n ==> Find(s[..n], k) == Find(s, k)
  {
    var i, j := Find(s[..n], k), Find(s, k);
    if j < n {
      assert s[..n][j].0 == k;
    }
    if i < n {
      assert s[..n][i] == s[i] && s[i].0 == k;
    }
  }

  lemma {:induction false} WithoutAbsent<K>(keys: seq<K>, k: K)
    requires k !in keys
    ensures Without(keys, k) == keys
  {
    if keys != [] {
      WithoutAbsent(keys[..|keys| - 1], k);
    }
  }

  lemma {:induction false} WithoutAt<K>(keys: seq<K>, i: nat)
    requires i < |keys| && forall a, b :: 0 <= a < b < |keys| ==> keys[a] != keys[b]
    ensures Without(keys, keys[i]) == RemoveAt(keys, i)
  {
    var n := |keys| - 1;
    if i == n {
      WithoutAbsent(keys[..n], keys[i]);
    } else {
      WithoutAt(keys[..n], i);
      assert RemoveAt(keys, i) == RemoveAt(keys[..n], i) + [keys[n]];
    }
  }

  lemma {:induction false} AfterAt<K>(keys: seq<K>, i: nat)
    requires i < |keys| && forall a, b :: 0 <= a < b < |keys| ==> keys[a] != keys[b]
    ensures After(keys, keys[i]) == if i + 1 < |keys| then On(keys[i + 1]) else Off
  {
    if |keys| >= 2 && i > 0 {
      AfterAt(keys[1..], i - 1);
    }
  }

  lemma {:induction false} BeforeAt<K>(keys: seq<K>, i: nat)
    requires i < |keys| && forall a, b :: 0 <= a < b < |keys| ==> keys[a] != keys[b]
    ensures Before(keys, keys[i]) == if i > 0 then On(keys[i - 1]) else Off
  {
    if |keys| >= 2 {
      if i == 0 {
        BeforeAbsent(keys[1..], keys[0]);
      } else if i > 1 {
        BeforeAt(keys[1..], i - 1);
      }
    }
  }

  lemma {:induction false} BeforeAbsent<K>(keys: seq<K>, k: K)
    requires k !in keys
    ensures Before(keys, k) == Off
  {
    if |keys| >= 2 {
      BeforeAbsent(keys[1..], k);
    }
  }

  lemma FindSelf<K, E>(s: seq<(K, E)>, i: nat)
    requires UniqueKeys(s) && i < |s|
    ensures Find(s, s[i].0) == i
  {
    var j := Find(s, s[i].0);
  }

  // r is s without its element i.
  ghost predicate Skips<T>(s: seq<T>, r: seq<T>, i: nat) {
    |r| == |s| - 1 && i < |s| && forall h {:trigger r[h]} :: 0 <= h < |r| ==> r[h] == s[if h < i then h else h + 1]
  }

  lemma RemoveSkips<K, E>(s: seq<(K, E)>, i: nat)
    requires UniqueKeys(s) && i < |s|
    ensures Skips(s, RemoveAt(s, i), i) && UniqueKeys(RemoveAt(s, i))
  {
  }

  lemma FindRemoved<K, E>(s: seq<(K, E)>, r: seq<(K, E)>, i: nat, k: K)
    requires UniqueKeys(s) && UniqueKeys(r) && Skips(s, r, i)
    ensures var j := Find(s, k); Find(r, k) == if j < i then j else if i < j < |s| then j - 1 else |r|
  {
    var j := Find(s, k);
    if j < |s| && j != i {
      FindSelf(r, if j < i then j else j - 1);
    }
  }

  lemma KeptKey<K, E>(s: seq<(K, E)>, r: seq<(K, E)>, i: nat, k: K)
    requires UniqueKeys(s) && UniqueKeys(r) && Skips(s, r, i)
    ensures HasKey(r, k) <==> HasKey(s, k) && k != s[i].0
    ensures HasKey(r, k) ==> r[Find(r, k)].1 == s[Find(s, k)].1
  {
    FindRemoved(s, r, i, k);
    FindSelf(s, i);
  }

  // A key other than the removed one keeps its element.
  lemma ElemRemoved<K, E>(s: seq<(K, E)>, r: seq<(K, E)>, i: nat, k: K)
    requires UniqueKeys(s) && UniqueKeys(r) && Skips(s, r, i)
    ensures Differs(Elems(r), Elems(s), s[i].0, k)
  {
    KeptKey(s, r, i, k);
    ElemsAt(s, k);
    ElemsAt(r, k);
  }

  lemma ElemsRemove<K, E>(s: seq<(K, E)>, r: seq<(K, E)>, i: nat)
    requires UniqueKeys(s) && UniqueKeys(r) && Skips(s, r, i)
    ensures Elems(r) == Elems(s) - {s[i].0}
  {
    forall k ensures Differs(Elems(r), Elems(s), s[i].0, k) {
      ElemRemoved(s, r, i, k);
    }
    MapMinus(Elems(r), Elems(s), s[i].0);
  }

  // At key k, the map a is the map b without x.
  ghost predicate Differs<K, E>(a: map<K, E>, b: map<K, E>, x: K, k: K) {
    (k in a <==> k in b && k != x) && (k in a ==> a[k] == b[k])
  }

  lemma MapMinus<K, E>(a: map<K, E>, b: map<K, E>, x: K)
    requires forall k :: Differs(a, b, x, k)
    ensures a == b - {x}
  {
    forall k ensures (k in a <==> k in b - {x}) && (k in a ==> a[k] == (b - {x})[k]) {
      assert Differs(a, b, x, k);
    }
  }

  lemma DeleteRefines<K, E>(v: View<K, E>)
    requires Wf(v)
    ensures Wf(DeleteCurrent(v)) && Meaning(DeleteCurrent(v)) == Drop(Meaning(v))
  {
    if v.cur.At? {
      RemoveRefines(v.order, v.cur.pos);
    }
  }

  lemma RemoveRefines<K, E>(s: seq<(K, E)>, i: nat)
    requires UniqueKeys(s) && i < |s|
    ensures var r := RemoveAt(s, i);
            && UniqueKeys(r) && Elems(r) == Elems(s) - {s[i].0} && Keys(r) == Without(Keys(s), s[i].0)
            && After(Keys(s), s[i].0) == if i < |r| then On(r[i].0) else Off
  {
    RemoveSkips(s, i);
    ElemsRemove(s, RemoveAt(s, i), i);
    WithoutAt(Keys(s), i);
    AfterAt(Keys(s), i);
    assert Keys(RemoveAt(s, i)) == RemoveAt(Keys(s), i);
  }

  lemma MoveRefines<K, E>(v: View<K, E>)
    requires Wf(v) && v.cur.At?
    ensures Meaning(Next(v)).cur == After(Keys(v.order), v.order[v.cur.pos].0)
    ensures Meaning(Previous(v)).cur == Before(Keys(v.order), v.order[v.cur.pos].0)
  {
    AfterAt(Keys(v.order), v.cur.pos);
    BeforeAt(Keys(v.order), v.cur.pos);
  }

  lemma GotoRefines<K, E>(v: View<K, E>, k: K)
    requires Wf(v)
    ensures Wf(Goto(v, k)) && Meaning(Goto(v, k)) == Point(Meaning(v), k)
  {
    ElemsAt(v.order, k);
  }

  lemma AddRefines<K, E>(v: View<K, E>, k: K, e: E)
    requires Wf(v) && !HasKey(v.order, k)
    ensures Wf(Add(v, k, e))
    ensures Meaning(Add(v, k, e)) == Meaning(v).(elems := Meaning(v).elems[k := e], keys := Meaning(v).keys + [k])
  {
    assert Add(v, k, e).order[..|v.order|] == v.order;
    assert Keys(Add(v, k, e).order) == Keys(v.order) + [k];
  }

  lemma InsertRefines<K, E>(v: View<K, E>, k: K, e: E)
    requires Wf(v)
    ensures HasKey(v.order, k) <==> k in Meaning(v).elems
    ensures !HasKey(v.order, k) ==> Wf(Add(v, k, e))
    ensures !HasKey(v.order, k) ==>
              Meaning(Add(v, k, e)) == Meaning(v).(elems := Meaning(v).elems[k := e], keys := Meaning(v).keys + [k])
  {
    ElemsAt(v.order, k);
    if !HasKey(v.order, k) {
      AddRefines(v, k, e);
    }
  }

  // The operations that move the cursor along the list.
  lemma WalkRefines<K, E>(v: View<K, E>, op: Op<K, E>, indexed: K -> bool)
    requires Wf(v) && (op.First? || op.Last? || op.Forward? || op.Backward?)
    ensures Wf(Step(v, op, indexed))
    ensures Meaning(Step(v, op, indexed)) == SimpleStep(Meaning(v), op, indexed)
  {
    if v.cur.At? {
      MoveRefines(v);
    }
  }

  lemma RemovalRefines<K, E>(v: View<K, E>, op: Op<K, E>, indexed: K -> bool)
    requires Wf(v) && (op.Remove? || op.RemoveCurrent? || op.Reset?)
    ensures Wf(Step(v, op, indexed))
    ensures Meaning(Step(v, op, indexed)) == SimpleStep(Meaning(v), op, indexed)
  {
    match op {
      case Remove(k) =>
        GotoRefines(v, k);
        DeleteRefines(Goto(v, k));
      case RemoveCurrent => DeleteRefines(v);
      case Reset =>
    }
  }

  lemma StepRefines<K, E>(v: View<K, E>, op: Op<K, E>, indexed: K -> bool)
    requires Wf(v)
    ensures Wf(Step(v, op, indexed))
    ensures Meaning(Step(v, op, indexed)) == SimpleStep(Meaning(v), op, indexed)
  {
    match op {
      case Insert(k, e) => InsertRefines(v, k, e);
      case Seek(k) => GotoRefines(v, k);
      case First => WalkRefines(v, op, indexed);
      case Last => WalkRefines(v, op, indexed);
      case Forward => WalkRefines(v, op, indexed);
      case Backward => WalkRefines(v, op, indexed);
      case Remove(k) => RemovalRefines(v, op, indexed);
      case RemoveCurrent => RemovalRefines(v, op, indexed);
      case Reset => RemovalRefines(v, op, indexed);
    }
  }

  // ---- Runs from the empty table, whose cursor is not set ----

  function Run<K(==), E>(ops: seq<Op<K, E>>, indexed: K -> bool): (v: View<K, E>)
    ensures Wf(v)
  {
    if ops == [] then View([], Dangling)
    else
      var v := Run(ops[..|ops| - 1], indexed);
      StepRefines(v, ops[|ops| - 1], indexed);
      Step(v, ops[|ops| - 1], indexed)
  }

  function SimpleRun<K(==), E>(ops: seq<Op<K, E>>, indexed: K -> bool): Simple<K, E> {
    if ops == [] then Simple(map[], [], Unset)
    else SimpleStep(SimpleRun(ops[..|ops| - 1], indexed), ops[|ops| - 1], indexed)
  }

  // After any run the list holds exactly the live keys, once each and in order
  // of insertion, lookup agrees with the map, and the cursor is on the key it
  // should be on.
  lemma {:induction false} RunRefines<K, E>(ops: seq<Op<K, E>>, indexed: K -> bool, k: K)
    ensures var v, s := Run(ops, indexed), SimpleRun(ops, indexed);
            && Meaning(v) == s && UniqueKeys(v.order)
            && (k in s.elems <==> k in s.keys)
            && (HasKey(v.order, k) <==> k in s.elems)
            && (k in s.elems ==> v.order[Find(v.order, k)].1 == s.elems[k])
  {
    var v := Run(ops, indexed);
    if ops != [] {
      RunRefines(ops[..|ops| - 1], indexed, k);
      StepRefines(Run(ops[..|ops| - 1], indexed), ops[|ops| - 1], indexed);
    }
    ElemsAt(v.order, k);
    if HasKey(v.order, k) {
      assert Keys(v.order)[Find(v.order, k)] == k;
    } else {
      assert k !in Keys(v.order);
    }
  }

  // ---- When the cursor can be used ----

  // The operations that set the cursor, whatever it was before.
  predicate Sets<K, E>(op: Op<K, E>, indexed: K -> bool) {
    op.First? || op.Last? || (op.Seek? && indexed(op.key)) || (op.Remove? && indexed(op.key))
  }

  // After an operation the cursor cannot be used if and only if the operation
  // does not set it, and either it could not be used before, or it was on an
  // element and the table has been cleared.
  lemma StepDangles<K, E>(v: View<K, E>, op: Op<K, E>, indexed: K -> bool)
    requires Wf(v)
    ensures Step(v, op, indexed).cur.Dangling? <==>
              !Sets(op, indexed) && (v.cur.Dangling? || (op.Reset? && v.cur.At?))
  {
  }

  // No operation has set the cursor since the start, or since a clear that found
  // it on a key; told from the simple structure before that clear.
  predicate Unusable<K(==), E>(ops: seq<Op<K, E>>, indexed: K -> bool) {
    ops == [] ||
    var front, last := ops[..|ops| - 1], ops[|ops| - 1];
    !Sets(last, indexed) && (Unusable(front, indexed) || (last.Reset? && SimpleRun(front, indexed).cur.On?))
  }

  // Over any run of all operations, the cursor cannot be used if and only if it
  // was never set, or not set again after a clear found it on a key.
  lemma {:induction false} CursorSet<K, E>(ops: seq<Op<K, E>>, indexed: K -> bool)
    ensures Run(ops, indexed).cur.Dangling? <==> Unusable(ops, indexed)
    ensures Meaning(Run(ops, indexed)) == SimpleRun(ops, indexed)
  {
    if ops != [] {
      var front, last := ops[..|ops| - 1], ops[|ops| - 1];
      CursorSet(front, indexed);
      StepRefines(Run(front, indexed), last, indexed);
      StepDangles(Run(front, indexed), last, indexed);
    }
  }

  // Without an operation that sets it, the cursor stays as the constructor left
  // it.
  lemma {:induction false} NeverSet<K, E>(ops: seq<Op<K, E>>, indexed: K -> bool)
    requires forall i :: 0 <= i < |ops| ==> !Sets(ops[i], indexed)
    ensures Unusable(ops, indexed) && Run(ops, indexed).cur.Dangling?
  {
    if ops != [] {
      NeverSet(ops[..|ops| - 1], indexed);
    }
    CursorSet(ops, indexed);
  }

  // A run that leaves the cursor dangling although it has been set: an insert, a
  // search that finds the key, and a clear.
  lemma ClearLeavesDangling<K, E>(k: K, e: E, indexed: K -> bool)
    requires indexed(k)
    ensures Run([Insert(k, e), Seek(k)], indexed).cur == At(0)
    ensures Run([Insert(k, e), Seek(k), Reset], indexed).cur.Dangling?
  {
    var ops := [Insert(k, e), Seek(k), Reset];
    var none: seq<Op<K, E>> := [];
    assert ops[..2] == [Insert(k, e), Seek(k)] && ops[..2][..1] == [Insert(k, e)] && ops[..2][..1][..0] == none;
    assert Run(none, indexed) == View([], Dangling);
    assert Run(ops[..2][..1], indexed).order == [(k, e)];
  }

  // ---- The linked table performs the runs ----

  // The keys that the index function sends into the bucket array.
  function InRange<K>(indexOf: K -> nat, hashsize: nat): K -> bool {
    k => indexOf(k) < hashsize
  }

  // The operations that read the cursor.
  predicate Uses<K, E>(op: Op<K, E>) {
    op.Forward? || op.Backward? || op.RemoveCurrent?
  }

  method Perform<K(==), E>(t: KeyHashTable<K, E>, op: Op<K, E>)
    requires t.Valid() && (Uses(op) ==> !t.cursor.Dangling?)
    modifies t, t.table, t.nodes
    ensures t.Valid() && forall x: object :: x in t.nodes ==> x in old(t.nodes) || fresh(x)
    ensures t.View() == Step(old(t.View()), op, InRange(t.getIndex, t.table.Length))
  {
    match op {
      case Insert(k, e) => var _ := t.AddElement(k, e);
      case Remove(k) => var _ := t.DeleteElement(k);
      case Seek(k) => var _ := t.GotoElement(k);
      case First => t.GotoFirstElement();
      case Last => t.GotoLastElement();
      case Forward => t.GotoNextElement();
      case Backward => t.GotoPreviousElement();
      case RemoveCurrent => var _ := t.DeleteCurrentElement();
      case Reset => t.Clear();
    }
  }

  // The table, after these operations.
  ghost predicate Holds<K, E>(t: KeyHashTable<K, E>, ops: seq<Op<K, E>>)
    reads t, t.table, t.nodes
  {
    t.Valid() && t.View() == Run(ops, InRange(t.getIndex, t.table.Length))
  }

  method PerformNext<K(==), E>(t: KeyHashTable<K, E>, ghost ops: seq<Op<K, E>>, op: Op<K, E>)
    requires Holds(t, ops)
    requires Uses(op) ==> !Unusable(ops, InRange(t.getIndex, t.table.Length))
    modifies t, t.table, t.nodes
    ensures Holds(t, ops + [op]) && forall x: object :: x in t.nodes ==> x in old(t.nodes) || fresh(x)
  {
    CursorSet(ops, InRange(t.getIndex, t.table.Length));
    Perform(t, op);
    assert (ops + [op])[..|ops|] == ops;
  }

  // A new table, after any operations that use the cursor only when it can be
  // used, holds what the run says; RunRefines tells what that is.
  method PerformAll<K(==), E>(indexOf: K -> nat, hashsize: nat, ops: seq<Op<K, E>>) returns (t: KeyHashTable<K, E>)
    requires forall i :: 0 <= i < |ops| && Uses(ops[i]) ==> !Unusable(ops[..i], InRange(indexOf, hashsize))
    ensures Holds(t, ops) && t.getIndex == indexOf && t.table.Length == hashsize
    ensures fresh(t) && fresh(t.table) && fresh(t.nodes)
  {
    if ops == [] {
      t := new KeyHashTable(hashsize, indexOf);
    } else {
      var n := |ops| - 1;
      FrontAndLast(ops);
      t := PerformAll(indexOf, hashsize, ops[..n]);
      PerformNext(t, ops[..n], ops[n]);
    }
  }

  lemma FrontAndLast<T>(s: seq<T>)
    requires s != []
    ensures s[..|s| - 1] + [s[|s| - 1]] == s && forall i :: 0 <= i < |s| - 1 ==> s[..|s| - 1][..i] == s[..i]
  {
  }
}
