// The abstract value of the key hash table: an insertion-ordered list of
// key/element pairs together with the table's cursor.
module TableView {
  import opened Types

  // The cursor is indeterminate until one of the Goto operations has set it;
  // Clear leaves a cursor that pointed at an element dangling.
  datatype Cursor = Dangling | End | At(pos: nat)

  datatype Status =
    | Ok
    | NoCurrentElement
    | InvalidHashIndex
    | KeyNotFound
    | KeyAlreadyExists

  datatype View<K, E> = View(order: seq<(K, E)>, cur: Cursor)

  ghost predicate UniqueKeys<K, E>(s: seq<(K, E)>) {
    forall i, j :: 0 <= i < j < |s| ==> s[i].0 != s[j].0
  }

  ghost predicate Wf<K, E>(v: View<K, E>) {
    UniqueKeys(v.order) && (v.cur.At? ==> v.cur.pos < |v.order|)
  }

  // The position of a key, or the length of the list when it is absent.
  function Find<K(==), E>(s: seq<(K, E)>, k: K): (i: nat)
    ensures i <= |s|
    ensures i < |s| ==> s[i].0 == k
    ensures forall j :: 0 <= j < i ==> s[j].0 != k
  {
    if s == [] then 0
    else if s[0].0 == k then 0
    else
      var i := Find(s[1..], k);
      assert forall j :: 0 < j < i + 1 ==> s[j] == s[1..][j - 1];
      i + 1
  }

  predicate HasKey<K(==), E>(s: seq<(K, E)>, k: K) {
    Find(s, k) < |s|
  }

  function CursorAt(i: nat, n: nat): Cursor {
    if i < n then At(i) else End
  }

  function Goto<K(==), E>(v: View<K, E>, k: K): View<K, E> {
    v.(cur := CursorAt(Find(v.order, k), |v.order|))
  }

  function Next<K, E>(v: View<K, E>): View<K, E> {
    if v.cur.At? then v.(cur := CursorAt(v.cur.pos + 1, |v.order|)) else v
  }

  function Previous<K, E>(v: View<K, E>): View<K, E> {
    if v.cur.At? then v.(cur := if v.cur.pos == 0 then End else At(v.cur.pos - 1)) else v
  }

  // Deleting at the cursor leaves the cursor on the list successor.
  function DeleteCurrent<K, E>(v: View<K, E>): View<K, E>
    requires v.cur.At? ==> v.cur.pos < |v.order|
  {
    if v.cur.At? then View(RemoveAt(v.order, v.cur.pos), CursorAt(v.cur.pos, |v.order| - 1)) else v
  }

  function Add<K, E>(v: View<K, E>, k: K, e: E): View<K, E> {
    v.(order := v.order + [(k, e)])
  }

  function Cleared<K, E>(v: View<K, E>): View<K, E> {
    View([], if v.cur.At? then Dangling else v.cur)
  }
}
