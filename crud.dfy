/** The keyed-collection discipline shared by the three resources. A record
    type `T` is given by its id accessor `key` and by `stamp`, the spread
    `{ ...x, id: n }` that gives a record a new id. The mock store's
    operations (`create*`, `update*`, `delete*`) and the admin screens' local
    merges (append, map-replace by id, filter by id) are defined here once,
    over sequences, and proved about. */
module Crud {
  import opened Util

  /** `stamp` sets the id: reading the id back gives the id just written. */
  ghost predicate StampLaw<T(!new)>(key: T -> int, stamp: (T, int) -> T) {
    forall x, n :: key(stamp(x, n)) == n
  }

  /** No two records share an id. */
  ghost predicate UniqueIds<T>(s: seq<T>, key: T -> int) {
    forall i, j :: 0 <= i < j < |s| ==> key(s[i]) != key(s[j])
  }

  ghost predicate HasId<T>(s: seq<T>, key: T -> int, id: int) {
    exists i :: 0 <= i < |s| && key(s[i]) == id
  }

  /** `Math.max(0, ...s.map(key))`. */
  function MaxId<T>(s: seq<T>, key: T -> int): (m: int)
    ensures m >= 0
    ensures forall i :: 0 <= i < |s| ==> key(s[i]) <= m
    ensures m == 0 || exists i :: 0 <= i < |s| && key(s[i]) == m
    decreases |s|
  {
    if s == [] then 0
    else
      var rest := MaxId(s[1..], key);
      if key(s[0]) > rest then key(s[0]) else rest
  }

  /** The id `create*` hands out: above every stored id, 1 in an empty store,
      and the least such number (one more than the largest positive id). */
  function NextId<T>(s: seq<T>, key: T -> int): (n: int)
    ensures n >= 1
    ensures forall i :: 0 <= i < |s| ==> key(s[i]) < n
    ensures s == [] ==> n == 1
    ensures n == 1 || exists i :: 0 <= i < |s| && key(s[i]) == n - 1
  {
    MaxId(s, key) + 1
  }

  /** `s.findIndex((p) => key(p) === id)`: the first position holding `id`,
      or -1 when there is none. */
  function FindIndex<T>(s: seq<T>, key: T -> int, id: int): (r: int)
    ensures -1 <= r < |s|
    ensures r == -1 <==> forall j :: 0 <= j < |s| ==> key(s[j]) != id
    ensures 0 <= r ==> key(s[r]) == id && forall j :: 0 <= j < r ==> key(s[j]) != id
    decreases |s|
  {
    if s == [] then -1
    else if key(s[0]) == id then 0
    else
      var k := FindIndex(s[1..], key, id);
      if k == -1 then -1 else k + 1
  }

  // ------------------------------------------------ the store's operations

  /** `create*`: `push({ ...x, id: NextId })`. */
  function Created<T(!new)>(s: seq<T>, key: T -> int, stamp: (T, int) -> T, x: T): seq<T> {
    s + [stamp(x, NextId(s, key))]
  }

  /** `update*`: overwrite the entry at `findIndex`, if there is one. */
  function Updated<T>(s: seq<T>, key: T -> int, x: T): seq<T> {
    var i := FindIndex(s, key, key(x));
    if i == -1 then s else s[i := x]
  }

  /** `delete*`: `splice(findIndex, 1)`, if there is such an entry. */
  function Deleted<T>(s: seq<T>, key: T -> int, id: int): seq<T> {
    var i := FindIndex(s, key, id);
    if i == -1 then s else s[..i] + s[i + 1..]
  }

  // ----------------------------------------- the admin screens' local merges

  /** `list.map((p) => (key(p) === key(x) ? x : p))`. */
  function ReplaceAll<T>(s: seq<T>, key: T -> int, x: T): seq<T> {
    seq(|s|, j requires 0 <= j < |s| => if key(s[j]) == key(x) then x else s[j])
  }

  /** The test `(p) => key(p) !== id`. */
  function KeyDiffers<T>(key: T -> int, id: int): T -> bool {
    p => key(p) != id
  }

  /** `list.filter((p) => key(p) !== id)`. */
  function RemoveId<T>(s: seq<T>, key: T -> int, id: int): seq<T> {
    Filter(s, KeyDiffers(key, id))
  }

  // ------------------------------------------------------------ lemmas

  /** The created record carries the fresh id and is the input with only the
      id replaced; earlier records are untouched. */
  lemma CreateAppendsFresh<T(!new)>(s: seq<T>, key: T -> int, stamp: (T, int) -> T, x: T)
    requires StampLaw(key, stamp)
    ensures var r := Created(s, key, stamp, x);
      && |r| == |s| + 1
      && r[..|s|] == s
      && r[|s|] == stamp(x, NextId(s, key))
      && key(r[|s|]) == NextId(s, key)
      && forall i :: 0 <= i < |s| ==> key(s[i]) < key(r[|s|])
  {
    var r := Created(s, key, stamp, x);
    assert r[..|s|] == s;
  }

  /** With the id present, `update*` overwrites exactly its first holder. */
  lemma UpdatePresent<T>(s: seq<T>, key: T -> int, x: T, i: nat)
    requires i < |s| && key(s[i]) == key(x)
    requires forall j :: 0 <= j < i ==> key(s[j]) != key(x)
    ensures Updated(s, key, x) == s[i := x]
  {
    assert FindIndex(s, key, key(x)) == i;
  }

  /** With the id absent, `update*` leaves the store as it was. */
  lemma UpdateAbsent<T>(s: seq<T>, key: T -> int, x: T)
    requires forall j :: 0 <= j < |s| ==> key(s[j]) != key(x)
    ensures Updated(s, key, x) == s
  {
  }

  /** `update*` keeps the length and the id found at every position. */
  lemma UpdateKeepsIds<T>(s: seq<T>, key: T -> int, x: T)
    ensures |Updated(s, key, x)| == |s|
    ensures forall j :: 0 <= j < |s| ==> key(Updated(s, key, x)[j]) == key(s[j])
  {
  }

  /** With the id present, `delete*` removes exactly its first holder and
      keeps the order of all the others. */
  lemma DeletePresent<T>(s: seq<T>, key: T -> int, id: int, i: nat)
    requires i < |s| && key(s[i]) == id
    requires forall j :: 0 <= j < i ==> key(s[j]) != id
    ensures Deleted(s, key, id) == s[..i] + s[i + 1..]
    ensures |Deleted(s, key, id)| == |s| - 1
  {
    assert FindIndex(s, key, id) == i;
  }

  /** With the id absent, `delete*` is a no-op. */
  lemma DeleteAbsent<T>(s: seq<T>, key: T -> int, id: int)
    requires forall j :: 0 <= j < |s| ==> key(s[j]) != id
    ensures Deleted(s, key, id) == s
  {
  }

  lemma CreateKeepsUnique<T(!new)>(s: seq<T>, key: T -> int, stamp: (T, int) -> T, x: T)
    requires StampLaw(key, stamp) && UniqueIds(s, key)
    ensures UniqueIds(Created(s, key, stamp, x), key)
  {
    var r := Created(s, key, stamp, x);
    CreateAppendsFresh(s, key, stamp, x);
    forall i, j | 0 <= i < j < |r| ensures key(r[i]) != key(r[j]) {
      assert r[i] == s[i];
      if j < |s| {
        assert r[j] == s[j];
      }
    }
  }

  lemma UpdateKeepsUnique<T>(s: seq<T>, key: T -> int, x: T)
    requires UniqueIds(s, key)
    ensures UniqueIds(Updated(s, key, x), key)
  {
    UpdateKeepsIds(s, key, x);
  }

  lemma DeleteKeepsUnique<T>(s: seq<T>, key: T -> int, id: int)
    requires UniqueIds(s, key)
    ensures UniqueIds(Deleted(s, key, id), key)
    ensures !HasId(Deleted(s, key, id), key, id)
  {
    var i := FindIndex(s, key, id);
    if i != -1 {
      var r := Deleted(s, key, id);
      assert forall j :: 0 <= j < |r| ==> r[j] == (if j < i then s[j] else s[j + 1]);
      forall a, b | 0 <= a < b < |r| ensures key(r[a]) != key(r[b]) {
        var a', b' := if a < i then a else a + 1, if b < i then b else b + 1;
        assert r[a] == s[a'] && r[b] == s[b'] && a' < b';
      }
      forall j | 0 <= j < |r| ensures key(r[j]) != id {
        var j' := if j < i then j else j + 1;
        assert r[j] == s[j'] && j' != i;
      }
    }
  }

  /** The local edit merge replaces every entry holding the id and nothing
      else, and keeps the length. */
  lemma ReplaceAllFrame<T>(s: seq<T>, key: T -> int, x: T)
    ensures |ReplaceAll(s, key, x)| == |s|
    ensures forall j :: 0 <= j < |s| && key(s[j]) == key(x) ==> ReplaceAll(s, key, x)[j] == x
    ensures forall j :: 0 <= j < |s| && key(s[j]) != key(x) ==> ReplaceAll(s, key, x)[j] == s[j]
  {
  }

  /** The local delete merge drops every entry holding the id, keeps every
      other one, in order. */
  lemma RemoveIdFrame<T>(s: seq<T>, key: T -> int, id: int)
    ensures !HasId(RemoveId(s, key, id), key, id)
    ensures IsSubsequence(RemoveId(s, key, id), s)
    ensures forall j :: 0 <= j < |s| && key(s[j]) != id ==> s[j] in RemoveId(s, key, id)
    ensures HasId(s, key, id) ==> |RemoveId(s, key, id)| < |s|
  {
    FilterIsSubsequence(s, KeyDiffers(key, id));
    var r := RemoveId(s, key, id);
    if HasId(s, key, id) {
      var i :| 0 <= i < |s| && key(s[i]) == id;
      assert s == s[..i] + [s[i]] + s[i + 1..];
      FilterAppend(s[..i] + [s[i]], s[i + 1..], KeyDiffers(key, id));
      FilterAppend(s[..i], [s[i]], KeyDiffers(key, id));
    }
  }

  /** With unique ids, the admin screen's map-replace is exactly the store's
      `update*`: the local copy and the store stay equal after an edit. */
  lemma LocalEditMatchesStore<T>(s: seq<T>, key: T -> int, x: T)
    requires UniqueIds(s, key)
    ensures ReplaceAll(s, key, x) == Updated(s, key, x)
  {
    var i := FindIndex(s, key, key(x));
    var r := ReplaceAll(s, key, x);
    if i != -1 {
      forall j | 0 <= j < |s| ensures r[j] == s[i := x][j] {
        if j != i {
          assert key(s[j]) != key(s[i]) by {
            if j < i { assert key(s[j]) != key(s[i]); } else { assert key(s[i]) != key(s[j]); }
          }
        }
      }
    }
  }

  /** With unique ids, the admin screen's filter is exactly the store's
      `delete*`: the local copy and the store stay equal after a delete. */
  lemma LocalDeleteMatchesStore<T>(s: seq<T>, key: T -> int, id: int)
    requires UniqueIds(s, key)
    ensures RemoveId(s, key, id) == Deleted(s, key, id)
  {
    var p := KeyDiffers(key, id);
    var i := FindIndex(s, key, id);
    if i == -1 {
      FilterAll(s, p);
    } else {
      assert s == s[..i] + ([s[i]] + s[i + 1..]);
      FilterAppend(s[..i], [s[i]] + s[i + 1..], p);
      FilterAppend([s[i]], s[i + 1..], p);
      FilterAll(s[..i], p);
      var tail := s[i + 1..];
      forall j | 0 <= j < |tail| ensures key(tail[j]) != id {
        assert tail[j] == s[i + 1 + j];
      }
      FilterAll(tail, p);
      assert Filter([s[i]], p) == [];
    }
  }

  // --------------------------------------------- sequences of operations

  datatype Op<T> = Create(x: T) | Update(x: T) | Delete(id: int)

  /** One store operation. */
  function Apply<T(!new)>(s: seq<T>, key: T -> int, stamp: (T, int) -> T, op: Op<T>): seq<T> {
    match op
    case Create(x) => Created(s, key, stamp, x)
    case Update(x) => Updated(s, key, x)
    case Delete(id) => Deleted(s, key, id)
  }

  /** The same operation as an admin screen merges its result into its local
      copy: append the created record, map-replace, filter out. */
  function Mirror<T(!new)>(s: seq<T>, key: T -> int, stamp: (T, int) -> T, op: Op<T>): seq<T> {
    match op
    case Create(x) => s + [stamp(x, NextId(s, key))]
    case Update(x) => ReplaceAll(s, key, x)
    case Delete(id) => RemoveId(s, key, id)
  }

  function ApplyAll<T(!new)>(s: seq<T>, key: T -> int, stamp: (T, int) -> T, ops: seq<Op<T>>): seq<T>
    decreases |ops|
  {
    if ops == [] then s else ApplyAll(Apply(s, key, stamp, ops[0]), key, stamp, ops[1..])
  }

  function MirrorAll<T(!new)>(s: seq<T>, key: T -> int, stamp: (T, int) -> T, ops: seq<Op<T>>): seq<T>
    decreases |ops|
  {
    if ops == [] then s else MirrorAll(Mirror(s, key, stamp, ops[0]), key, stamp, ops[1..])
  }

  lemma ApplyKeepsUnique<T(!new)>(s: seq<T>, key: T -> int, stamp: (T, int) -> T, op: Op<T>)
    requires StampLaw(key, stamp) && UniqueIds(s, key)
    ensures UniqueIds(Apply(s, key, stamp, op), key)
  {
    match op
    case Create(x) => CreateKeepsUnique(s, key, stamp, x);
    case Update(x) => UpdateKeepsUnique(s, key, x);
    case Delete(id) => DeleteKeepsUnique(s, key, id);
  }

  /** Starting from unique ids, every sequence of creates, updates and
      deletes keeps them unique. */
  lemma {:induction false} OpsKeepUnique<T(!new)>(s: seq<T>, key: T -> int, stamp: (T, int) -> T, ops: seq<Op<T>>)
    requires StampLaw(key, stamp) && UniqueIds(s, key)
    ensures UniqueIds(ApplyAll(s, key, stamp, ops), key)
    decreases |ops|
  {
    if ops != [] {
      ApplyKeepsUnique(s, key, stamp, ops[0]);
      OpsKeepUnique(Apply(s, key, stamp, ops[0]), key, stamp, ops[1..]);
    }
  }

  /** An admin screen that starts from the store's contents and merges every
      result locally holds exactly what the store holds, after any sequence
      of operations, as long as the ids start out unique. */
  lemma {:induction false} MirrorStaysInSync<T(!new)>(s: seq<T>, key: T -> int, stamp: (T, int) -> T, ops: seq<Op<T>>)
    requires StampLaw(key, stamp) && UniqueIds(s, key)
    ensures MirrorAll(s, key, stamp, ops) == ApplyAll(s, key, stamp, ops)
    decreases |ops|
  {
    if ops != [] {
      match ops[0] {
        case Create(x) =>
        case Update(x) => LocalEditMatchesStore(s, key, x);
        case Delete(id) => LocalDeleteMatchesStore(s, key, id);
      }
      ApplyKeepsUnique(s, key, stamp, ops[0]);
      MirrorStaysInSync(Apply(s, key, stamp, ops[0]), key, stamp, ops[1..]);
    }
  }

  function Creates<T>(xs: seq<T>): (ops: seq<Op<T>>)
    ensures |ops| == |xs| && forall i :: 0 <= i < |xs| ==> ops[i] == Create(xs[i])
  {
    seq(|xs|, i requires 0 <= i < |xs| => Create(xs[i]))
  }

  /** Creating records one after another from a store numbered 1..n numbers
      them n+1, n+2, ...; from an empty store the ids are 1, 2, 3, ... */
  lemma {:induction false} CreatesNumberConsecutively<T(!new)>(s: seq<T>, key: T -> int, stamp: (T, int) -> T, xs: seq<T>)
    requires StampLaw(key, stamp)
    requires forall i :: 0 <= i < |s| ==> key(s[i]) == i + 1
    ensures var r := ApplyAll(s, key, stamp, Creates(xs));
      |r| == |s| + |xs| && forall i :: 0 <= i < |r| ==> key(r[i]) == i + 1
    decreases |xs|
  {
    if xs != [] {
      assert NextId(s, key) == |s| + 1 by {
        if s != [] {
          assert key(s[|s| - 1]) == |s|;
        }
      }
      var s' := Created(s, key, stamp, xs[0]);
      CreateAppendsFresh(s, key, stamp, xs[0]);
      assert forall i :: 0 <= i < |s'| ==> key(s'[i]) == i + 1 by {
        forall i | 0 <= i < |s'| ensures key(s'[i]) == i + 1 {
          if i < |s| { assert s'[i] == s[i]; }
        }
      }
      assert Creates(xs)[1..] == Creates(xs[1..]);
      CreatesNumberConsecutively(s', key, stamp, xs[1..]);
    }
  }
}
