/**
 * Python values as the pipeline sees them, and records: a record is a Python
 * dict, written as an association list whose order is the dict's insertion
 * order (it is observable in the deduplicated output, in `to_dict` and in the
 * flattened text sent to the language model).
 */
module Values {
  import opened Wrappers

  /** A JSON-shaped Python value (`str`, `list`, `None`, `bool`, a number, `dict`). */
  datatype Value =
    | VStr(s: string)
    | VList(items: seq<Value>)
    | VNone
    | VBool(b: bool)
    | VNum(n: real)
    | VMap(entries: seq<(string, Value)>)

  type Record = seq<(string, Value)>

  /** Python truthiness. */
  predicate Truthy(v: Value) {
    match v
    case VStr(s) => s != ""
    case VList(xs) => xs != []
    case VNone => false
    case VBool(b) => b
    case VNum(n) => n != 0.0
    case VMap(m) => m != []
  }

  /** `str(v)` for strings, `None` and booleans; `other` renders numbers, lists and dicts. */
  function PyStr(v: Value, other: Value -> string): string {
    match v
    case VStr(s) => s
    case VNone => "None"
    case VBool(b) => if b then "True" else "False"
    case _ => other(v)
  }

  /** The keys of a record, in order. */
  function Keys(r: Record): (ks: seq<string>)
    ensures |ks| == |r|
  {
    seq(|r|, i requires 0 <= i < |r| => r[i].0)
  }

  lemma KeysAt(r: Record, i: nat)
    requires i < |r|
    ensures Keys(r)[i] == r[i].0
  {
  }

  lemma KeysAppend(a: Record, b: Record)
    ensures Keys(a + b) == Keys(a) + Keys(b)
  {
    assert forall i :: 0 <= i < |a| + |b| ==> Keys(a + b)[i] == (Keys(a) + Keys(b))[i];
  }

  predicate HasKey(r: Record, k: string) {
    k in Keys(r)
  }

  /** `k` is a key of `r` exactly when some pair of `r` carries it. */
  lemma HasKeyAt(r: Record, k: string)
    ensures HasKey(r, k) <==> exists i :: 0 <= i < |r| && r[i].0 == k
  {
    if HasKey(r, k) {
      var i :| 0 <= i < |r| && Keys(r)[i] == k;
      assert r[i].0 == k;
    }
    if exists i :: 0 <= i < |r| && r[i].0 == k {
      var i :| 0 <= i < |r| && r[i].0 == k;
      assert Keys(r)[i] == k;
    }
  }

  /** A genuine dict: no key twice. */
  predicate WellFormed(r: Record) {
    forall i, j :: 0 <= i < j < |r| ==> r[i].0 != r[j].0
  }

  /** Adding a pair at the front keeps a dict a dict exactly when its key is new. */
  lemma WellFormedCons(x: (string, Value), r: Record)
    ensures WellFormed([x] + r) <==> WellFormed(r) && !HasKey(r, x.0)
  {
    var s := [x] + r;
    HasKeyAt(r, x.0);
    assert forall i :: 0 <= i < |r| ==> s[i + 1] == r[i];
    if WellFormed(s) {
      forall i, j | 0 <= i < j < |r| ensures r[i].0 != r[j].0 {
        assert s[i + 1] == r[i] && s[j + 1] == r[j];
      }
      forall i | 0 <= i < |r| ensures r[i].0 != x.0 {
        assert s[0] == x && s[i + 1] == r[i];
      }
    }
    if WellFormed(r) && !HasKey(r, x.0) {
      forall i, j | 0 <= i < j < |s| ensures s[i].0 != s[j].0 {
        assert s[j] == r[j - 1];
        if i > 0 {
          assert s[i] == r[i - 1];
        }
      }
    }
  }

  /** Adding a pair at the end keeps a dict a dict exactly when its key is new. */
  lemma WellFormedSnoc(r: Record, x: (string, Value))
    ensures WellFormed(r + [x]) <==> WellFormed(r) && !HasKey(r, x.0)
  {
    var s := r + [x];
    HasKeyAt(r, x.0);
    assert forall i :: 0 <= i < |r| ==> s[i] == r[i];
    assert s[|r|] == x;
  }

  /** Index of the first pair from `i` on whose key is `k`. */
  function FindFrom(r: Record, k: string, i: nat): (o: Option<nat>)
    requires i <= |r|
    ensures o.Some? ==> i <= o.value < |r| && r[o.value].0 == k
    decreases |r| - i
  {
    if i == |r| then None else if r[i].0 == k then Some(i) else FindFrom(r, k, i + 1)
  }

  /** The search finds the first pair with the key, and fails only when there is none. */
  lemma {:induction false} FindFromFirst(r: Record, k: string, i: nat)
    requires i <= |r|
    ensures FindFrom(r, k, i).None? <==> forall j :: i <= j < |r| ==> r[j].0 != k
    ensures FindFrom(r, k, i).Some? ==> forall j :: i <= j < FindFrom(r, k, i).value ==> r[j].0 != k
    decreases |r| - i
  {
    if i < |r| && r[i].0 != k {
      FindFromFirst(r, k, i + 1);
    }
  }

  /** Records with the same keys are searched alike. */
  lemma {:induction false} FindFromSameKeys(r: Record, r': Record, k: string, i: nat)
    requires |r| == |r'| && i <= |r|
    requires forall j :: 0 <= j < |r| ==> r[j].0 == r'[j].0
    ensures FindFrom(r, k, i) == FindFrom(r', k, i)
    decreases |r| - i
  {
    if i < |r| {
      FindFromSameKeys(r, r', k, i + 1);
    }
  }

  /** A pair added at the end is found only when no earlier pair has its key. */
  lemma {:induction false} FindFromSnoc(r: Record, x: (string, Value), k: string, i: nat)
    requires i <= |r|
    ensures FindFrom(r + [x], k, i) ==
      if FindFrom(r, k, i).Some? then FindFrom(r, k, i) else if x.0 == k then Some(|r|) else None
    decreases |r| - i
  {
    assert (r + [x])[i] == if i < |r| then r[i] else x;
    if i < |r| {
      FindFromSnoc(r, x, k, i + 1);
    } else {
      assert |r + [x]| == i + 1;
    }
  }

  /** `r.get(k)`: the value stored under `k`, if any. */
  function Get(r: Record, k: string): Option<Value> {
    match FindFrom(r, k, 0)
    case Some(i) => Some(r[i].1)
    case None => None
  }

  /** `get` finds a value exactly for the keys the dict has. */
  lemma GetSome(r: Record, k: string)
    ensures Get(r, k).Some? <==> HasKey(r, k)
  {
    FindFromFirst(r, k, 0);
    HasKeyAt(r, k);
  }

  /** In a dict, the value at any position is what `get` returns for its key. */
  lemma GetAt(r: Record, i: nat)
    requires WellFormed(r) && i < |r|
    ensures Get(r, r[i].0) == Some(r[i].1)
  {
    FindFromFirst(r, r[i].0, 0);
  }

  /** `get` returns the value of the first pair with the key. */
  lemma GetFirstAt(r: Record, i: nat)
    requires i < |r| && forall j :: 0 <= j < i ==> r[j].0 != r[i].0
    ensures Get(r, r[i].0) == Some(r[i].1)
  {
    FindFromFirst(r, r[i].0, 0);
  }

  /** `r.get(k, d)`. */
  function GetOr(r: Record, k: string, d: Value): Value {
    match Get(r, k)
    case Some(v) => v
    case None => d
  }

  /** `r[k] = v` when `k` is already a key: the pair found is replaced in place. */
  lemma SetExisting(r: Record, k: string, v: Value, i: nat)
    requires FindFrom(r, k, 0) == Some(i)
    ensures Get(r[i := (k, v)], k) == Some(v)
    ensures forall k' :: k' != k ==> Get(r[i := (k, v)], k') == Get(r, k')
    ensures Keys(r[i := (k, v)]) == Keys(r)
  {
    var r' := r[i := (k, v)];
    assert forall j :: 0 <= j < |r| ==> r[j].0 == r'[j].0;
    FindFromSameKeys(r, r', k, 0);
    forall k' | k' != k ensures Get(r', k') == Get(r, k') {
      FindFromSameKeys(r, r', k', 0);
    }
    assert Keys(r') == Keys(r);
  }

  /** `r[k] = v` when `k` is new: the pair goes last. */
  lemma SetNew(r: Record, k: string, v: Value)
    requires FindFrom(r, k, 0).None?
    ensures Get(r + [(k, v)], k) == Some(v)
    ensures forall k' :: k' != k ==> Get(r + [(k, v)], k') == Get(r, k')
    ensures Keys(r + [(k, v)]) == Keys(r) + [k]
  {
    FindFromSnoc(r, (k, v), k, 0);
    forall k' | k' != k ensures Get(r + [(k, v)], k') == Get(r, k') {
      FindFromSnoc(r, (k, v), k', 0);
    }
    KeysAppend(r, [(k, v)]);
    assert (r + [(k, v)])[|r|] == (k, v);
  }

  /** `r[k] = v`: an existing key keeps its position, a new one goes last. */
  function Set(r: Record, k: string, v: Value): Record {
    match FindFrom(r, k, 0)
    case Some(i) => r[i := (k, v)]
    case None => r + [(k, v)]
  }

  /** After `r[k] = v`, `k` holds `v` and every other key what it held before. */
  lemma SetGet(r: Record, k: string, v: Value)
    ensures Get(Set(r, k, v), k) == Some(v)
    ensures forall k' :: k' != k ==> Get(Set(r, k, v), k') == Get(r, k')
  {
    FindFromFirst(r, k, 0);
    HasKeyAt(r, k);
    match FindFrom(r, k, 0)
    case Some(i) =>
      SetExisting(r, k, v, i);
    case None =>
      SetNew(r, k, v);
  }

  /** An existing key keeps its position, a new one goes last. */
  lemma SetKeys(r: Record, k: string, v: Value)
    ensures Keys(Set(r, k, v)) == if HasKey(r, k) then Keys(r) else Keys(r) + [k]
  {
    FindFromFirst(r, k, 0);
    HasKeyAt(r, k);
    match FindFrom(r, k, 0)
    case Some(i) =>
      SetExisting(r, k, v, i);
    case None =>
      SetNew(r, k, v);
  }

  /** An assignment keeps a dict a dict. */
  lemma SetWellFormed(r: Record, k: string, v: Value)
    requires WellFormed(r)
    ensures WellFormed(Set(r, k, v))
  {
    FindFromFirst(r, k, 0);
    HasKeyAt(r, k);
    match FindFrom(r, k, 0)
    case Some(i) =>
      var r' := Set(r, k, v);
      assert forall j :: 0 <= j < |r| ==> r'[j].0 == r[j].0;
    case None =>
      WellFormedSnoc(r, (k, v));
  }

  /** The first `n` assignments `r[k] = v` of `pairs`, in order. */
  function SetFirst(r: Record, pairs: Record, n: nat): Record
    requires n <= |pairs|
    decreases n
  {
    if n == 0 then r else Set(SetFirst(r, pairs, n - 1), pairs[n - 1].0, pairs[n - 1].1)
  }

  /** Successive assignments `r[k] = v` for the pairs in order (`dict.update`, `{**a, **b}`). */
  function SetAll(r: Record, pairs: Record): Record {
    SetFirst(r, pairs, |pairs|)
  }

  lemma {:induction false} SetFirstWellFormed(r: Record, pairs: Record, n: nat)
    requires WellFormed(r) && n <= |pairs|
    ensures WellFormed(SetFirst(r, pairs, n))
    decreases n
  {
    if n > 0 {
      SetFirstWellFormed(r, pairs, n - 1);
      SetWellFormed(SetFirst(r, pairs, n - 1), pairs[n - 1].0, pairs[n - 1].1);
    }
  }

  /** Assignments keep a dict a dict. */
  lemma SetAllWellFormed(r: Record, pairs: Record)
    requires WellFormed(r)
    ensures WellFormed(SetAll(r, pairs))
  {
    SetFirstWellFormed(r, pairs, |pairs|);
  }

  /** The value the last of the first `n` pairs with key `k` carries, if any. */
  function LastIn(pairs: Record, k: string, n: nat): Option<Value>
    requires n <= |pairs|
    decreases n
  {
    if n == 0 then None
    else if pairs[n - 1].0 == k then Some(pairs[n - 1].1)
    else LastIn(pairs, k, n - 1)
  }

  /** The value the last pair with key `k` carries, if any. */
  function LastValue(pairs: Record, k: string): Option<Value> {
    LastIn(pairs, k, |pairs|)
  }

  /** Some of the first `n` pairs carries `k` exactly when one of them is the last. */
  lemma {:induction false} LastInSome(pairs: Record, k: string, n: nat)
    requires n <= |pairs|
    ensures LastIn(pairs, k, n).Some? <==> exists j :: 0 <= j < n && pairs[j].0 == k
    decreases n
  {
    if n > 0 && pairs[n - 1].0 != k {
      LastInSome(pairs, k, n - 1);
      if exists j :: 0 <= j < n && pairs[j].0 == k {
        var j :| 0 <= j < n && pairs[j].0 == k;
        assert j < n - 1;
      }
    }
  }

  lemma {:induction false} SetFirstGet(r: Record, pairs: Record, n: nat, k: string)
    requires n <= |pairs|
    ensures Get(SetFirst(r, pairs, n), k) ==
      if LastIn(pairs, k, n).Some? then LastIn(pairs, k, n) else Get(r, k)
    decreases n
  {
    if n > 0 {
      SetFirstGet(r, pairs, n - 1, k);
      var t, x := SetFirst(r, pairs, n - 1), pairs[n - 1];
      assert SetFirst(r, pairs, n) == Set(t, x.0, x.1);
      SetGet(t, x.0, x.1);
      if x.0 == k {
        assert LastIn(pairs, k, n) == Some(x.1);
      } else {
        assert LastIn(pairs, k, n) == LastIn(pairs, k, n - 1);
        assert Get(Set(t, x.0, x.1), k) == Get(t, k);
      }
    }
  }

  /** After a sequence of assignments, a key holds the last value assigned to it,
      and a key never assigned keeps its old value. */
  lemma SetAllGet(r: Record, pairs: Record, k: string)
    ensures Get(SetAll(r, pairs), k) == if LastValue(pairs, k).Some? then LastValue(pairs, k) else Get(r, k)
  {
    SetFirstGet(r, pairs, |pairs|, k);
  }

  /** A key is present after the assignments iff it was present before or was assigned. */
  lemma SetAllKeys(r: Record, pairs: Record, k: string)
    ensures HasKey(SetAll(r, pairs), k) <==> HasKey(r, k) || HasKey(pairs, k)
  {
    SetAllGet(r, pairs, k);
    LastInSome(pairs, k, |pairs|);
    HasKeyAt(pairs, k);
    GetSome(r, k);
    GetSome(SetAll(r, pairs), k);
  }

  /** An assignment always leaves a key behind, so the result is empty only
      when there was nothing to assign. */
  lemma SetAllEmpty(r: Record, pairs: Record)
    ensures SetAll(r, pairs) == [] <==> r == [] && pairs == []
  {
    if pairs != [] {
      var last := pairs[|pairs| - 1];
      SetAllKeys(r, pairs, last.0);
      assert HasKey(pairs, last.0) by {
        HasKeyAt(pairs, last.0);
      }
    }
  }

  /** `r[k] = v` for a new key appends the pair. */
  lemma SetAppend(r: Record, k: string, v: Value)
    requires !HasKey(r, k)
    ensures Set(r, k, v) == r + [(k, v)]
  {
    HasKeyAt(r, k);
    FindFromFirst(r, k, 0);
  }

  lemma {:induction false} SetFirstCopies(r: Record, n: nat)
    requires WellFormed(r) && n <= |r|
    ensures SetFirst([], r, n) == r[..n]
    decreases n
  {
    if n > 0 {
      SetFirstCopies(r, n - 1);
      var p := r[..n - 1];
      assert !HasKey(p, r[n - 1].0) by {
        HasKeyAt(p, r[n - 1].0);
      }
      SetAppend(p, r[n - 1].0, r[n - 1].1);
      assert r[..n] == p + [r[n - 1]];
    }
  }

  /** Assigning the pairs of a dict one by one into an empty dict rebuilds it. */
  lemma SetAllCopies(r: Record)
    requires WellFormed(r)
    ensures SetAll([], r) == r
  {
    SetFirstCopies(r, |r|);
    assert r[..|r|] == r;
  }

  lemma {:induction false} LastInOfWellFormed(pairs: Record, i: nat, n: nat)
    requires WellFormed(pairs) && i < n <= |pairs|
    ensures LastIn(pairs, pairs[i].0, n) == Some(pairs[i].1)
    decreases n
  {
    if i < n - 1 {
      LastInOfWellFormed(pairs, i, n - 1);
    }
  }

  /** One value under each key of an assignment list: the `LastValue` is found. */
  lemma LastValueOfWellFormed(pairs: Record, i: nat)
    requires WellFormed(pairs) && i < |pairs|
    ensures LastValue(pairs, pairs[i].0) == Some(pairs[i].1)
  {
    LastInOfWellFormed(pairs, i, |pairs|);
  }

  lemma LastValueAbsent(pairs: Record, k: string)
    requires !HasKey(pairs, k)
    ensures LastValue(pairs, k).None?
  {
    HasKeyAt(pairs, k);
    LastInSome(pairs, k, |pairs|);
  }

  /** In a dict the last assignment to a key is its only one. */
  lemma LastValueIsGet(r: Record, k: string)
    requires WellFormed(r)
    ensures LastValue(r, k) == Get(r, k)
  {
    if HasKey(r, k) {
      HasKeyAt(r, k);
      var i :| 0 <= i < |r| && r[i].0 == k;
      LastValueOfWellFormed(r, i);
      GetAt(r, i);
    } else {
      LastValueAbsent(r, k);
      GetSome(r, k);
    }
  }
}
