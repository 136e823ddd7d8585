// The least-recently-used cache of the auth resolver: an insertion-ordered map,
// oldest first, that is cut from the front.
module LruCache {
  import opened Optional

  // Distinct keys, in insertion order.
  type Entries<K, V> = seq<(K, V)>

  ghost function Keys<K, V>(m: Entries<K, V>): set<K> {
    set e | e in m :: e.0
  }

  ghost predicate Distinct<K, V>(m: Entries<K, V>) {
    forall i, j :: 0 <= i < j < |m| ==> m[i].0 != m[j].0
  }

  function Lookup<K(==), V>(m: Entries<K, V>, k: K): Option<V> {
    if m == [] then None else if m[0].0 == k then Some(m[0].1) else Lookup(m[1..], k)
  }

  function Remove<K(==), V>(m: Entries<K, V>, k: K): Entries<K, V> {
    if m == [] then [] else if m[0].0 == k then m[1..] else [m[0]] + Remove(m[1..], k)
  }

  // What a get leaves behind: a hit moves to the end.
  function Refreshed<K(==), V>(m: Entries<K, V>, k: K): Entries<K, V> {
    var v := Lookup(m, k);
    if v.Some? then Remove(m, k) + [(k, v.value)] else m
  }

  function Newest<T>(m: seq<T>, max: nat): seq<T> {
    if |m| > max then m[|m| - max..] else m
  }

  function Stored<K(==), V>(m: Entries<K, V>, max: nat, k: K, v: V): Entries<K, V> {
    Newest(Remove(m, k) + [(k, v)], max)
  }

  // ----- entries -----

  lemma {:induction false} LookupKeys<K, V>(m: Entries<K, V>, k: K)
    ensures Lookup(m, k).Some? <==> k in Keys(m)
    ensures Lookup(m, k).Some? ==> (k, Lookup(m, k).value) in m
  {
    if m != [] {
      LookupKeys(m[1..], k);
      assert m == [m[0]] + m[1..];
      if k in Keys(m) && m[0].0 != k {
        var e :| e in m && e.0 == k;
        assert e in m[1..];
      }
    }
  }

  lemma {:induction false} RemoveKeys<K, V>(m: Entries<K, V>, k: K)
    requires Distinct(m)
    ensures Distinct(Remove(m, k)) && Keys(Remove(m, k)) == Keys(m) - {k}
    ensures forall e :: e in Remove(m, k) ==> e in m
    ensures |Remove(m, k)| == |m| - (if k in Keys(m) then 1 else 0)
  {
    if m != [] {
      var rest := m[1..];
      assert m == [m[0]] + rest;
      assert Keys(m) == {m[0].0} + Keys(rest);
      assert m[0].0 !in Keys(rest);
      if m[0].0 != k {
        RemoveKeys(rest, k);
        var r := Remove(rest, k);
        assert Keys([m[0]] + r) == {m[0].0} + Keys(r);
        forall j | 0 <= j < |r| ensures r[j].0 != m[0].0 {
          assert r[j] in rest;
        }
      }
    }
  }

  lemma KeysHead<K, V>(m: Entries<K, V>)
    requires m != []
    ensures Keys(m) == {m[0].0} + Keys(m[1..])
  {
    assert m == [m[0]] + m[1..];
  }

  lemma SplitHead<K, V>(a: Entries<K, V>, b: Entries<K, V>)
    requires a != []
    ensures a + b != [] && (a + b)[0] == a[0] && (a + b)[1..] == a[1..] + b
  {
  }

  lemma Regroup<K, V>(e: (K, V), a: Entries<K, V>, b: Entries<K, V>)
    ensures [e] + (a + b) == ([e] + a) + b
  {
  }

  // Removing reaches into the part that has the key.
  lemma {:induction false} RemoveSplit<K, V>(a: Entries<K, V>, b: Entries<K, V>, k: K)
    ensures Remove(a + b, k) == if k in Keys(a) then Remove(a, k) + b else a + Remove(b, k)
  {
    if a == [] {
      assert a + b == b;
    } else {
      SplitHead(a, b);
      KeysHead(a);
      RemoveSplit(a[1..], b, k);
      hide Keys;
      if a[0].0 != k {
        Regroup(a[0], Remove(a[1..], k), b);
        Regroup(a[0], a[1..], Remove(b, k));
        assert [a[0]] + a[1..] == a;
      }
    }
  }

  lemma {:induction false} LookupSplit<K, V>(a: Entries<K, V>, b: Entries<K, V>, k: K)
    ensures Lookup(a + b, k) == if k in Keys(a) then Lookup(a, k) else Lookup(b, k)
  {
    if a == [] {
      assert a + b == b;
    } else {
      SplitHead(a, b);
      KeysHead(a);
      LookupSplit(a[1..], b, k);
    }
  }

  lemma {:induction false} KeysCount<K, V>(m: Entries<K, V>)
    requires Distinct(m)
    ensures |Keys(m)| == |m|
  {
    if m != [] {
      KeysCount(m[1..]);
      KeysHead(m);
    }
  }

  // A removed key is gone, and the others are as they were.
  lemma {:induction false} LookupRemoved<K, V>(m: Entries<K, V>, k: K, other: K)
    requires Distinct(m)
    ensures Lookup(Remove(m, k), other) == if other == k then None else Lookup(m, other)
  {
    if m != [] {
      if m[0].0 == k {
        LookupKeys(m[1..], k);
        assert forall e :: e in m[1..] ==> exists i :: 1 <= i < |m| && m[i] == e;
      } else {
        LookupRemoved(m[1..], k, other);
        assert ([m[0]] + Remove(m[1..], k))[1..] == Remove(m[1..], k);
      }
    }
  }

  // ----- what the operations keep -----

  ghost predicate Sound<K, V>(m: Entries<K, V>, max: nat) { Distinct(m) && |m| <= max }

  lemma AppendDistinct<K, V>(m: Entries<K, V>, k: K, v: V)
    requires Distinct(m) && k !in Keys(m)
    ensures Distinct(m + [(k, v)]) && Keys(m + [(k, v)]) == Keys(m) + {k}
  {
    forall i | 0 <= i < |m| ensures m[i].0 != k {
      assert m[i] in m;
    }
    forall e | e in m ensures e.0 in Keys(m + [(k, v)]) {
      assert e in m + [(k, v)];
    }
    assert (k, v) in m + [(k, v)];
  }

  // A size bound, distinct keys, and no entry that was not put there.
  lemma GetSound<K, V>(m: Entries<K, V>, max: nat, k: K)
    requires Sound(m, max)
    ensures Sound(Refreshed(m, k), max) && Keys(Refreshed(m, k)) == Keys(m)
    ensures forall e :: e in Refreshed(m, k) ==> e in m
  {
    LookupKeys(m, k);
    if Lookup(m, k).Some? {
      RemoveKeys(m, k);
      AppendDistinct(Remove(m, k), k, Lookup(m, k).value);
    }
  }

  lemma SetSound<K, V>(m: Entries<K, V>, max: nat, k: K, v: V)
    requires Distinct(m)
    ensures Sound(Stored(m, max, k, v), max)
    ensures forall e :: e in Stored(m, max, k, v) ==> e in m || e == (k, v)
    ensures max > 0 ==> Lookup(Stored(m, max, k, v), k) == Some(v)
  {
    RemoveKeys(m, k);
    AppendDistinct(Remove(m, k), k, v);
    if max > 0 {
      var q := Stored(m, max, k, v);
      var n := |q| - 1;
      assert q == q[..n] + [(k, v)];
      LookupSplit(q[..n], [(k, v)], k);
      assert k !in Keys(q[..n]) by {
        assert forall e :: e in q[..n] ==> e in Remove(m, k);
      }
    }
  }

  lemma DeleteSound<K, V>(m: Entries<K, V>, max: nat, k: K)
    requires Sound(m, max)
    ensures Sound(Remove(m, k), max) && Lookup(Remove(m, k), k).None?
    ensures forall e :: e in Remove(m, k) ==> e in m
  {
    RemoveKeys(m, k);
    LookupKeys(Remove(m, k), k);
  }

  // ----- runs -----

  datatype Op<K, V> = Get(key: K) | Set(key: K, value: V) | Delete(key: K)

  function Step<K(==), V>(m: Entries<K, V>, max: nat, op: Op<K, V>): Entries<K, V> {
    match op
    case Get(k) => Refreshed(m, k)
    case Set(k, v) => Stored(m, max, k, v)
    case Delete(k) => Remove(m, k)
  }

  function State<K(==), V>(max: nat, ops: seq<Op<K, V>>, n: nat): Entries<K, V>
    requires n <= |ops|
  {
    if n == 0 then [] else Step(State(max, ops, n - 1), max, ops[n - 1])
  }

  lemma StepSound<K, V>(m: Entries<K, V>, max: nat, op: Op<K, V>)
    requires Sound(m, max)
    ensures Sound(Step(m, max, op), max)
  {
    match op
    case Get(k) => GetSound(m, max, k);
    case Set(k, v) => SetSound(m, max, k, v);
    case Delete(k) => DeleteSound(m, max, k);
  }

  // On every run the size stays within the maximum.
  lemma {:induction false} StateSound<K, V>(max: nat, ops: seq<Op<K, V>>, n: nat)
    requires n <= |ops|
    ensures Sound(State(max, ops, n), max)
  {
    if n > 0 {
      StateSound(max, ops, n - 1);
      StepSound(State(max, ops, n - 1), max, ops[n - 1]);
    }
  }

  // The value that a run has stored last under a key, unless it was deleted since.
  function LastStored<K(==), V>(ops: seq<Op<K, V>>, n: nat, k: K): Option<V>
    requires n <= |ops|
  {
    if n == 0 then None
    else if ops[n - 1].key != k || ops[n - 1].Get? then LastStored(ops, n - 1, k)
    else if ops[n - 1].Set? then Some(ops[n - 1].value)
    else None
  }

  // No entry under the key holds anything but that value.
  ghost predicate Holds<K, V>(m: Entries<K, V>, k: K, value: Option<V>) {
    forall e :: e in m && e.0 == k ==> value == Some(e.1)
  }

  lemma StepHolds<K, V>(m: Entries<K, V>, max: nat, op: Op<K, V>, k: K, value: Option<V>)
    requires Sound(m, max) && Holds(m, k, value) && (op.key != k || op.Get?)
    ensures Holds(Step(m, max, op), k, value)
  {
    match op
    case Get(x) => GetSound(m, max, x);
    case Set(x, w) => SetSound(m, max, x, w);
    case Delete(x) => DeleteSound(m, max, x);
  }

  lemma ReplacedHolds<K, V>(m: Entries<K, V>, max: nat, op: Op<K, V>)
    requires Sound(m, max) && !op.Get?
    ensures Holds(Step(m, max, op), op.key, if op.Set? then Some(op.value) else None)
  {
    var k := op.key;
    RemoveKeys(m, k);
    assert forall e :: e in Remove(m, k) ==> e.0 in Keys(Remove(m, k));
  }

  lemma {:induction false} StateHolds<K, V>(max: nat, ops: seq<Op<K, V>>, n: nat, k: K)
    requires n <= |ops|
    ensures Holds(State(max, ops, n), k, LastStored(ops, n, k))
  {
    if n > 0 {
      hide Holds, Step, Sound;
      var m, op := State(max, ops, n - 1), ops[n - 1];
      StateHolds(max, ops, n - 1, k);
      StateSound(max, ops, n - 1);
      if op.key != k || op.Get? {
        StepHolds(m, max, op, k, LastStored(ops, n - 1, k));
      } else {
        ReplacedHolds(m, max, op);
      }
    }
  }

  // On every run a hit returns the value last stored under the key, and after a
  // deletion there is none until the next store.
  lemma HitIsLastStored<K, V>(max: nat, ops: seq<Op<K, V>>, n: nat, k: K)
    requires n <= |ops|
    ensures Lookup(State(max, ops, n), k).Some? ==> Lookup(State(max, ops, n), k) == LastStored(ops, n, k)
  {
    StateHolds(max, ops, n, k);
    LookupKeys(State(max, ops, n), k);
  }

  // An operation touches its key when it stores it or finds it.
  predicate Touches<K(==), V>(m: Entries<K, V>, op: Op<K, V>) {
    op.Set? || (op.Get? && Lookup(m, op.key).Some?)
  }

  // The keys touched by the operations from..n.
  ghost function Touched<K, V>(max: nat, ops: seq<Op<K, V>>, from: nat, n: nat): set<K>
    requires n <= |ops|
  {
    if n <= from then {}
    else Touched(max, ops, from, n - 1)
         + (if Touches(State(max, ops, n - 1), ops[n - 1]) then {ops[n - 1].key} else {})
  }

  // Where a key stands: still there, with only keys touched since behind it; or
  // gone, pushed out by max of them. Without deletions exactly those touched are
  // behind it.
  ghost predicate Stands<K(!new), V(!new)>(m: Entries<K, V>, max: nat, k: K, v: V, touched: set<K>, exact: bool) {
    || (exists pre, post :: SplitAt(m, pre, k, v, post) && Keys(post) <= touched && (exact ==> Keys(post) == touched))
    || (k !in Keys(m) && |touched| >= max)
  }

  ghost predicate SplitAt<K, V>(m: Entries<K, V>, pre: Entries<K, V>, k: K, v: V, post: Entries<K, V>) {
    m == pre + [(k, v)] + post
  }

  lemma {:induction false} Subset<T>(a: set<T>, b: set<T>)
    requires a <= b
    ensures |a| <= |b|
  {
    if a != {} {
      var x :| x in a;
      Subset(a - {x}, b - {x});
    }
  }

  lemma SplitKeys<K, V>(m: Entries<K, V>, pre: Entries<K, V>, k: K, v: V, post: Entries<K, V>)
    requires SplitAt(m, pre, k, v, post) && Distinct(m)
    ensures Distinct(pre) && Distinct(post) && k !in Keys(pre) && k !in Keys(post)
    ensures Keys(m) == Keys(pre) + {k} + Keys(post)
    ensures Lookup(m, k) == Some(v)
  {
    forall i | 0 <= i < |pre| ensures pre[i].0 != k {
      assert m[i] == pre[i] && m[|pre|] == (k, v);
    }
    forall i | 0 <= i < |post| ensures post[i].0 != k {
      assert m[|pre| + 1 + i] == post[i] && m[|pre|] == (k, v);
    }
    forall i, j | 0 <= i < j < |post| ensures post[i].0 != post[j].0 {
      assert m[|pre| + 1 + i] == post[i] && m[|pre| + 1 + j] == post[j];
    }
    forall i, j | 0 <= i < j < |pre| ensures pre[i].0 != pre[j].0 {
      assert m[i] == pre[i] && m[j] == pre[j];
    }
    forall e | e in pre || e in post || e == (k, v) ensures e in m {
    }
    assert forall e :: e in m ==> e in pre || e in post || e == (k, v);
    assert m == pre + ([(k, v)] + post);
    LookupSplit(pre, [(k, v)] + post, k);
  }

  // Moving or adding another key x puts it behind.
  lemma MoveBehind<K, V>(m: Entries<K, V>, pre: Entries<K, V>, k: K, v: V, post: Entries<K, V>, x: K, w: V)
    returns (pre': Entries<K, V>, post': Entries<K, V>)
    requires SplitAt(m, pre, k, v, post) && Distinct(m) && x != k
    ensures SplitAt(Remove(m, x) + [(x, w)], pre', k, v, post') && Keys(post') == Keys(post) + {x}
    ensures Distinct(post')
  {
    pre', post' := RemoveOther(m, pre, k, v, post, x);
    SplitKeys(m, pre, k, v, post);
    AppendDistinct(post', x, w);
    assert Remove(m, x) + [(x, w)] == pre' + [(k, v)] + (post' + [(x, w)]);
    post' := post' + [(x, w)];
  }

  lemma RemoveOther<K, V>(m: Entries<K, V>, pre: Entries<K, V>, k: K, v: V, post: Entries<K, V>, x: K)
    returns (pre': Entries<K, V>, post': Entries<K, V>)
    requires SplitAt(m, pre, k, v, post) && Distinct(m) && x != k
    ensures SplitAt(Remove(m, x), pre', k, v, post') && Keys(post') == Keys(post) - {x} && Distinct(post')
  {
    SplitKeys(m, pre, k, v, post);
    RemoveSplit(pre + [(k, v)], post, x);
    RemoveSplit(pre, [(k, v)], x);
    assert Keys(pre + [(k, v)]) == Keys(pre) + {k} by {
      AppendDistinct(pre, k, v);
    }
    assert Remove([(k, v)], x) == [(k, v)];
    RemoveKeys(post, x);
    pre', post' := Remove(pre, x), Remove(post, x);
    if x in Keys(pre) {
      Apart(m, pre, k, v, post);
      RemoveAbsent(post, x);
    } else {
      RemoveAbsent(pre, x);
    }
  }

  lemma Apart<K, V>(m: Entries<K, V>, pre: Entries<K, V>, k: K, v: V, post: Entries<K, V>)
    requires SplitAt(m, pre, k, v, post) && Distinct(m)
    ensures Keys(pre) !! Keys(post)
  {
    forall i, j | 0 <= i < |pre| && 0 <= j < |post| ensures pre[i].0 != post[j].0 {
      assert m[i] == pre[i] && m[|pre| + 1 + j] == post[j];
    }
  }

  lemma {:induction false} RemoveAbsent<K, V>(m: Entries<K, V>, x: K)
    requires x !in Keys(m)
    ensures Remove(m, x) == m
  {
    if m != [] {
      assert m[0] in m;
      assert forall e :: e in m[1..] ==> e in m;
      RemoveAbsent(m[1..], x);
    }
  }

  // Cutting to max loses the key just when max others are behind it.
  lemma CutBehind<K(!new), V(!new)>(m: Entries<K, V>, pre: Entries<K, V>, k: K, v: V, post: Entries<K, V>,
                                    max: nat, touched: set<K>, exact: bool)
    requires SplitAt(m, pre, k, v, post) && Distinct(m)
    requires Keys(post) <= touched && (exact ==> Keys(post) == touched)
    ensures Stands(Newest(m, max), max, k, v, touched, exact)
  {
    SplitKeys(m, pre, k, v, post);
    if |m| <= max {
      assert SplitAt(Newest(m, max), pre, k, v, post);
    } else {
      var d := |m| - max;
      if |post| < max {
        assert m[d..] == pre[d..] + [(k, v)] + post;
        assert SplitAt(Newest(m, max), pre[d..], k, v, post);
      } else {
        KeysCount(post);
        Subset(Keys(post), touched);
        assert m[d..] == post[d - |pre| - 1..];
        assert forall e :: e in m[d..] ==> e in post;
      }
    }
  }

  lemma StepStands<K(!new), V(!new)>(m: Entries<K, V>, max: nat, op: Op<K, V>, k: K, v: V, touched: set<K>, exact: bool)
    requires Sound(m, max) && Stands(m, max, k, v, touched, exact) && op.key != k && (exact ==> !op.Delete?)
    ensures Stands(Step(m, max, op), max, k, v, touched + (if Touches(m, op) then {op.key} else {}), exact)
  {
    var all := touched + (if Touches(m, op) then {op.key} else {});
    Subset(touched, all);
    if pre, post :| SplitAt(m, pre, k, v, post) && Keys(post) <= touched && (exact ==> Keys(post) == touched) {
      match op
      case Get(x) =>
        if Touches(m, op) {
          var pre', post' := MoveBehind(m, pre, k, v, post, x, Lookup(m, x).value);
        }
      case Set(x, w) =>
        var pre', post' := MoveBehind(m, pre, k, v, post, x, w);
        RemoveKeys(m, x);
        AppendDistinct(Remove(m, x), x, w);
        CutBehind(Remove(m, x) + [(x, w)], pre', k, v, post', max, all, exact);
      case Delete(x) =>
        var pre', post' := RemoveOther(m, pre, k, v, post, x);
    } else {
      StepAbsent(m, max, op, k);
    }
  }

  lemma StepAbsent<K, V>(m: Entries<K, V>, max: nat, op: Op<K, V>, k: K)
    requires Sound(m, max) && k !in Keys(m) && op.key != k
    ensures k !in Keys(Step(m, max, op))
  {
    match op
    case Get(x) => GetSound(m, max, x);
    case Set(x, w) => SetSound(m, max, x, w);
    case Delete(x) => RemoveKeys(m, x);
  }

  // A touch leaves the key last, with nothing behind it.
  lemma TouchStands<K(!new), V(!new)>(m: Entries<K, V>, max: nat, op: Op<K, V>, v: V)
    requires Sound(m, max)
    requires op == Set(op.key, v) || (op == Get(op.key) && Lookup(m, op.key) == Some(v))
    ensures Stands(Step(m, max, op), max, op.key, v, {}, true)
  {
    var k := op.key;
    RemoveKeys(m, k);
    AppendDistinct(Remove(m, k), k, v);
    assert SplitAt(Remove(m, k) + [(k, v)], Remove(m, k), k, v, []);
    assert Keys<K, V>([]) == {};
    CutBehind(Remove(m, k) + [(k, v)], Remove(m, k), k, v, [], max, {}, true);
    if op.Get? {
      LookupKeys(m, k);
      assert |Remove(m, k) + [(k, v)]| <= max;
    }
  }

  lemma {:induction false} RunStands<K(!new), V(!new)>(max: nat, ops: seq<Op<K, V>>, i: nat, n: nat, k: K, v: V,
                                                       exact: bool)
    requires i < n <= |ops| && ops[i].key == k
    requires ops[i] == Set(k, v) || (ops[i] == Get(k) && Lookup(State(max, ops, i), k) == Some(v))
    requires forall j :: i < j < n ==> ops[j].key != k && (exact ==> !ops[j].Delete?)
    ensures Stands(State(max, ops, n), max, k, v, Touched(max, ops, i + 1, n), exact)
    decreases n
  {
    hide Stands, Step, Sound, Touches;
    if n == i + 1 {
      StateSound(max, ops, i);
      TouchStands(State(max, ops, i), max, ops[i], v);
      Weaken(State(max, ops, n), max, k, v, exact);
    } else {
      RunStands(max, ops, i, n - 1, k, v, exact);
      StateSound(max, ops, n - 1);
      StepStands(State(max, ops, n - 1), max, ops[n - 1], k, v, Touched(max, ops, i + 1, n - 1), exact);
    }
  }

  lemma Weaken<K(!new), V(!new)>(m: Entries<K, V>, max: nat, k: K, v: V, exact: bool)
    requires Stands(m, max, k, v, {}, true)
    ensures Stands(m, max, k, v, {}, exact)
  {
  }

  lemma {:induction false} LastStoredStays<K, V>(ops: seq<Op<K, V>>, i: nat, n: nat, k: K)
    requires i <= n <= |ops| && forall j :: i <= j < n ==> ops[j].key != k
    ensures LastStored(ops, n, k) == LastStored(ops, i, k)
  {
    if i < n {
      LastStoredStays(ops, i, n - 1, k);
    }
  }

  // Retention: a key touched last at i, and not deleted since, still has the value
  // last stored under it as long as fewer than max distinct other keys have been
  // touched since. Where nothing is deleted meanwhile, no longer than that.
  lemma Retained<K(!new), V(!new)>(max: nat, ops: seq<Op<K, V>>, i: nat, n: nat, k: K)
    requires i < n <= |ops| && ops[i].key == k && Touches(State(max, ops, i), ops[i])
    requires forall j :: i < j < n ==> ops[j].key != k
    ensures LastStored(ops, n, k).Some?
    ensures |Touched(max, ops, i + 1, n)| < max ==> Lookup(State(max, ops, n), k) == LastStored(ops, n, k)
    ensures (forall j :: i < j < n ==> !ops[j].Delete?) ==>
              (Lookup(State(max, ops, n), k).Some? <==> |Touched(max, ops, i + 1, n)| < max)
  {
    hide Step, Sound, Stands, Holds;
    var m, touched := State(max, ops, n), Touched(max, ops, i + 1, n);
    LastStoredStays(ops, i + 1, n, k);
    HitIsLastStored(max, ops, i, k);
    var v := LastStored(ops, n, k).value;
    StateSound(max, ops, n);
    RunStands(max, ops, i, n, k, v, false);
    StandsMeans(m, max, k, v, touched, false);
    if forall j :: i < j < n ==> !ops[j].Delete? {
      RunStands(max, ops, i, n, k, v, true);
      StandsMeans(m, max, k, v, touched, true);
    }
  }

  lemma StandsMeans<K(!new), V(!new)>(m: Entries<K, V>, max: nat, k: K, v: V, touched: set<K>, exact: bool)
    requires Sound(m, max) && Stands(m, max, k, v, touched, exact)
    ensures |touched| < max ==> Lookup(m, k) == Some(v)
    ensures exact ==> (Lookup(m, k).Some? <==> |touched| < max)
  {
    LookupKeys(m, k);
    if pre, post :| SplitAt(m, pre, k, v, post) && Keys(post) <= touched && (exact ==> Keys(post) == touched) {
      SplitKeys(m, pre, k, v, post);
      KeysCount(post);
    }
  }

  // ----- the cache -----

  class Cache<K(==), V> {
    const max: nat
    var entries: Entries<K, V>

    constructor (max: nat)
      ensures entries == [] && this.max == max
    {
      this.max := max;
      entries := [];
    }

    method Get(key: K) returns (value: Option<V>)
      modifies this
      ensures value == Lookup(old(entries), key)
      ensures entries == Refreshed(old(entries), key)
    {
      value := Lookup(entries, key);
      if value.None? {
        return;
      }
      entries := Remove(entries, key);
      entries := entries + [(key, value.value)];
    }

    method Set(key: K, value: V)
      requires Distinct(entries)
      modifies this
      ensures entries == Stored(old(entries), max, key, value)
    {
      RemoveKeys(entries, key);
      if Lookup(entries, key).Some? {
        entries := Remove(entries, key);
      } else {
        LookupKeys(entries, key);
        RemoveAbsent(entries, key);
      }
      entries := entries + [(key, value)];
      ghost var full := entries;
      while |entries| > max
        invariant |entries| <= |full| && entries == full[|full| - |entries|..]
        invariant |entries| < |full| ==> |entries| >= max
      {
        entries := entries[1..];
      }
    }

    method Delete(key: K)
      modifies this
      ensures entries == Remove(old(entries), key)
    {
      entries := Remove(entries, key);
    }
  }
}
