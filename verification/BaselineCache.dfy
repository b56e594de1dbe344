/** The negative-baseline cache: a bounded map in least-recently-used order, with expiry. */
module BaselineCache {
  import opened Wrappers

  const CACHE_TTL_SECONDS := 3600

  /** Platform name and hour bucket. */
  datatype Key = Key(platform: string, bucket: int)

  datatype Entry<V> = Entry(key: Key, expires: int, value: V)

  /** What happens to the cache between two suspension points of `get_baseline`; calls may interleave freely. */
  datatype Op<V> = Lookup(key: Key, now: int) | Store(key: Key, value: V, now: int)

  // ---- The ordered dictionary: oldest entry first ----

  predicate Has<V>(s: seq<Entry<V>>, key: Key) { exists i :: 0 <= i < |s| && s[i].key == key }

  function Find<V>(s: seq<Entry<V>>, key: Key): (i: nat)
    requires Has(s, key)
    ensures i < |s| && s[i].key == key
  {
    if s[0].key == key then 0 else 1 + Find(s[1..], key)
  }

  function Without<V>(s: seq<Entry<V>>, key: Key): seq<Entry<V>> {
    if Has(s, key) then s[..Find(s, key)] + s[Find(s, key) + 1..] else s
  }

  function Newest<V>(s: seq<Entry<V>>, n: nat): seq<Entry<V>> {
    if |s| <= n then s else s[|s| - n..]
  }

  function Hit<V>(s: seq<Entry<V>>, key: Key, now: int): Option<V> {
    if Has(s, key) && s[Find(s, key)].expires > now then Some(s[Find(s, key)].value) else None
  }

  function Apply<V>(n: nat, s: seq<Entry<V>>, op: Op<V>): seq<Entry<V>> {
    match op
    case Lookup(key, now) =>
      if Hit(s, key, now).Some? then Without(s, key) + [s[Find(s, key)]] else Without(s, key)
    case Store(key, value, now) =>
      Newest(Without(s, key) + [Entry(key, now + CACHE_TTL_SECONDS, value)], n)
  }

  class BaselineCache<V(!new)> {
    const maxEntries: nat
    var entries: seq<Entry<V>>

    constructor (maxEntries: nat)
      ensures entries == [] && this.maxEntries == maxEntries
    {
      this.maxEntries := maxEntries;
      entries := [];
    }

    method Lookup(key: Key, now: int) returns (r: Option<V>)
      modifies this
      ensures r == old(Hit(entries, key, now))
      ensures entries == old(Apply(maxEntries, entries, Op.Lookup(key, now)))
      ensures r.Some? ==>
                exists i :: 0 <= i < |old(entries)| && old(entries)[i] == Entry(key, old(entries)[i].expires, r.value)
                            && old(entries)[i].expires > now
                            && entries == old(entries)[..i] + old(entries)[i + 1..] + [old(entries)[i]]
      ensures r.None? ==>
                if exists i :: 0 <= i < |old(entries)| && old(entries)[i].key == key
                then
                  exists i :: 0 <= i < |old(entries)| && old(entries)[i].key == key && old(entries)[i].expires <= now
                              && entries == old(entries)[..i] + old(entries)[i + 1..]
                else entries == old(entries)
    {
      if !Has(entries, key) {
        return None;
      }
      var i := Find(entries, key);
      var cached := entries[i];
      if cached.expires > now {
        entries := entries[..i] + entries[i + 1..] + [cached];
        return Some(cached.value);
      }
      entries := entries[..i] + entries[i + 1..];
      return None;
    }

    method Remember(key: Key, value: V, now: int)
      modifies this
      ensures entries == old(Apply(maxEntries, entries, Store(key, value, now)))
    {
      entries := Without(entries, key) + [Entry(key, now + CACHE_TTL_SECONDS, value)];
      ghost var full := entries;
      while |entries| > maxEntries
        invariant |entries| <= |full| && entries == full[|full| - |entries|..]
        invariant |entries| >= if |full| <= maxEntries then |full| else maxEntries
        decreases |entries|
      {
        entries := entries[1..];
      }
    }

    method Clear()
      modifies this
      ensures entries == []
    {
      entries := [];
    }
  }

  // ---- What the cache holds after any history ----

  function Run<V>(n: nat, s: seq<Entry<V>>, ops: seq<Op<V>>): seq<Entry<V>> {
    if ops == [] then s else Apply(n, Run(n, s, ops[..|ops| - 1]), ops[|ops| - 1])
  }

  /** Storing puts the entry, good for an hour, at the end, and drops from the front what exceeds the bound. */
  lemma StoreAppends<V>(n: nat, s: seq<Entry<V>>, key: Key, value: V, now: int)
    requires forall i :: 0 <= i < |s| ==> s[i].key != key
    ensures var full := s + [Entry(key, now + 3600, value)];
            Apply(n, s, Store(key, value, now)) == if |full| <= n then full else full[|full| - n..]
  {
  }

  /** What was there under the key goes first. */
  lemma StoreReplaces<V>(n: nat, s: seq<Entry<V>>, key: Key, value: V, now: int, i: nat)
    requires i < |s| && s[i].key == key && forall k :: 0 <= k < i ==> s[k].key != key
    ensures var full := s[..i] + s[i + 1..] + [Entry(key, now + 3600, value)];
            Apply(n, s, Store(key, value, now)) == if |full| <= n then full else full[|full| - n..]
  {
    FirstIsFound(s, key, i);
  }

  lemma {:induction false} FirstIsFound<V>(s: seq<Entry<V>>, key: Key, i: nat)
    requires i < |s| && s[i].key == key && forall k :: 0 <= k < i ==> s[k].key != key
    ensures Find(s, key) == i
  {
    if i > 0 {
      assert s[1..][i - 1] == s[i];
      FirstIsFound(s[1..], key, i - 1);
    }
  }

  predicate Distinct<V>(s: seq<Entry<V>>) {
    forall i, j :: 0 <= i < j < |s| ==> s[i].key != s[j].key
  }

  lemma WithoutKeepsOthers<V>(s: seq<Entry<V>>, key: Key)
    requires Distinct(s)
    ensures Distinct(Without(s, key)) && !Has(Without(s, key), key) && |Without(s, key)| <= |s|
    ensures forall e :: e in Without(s, key) <==> e in s && e.key != key
  {
    if Has(s, key) {
      var i := Find(s, key);
      assert s == s[..i] + [s[i]] + s[i + 1..];
    }
  }

  /** The bound holds and no key is there twice. */
  predicate Wellformed<V>(n: nat, s: seq<Entry<V>>) { Distinct(s) && |s| <= n }

  lemma ApplyKeepsShape<V>(n: nat, s: seq<Entry<V>>, op: Op<V>)
    requires Wellformed(n, s)
    ensures Wellformed(n, Apply(n, s, op))
  {
    WithoutKeepsOthers(s, op.key);
  }

  /** The cache never exceeds its bound, after any history. */
  lemma {:induction false} BoundedAndDistinct<V>(n: nat, s: seq<Entry<V>>, ops: seq<Op<V>>)
    requires Wellformed(n, s)
    ensures Wellformed(n, Run(n, s, ops))
  {
    if ops != [] {
      BoundedAndDistinct(n, s, ops[..|ops| - 1]);
      ApplyKeepsShape(n, Run(n, s, ops[..|ops| - 1]), ops[|ops| - 1]);
    }
  }

  /** The last fetch stored under the key. */
  function LastStore<V>(ops: seq<Op<V>>, key: Key): Option<Op<V>> {
    if ops == [] then None
    else
      var op := ops[|ops| - 1];
      if op.Store? && op.key == key then Some(op) else LastStore(ops[..|ops| - 1], key)
  }

  lemma ApplyKeepsOrStores<V(!new)>(n: nat, s: seq<Entry<V>>, op: Op<V>, e: Entry<V>)
    requires Distinct(s) && e in Apply(n, s, op)
    ensures || (op.Store? && e == Entry(op.key, op.now + CACHE_TTL_SECONDS, op.value))
            || (e in s && (op.Store? ==> e.key != op.key))
  {
    WithoutKeepsOthers(s, op.key);
    if op.Store? {
      var full := Without(s, op.key) + [Entry(op.key, op.now + CACHE_TTL_SECONDS, op.value)];
      assert e in full;
    }
  }

  lemma {:induction false} EntryIsLastStore<V(!new)>(n: nat, ops: seq<Op<V>>, e: Entry<V>)
    requires e in Run(n, [], ops)
    ensures var last := LastStore(ops, e.key);
            last.Some? && last.value.Store? && e == Entry(e.key, last.value.now + CACHE_TTL_SECONDS, last.value.value)
  {
    var m := |ops| - 1;
    BoundedAndDistinct(n, [], ops[..m]);
    ApplyKeepsOrStores(n, Run(n, [], ops[..m]), ops[m], e);
    if !(ops[m].Store? && ops[m].key == e.key) {
      EntryIsLastStore(n, ops[..m], e);
    }
  }

  /** Every hit returns the fetch stored last for that key, stored less than the time-to-live ago. */
  lemma HitIsLatestAndFresh<V(!new)>(n: nat, ops: seq<Op<V>>, key: Key, now: int)
    requires Hit(Run(n, [], ops), key, now).Some?
    ensures var last := LastStore(ops, key);
            && last.Some? && last.value.Store?
            && Hit(Run(n, [], ops), key, now) == Some(last.value.value) && now - last.value.now < CACHE_TTL_SECONDS
  {
    var s := Run(n, [], ops);
    EntryIsLastStore(n, ops, s[Find(s, key)]);
  }

  // ---- Retention ----

  /** The operation uses its key: it stores it, or finds it. */
  predicate Touches<V>(s: seq<Entry<V>>, op: Op<V>) {
    op.Store? || Hit(s, op.key, op.now).Some?
  }

  /** The keys that `ops`, run from `s`, use. */
  function Touched<V>(n: nat, s: seq<Entry<V>>, ops: seq<Op<V>>): set<Key> {
    if ops == [] then {}
    else
      var before, op := ops[..|ops| - 1], ops[|ops| - 1];
      Touched(n, s, before) + if Touches(Run(n, s, before), op) then {op.key} else {}
  }

  /** `e` is in the cache and only keys of `others` are more recent. */
  ghost predicate Behind<V>(s: seq<Entry<V>>, e: Entry<V>, others: set<Key>) {
    exists p :: IsBehind(s, e, others, p)
  }

  ghost predicate IsBehind<V>(s: seq<Entry<V>>, e: Entry<V>, others: set<Key>, p: int) {
    0 <= p < |s| && s[p] == e && forall q :: p < q < |s| ==> s[q].key in others
  }

  lemma {:induction false} DistinctKeysFit<V>(s: seq<Entry<V>>, keys: set<Key>)
    requires Distinct(s) && forall q :: 0 <= q < |s| ==> s[q].key in keys
    ensures |s| <= |keys|
  {
    if s != [] {
      assert forall q :: 0 <= q < |s[1..]| ==> s[1..][q].key in keys - {s[0].key};
      DistinctKeysFit(s[1..], keys - {s[0].key});
    }
  }

  lemma BehindWithout<V>(s: seq<Entry<V>>, e: Entry<V>, others: set<Key>, key: Key)
    requires Distinct(s) && Behind(s, e, others) && key != e.key
    ensures Behind(Without(s, key), e, others)
  {
    var p :| IsBehind(s, e, others, p);
    if Has(s, key) {
      var i := Find(s, key);
      var out := Without(s, key);
      assert forall q :: 0 <= q < |out| ==> out[q] == if q < i then s[q] else s[q + 1];
      assert IsBehind(out, e, others, if p < i then p else p - 1);
    }
  }

  lemma BehindAppend<V>(s: seq<Entry<V>>, e: Entry<V>, others: set<Key>, x: Entry<V>)
    requires Behind(s, e, others)
    ensures Behind(s + [x], e, others + {x.key})
  {
    var p :| IsBehind(s, e, others, p);
    assert IsBehind(s + [x], e, others + {x.key}, p);
  }

  /** With fewer than `n` keys more recent, eviction does not reach the entry. */
  lemma BehindNewest<V>(n: nat, s: seq<Entry<V>>, e: Entry<V>, others: set<Key>)
    requires Distinct(s) && Behind(s, e, others) && |others| < n
    ensures Behind(Newest(s, n), e, others)
  {
    var p :| IsBehind(s, e, others, p);
    DistinctKeysFit(s[p + 1..], others);
    if |s| > n {
      assert IsBehind(Newest(s, n), e, others, p - (|s| - n));
    }
  }

  lemma {:induction false} SubsetFits(a: set<Key>, b: set<Key>)
    requires a <= b
    ensures |a| <= |b|
  {
    if k :| k in a {
      SubsetFits(a - {k}, b - {k});
    }
  }

  lemma BehindIsHit<V>(s: seq<Entry<V>>, e: Entry<V>, others: set<Key>, now: int)
    requires Distinct(s) && Behind(s, e, others) && now < e.expires
    ensures Hit(s, e.key, now) == Some(e.value)
  {
    var p :| IsBehind(s, e, others, p);
    assert Has(s, e.key) && Find(s, e.key) == p;
  }

  /** A step on another key leaves the entry behind at most that key more. */
  lemma BehindAfter<V>(n: nat, s: seq<Entry<V>>, op: Op<V>, e: Entry<V>, others: set<Key>)
    requires Distinct(s) && Behind(s, e, others) && op.key != e.key
    requires Touches(s, op) ==> |others + {op.key}| < n
    ensures Behind(Apply(n, s, op), e, if Touches(s, op) then others + {op.key} else others)
  {
    var rest := Without(s, op.key);
    WithoutKeepsOthers(s, op.key);
    BehindWithout(s, e, others, op.key);
    if op.Store? {
      var x := Entry(op.key, op.now + CACHE_TTL_SECONDS, op.value);
      BehindAppend(rest, e, others, x);
      BehindNewest(n, rest + [x], e, others + {op.key});
    } else if Hit(s, op.key, op.now).Some? {
      BehindAppend(rest, e, others, s[Find(s, op.key)]);
    }
  }

  lemma TouchedIsLast<V>(n: nat, s: seq<Entry<V>>, op: Op<V>) returns (e: Entry<V>)
    requires Distinct(s) && |s| <= n && Touches(s, op) && 0 < n
    ensures e.key == op.key && Behind(Apply(n, s, op), e, {})
  {
    var out := Apply(n, s, op);
    e := out[|out| - 1];
    assert IsBehind(out, e, {}, |out| - 1);
  }

  /** An unexpired entry whose key the step does not use stays behind the keys it was behind, and that of the step. */
  lemma StaysBehindStep<V(!new)>(n: nat, s: seq<Entry<V>>, op: Op<V>, e: Entry<V>, others: set<Key>, used: set<Key>)
    requires Distinct(s) && Behind(s, e, others) && op.now < e.expires
    requires used == (if Touches(s, op) then {op.key} else {}) && e.key !in used && |others + used| < n
    ensures Behind(Apply(n, s, op), e, others + used)
  {
    BehindIsHit(s, e, others, op.now);
    assert op.key != e.key;
    BehindAfter(n, s, op, e, others);
    assert others + {} == others;
  }

  /** While other keys are used, fewer than `n` of them, only those become more recent than an unexpired entry. */
  lemma {:induction false} StaysBehind<V(!new)>(n: nat, s: seq<Entry<V>>, ops: seq<Op<V>>, e: Entry<V>)
    requires Wellformed(n, s) && Behind(s, e, {}) && e.key !in Touched(n, s, ops) && |Touched(n, s, ops)| < n
    requires forall i :: 0 <= i < |ops| ==> ops[i].now < e.expires
    ensures Behind(Run(n, s, ops), e, Touched(n, s, ops))
    decreases |ops|
  {
    if ops != [] {
      var before, op := ops[..|ops| - 1], ops[|ops| - 1];
      SubsetFits(Touched(n, s, before), Touched(n, s, ops));
      StaysBehind(n, s, before, e);
      BoundedAndDistinct(n, s, before);
      StaysBehindStep(n, Run(n, s, before), op, e, Touched(n, s, before),
                      if Touches(Run(n, s, before), op) then {op.key} else {});
    }
  }

  /** Least-recently-used retention. Take the last use of a key and any operations after it that leave the key alone and
      use fewer than `n` others: a lookup then still finds what that last use left, if it is unexpired. */
  lemma {:induction false} Retention<V(!new)>(n: nat, s: seq<Entry<V>>, use: Op<V>, after: seq<Op<V>>, now: int)
    requires Wellformed(n, s) && Touches(s, use)
    requires use.key !in Touched(n, Apply(n, s, use), after) && |Touched(n, Apply(n, s, use), after)| < n
    requires forall i :: 0 <= i < |after| ==> after[i].now <= now
    requires Hit(Apply(n, s, use), use.key, now).Some?
    ensures Hit(Run(n, Apply(n, s, use), after), use.key, now) == Hit(Apply(n, s, use), use.key, now)
  {
    var start := Apply(n, s, use);
    ApplyKeepsShape(n, s, use);
    var e := TouchedIsLast(n, s, use);
    ExpiryOf(start, e, now);
    StaysBehind(n, start, after, e);
    BoundedAndDistinct(n, start, after);
    BehindIsHit(Run(n, start, after), e, Touched(n, start, after), now);
  }

  /** So what was stored is found, as it was stored, for an hour. */
  lemma {:induction false} StoredIsFound<V(!new)>(n: nat, s: seq<Entry<V>>, key: Key, value: V, at: int,
                                                  after: seq<Op<V>>, now: int)
    requires 0 < n && Wellformed(n, s)
    requires var start := Apply(n, s, Store(key, value, at));
             key !in Touched(n, start, after) && |Touched(n, start, after)| < n
    requires (forall i :: 0 <= i < |after| ==> after[i].now <= now) && now < at + 3600
    ensures Hit(Run(n, Apply(n, s, Store(key, value, at)), after), key, now) == Some(value)
  {
    var use := Store(key, value, at);
    ApplyKeepsShape(n, s, use);
    var out := Apply(n, s, use);
    var e := Entry(key, at + CACHE_TTL_SECONDS, value);
    assert out[|out| - 1] == e;
    assert IsBehind(out, e, {}, |out| - 1);
    BehindIsHit(out, e, {}, now);
    Retention(n, s, use, after, now);
  }

  lemma ExpiryOf<V>(s: seq<Entry<V>>, e: Entry<V>, now: int)
    requires Distinct(s) && Behind(s, e, {}) && Hit(s, e.key, now).Some?
    ensures now < e.expires && Hit(s, e.key, now) == Some(e.value)
  {
    var p :| IsBehind(s, e, {}, p);
    assert Find(s, e.key) == p;
  }

  // ---- The bound is sharp ----

  /** The last entries are the ones stored by `stores`, in order. */
  predicate EndsWith<V>(s: seq<Entry<V>>, stores: seq<Op<V>>) {
    |stores| <= |s| && forall k :: |s| - |stores| <= k < |s| ==> s[k].key == stores[k - (|s| - |stores|)].key
  }

  predicate FreshStores<V>(stores: seq<Op<V>>) {
    && (forall i :: 0 <= i < |stores| ==> stores[i].Store?)
    && (forall i, j :: 0 <= i < j < |stores| ==> stores[i].key != stores[j].key)
  }

  lemma TailSurvives<V>(s: seq<Entry<V>>, stores: seq<Op<V>>, key: Key)
    requires EndsWith(s, stores) && forall i :: 0 <= i < |stores| ==> stores[i].key != key
    ensures EndsWith(Without(s, key), stores)
  {
    if Has(s, key) {
      var i, start, rest := Find(s, key), |s| - |stores|, Without(s, key);
      assert i < start by {
        assert forall k :: start <= k < |s| ==> s[k].key != key;
      }
      assert forall k :: i <= k < |rest| ==> rest[k] == s[k + 1];
    }
  }

  lemma StoreExtendsTail<V>(n: nat, s: seq<Entry<V>>, stores: seq<Op<V>>, op: Op<V>)
    requires EndsWith(s, stores) && |stores| < n && op.Store?
    requires forall i :: 0 <= i < |stores| ==> stores[i].key != op.key
    ensures EndsWith(Apply(n, s, op), stores + [op])
  {
    TailSurvives(s, stores, op.key);
    var full := Without(s, op.key) + [Entry(op.key, op.now + CACHE_TTL_SECONDS, op.value)];
    assert EndsWith(full, stores + [op]);
    NewestKeepsTail(n, full, stores + [op]);
  }

  lemma NewestKeepsTail<V>(n: nat, s: seq<Entry<V>>, stores: seq<Op<V>>)
    requires EndsWith(s, stores) && |stores| <= n
    ensures EndsWith(Newest(s, n), stores)
  {
    var out := Newest(s, n);
    assert forall k :: 0 <= k < |out| ==> out[k] == s[k + (|s| - |out|)];
  }

  lemma {:induction false} StoresFillTail<V>(n: nat, s: seq<Entry<V>>, stores: seq<Op<V>>)
    requires Distinct(s) && |s| <= n && |stores| <= n && FreshStores(stores)
    ensures Distinct(Run(n, s, stores)) && |Run(n, s, stores)| <= n && EndsWith(Run(n, s, stores), stores)
    decreases |stores|
  {
    if stores != [] {
      var m := |stores| - 1;
      StoresFillTail(n, s, stores[..m]);
      ApplyKeepsShape(n, Run(n, s, stores[..m]), stores[m]);
      StoreExtendsTail(n, Run(n, s, stores[..m]), stores[..m], stores[m]);
      assert stores == stores[..m] + [stores[m]];
    }
  }

  /** Storing `n` other keys always pushes an entry out. */
  lemma EvictedByNewKeys<V>(n: nat, s: seq<Entry<V>>, stores: seq<Op<V>>, key: Key)
    requires Distinct(s) && |s| <= n && |stores| == n && FreshStores(stores)
    requires forall i :: 0 <= i < n ==> stores[i].key != key
    ensures !Has(Run(n, s, stores), key)
  {
    StoresFillTail(n, s, stores);
  }
}
