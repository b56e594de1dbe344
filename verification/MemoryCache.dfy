/** The in-memory cache backend, and the timed map it implements. */
module MemoryCache {
  import opened Wrappers

  datatype Key = Key(endpoint: string, query: string)

  /** The serialized value and the instant it stops being served. */
  datatype Item = Item(expires: int, text: string)

  /** What a caller may hand to `set`: nothing, a value JSON cannot express, or one it can, as its text. */
  datatype Value = Nothing | Unserializable | Serialized(text: string, bytes: nat)

  datatype Op =
    | Get(key: Key, now: int)
    | Set(key: Key, value: Value, ttl: Option<int>, now: int)
    | Stats(now: int)
    | Shutdown(now: int)

  /** `readable` tells whether a text can be parsed back. */
  datatype Config = Config(ttl: int, maxBytes: nat, readable: string -> bool)

  datatype Cache = Cache(items: map<Key, Item>, hits: nat, misses: nat, errors: nat)

  const EMPTY := Cache(map[], 0, 0, 0)

  predicate Accepted(c: Config, value: Value) { value.Serialized? && value.bytes <= c.maxBytes }

  function Expiry(c: Config, ttl: Option<int>, now: int): int { now + if ttl.Some? then ttl.value else c.ttl }

  predicate Unreadable(c: Config, s: Cache, key: Key, now: int) {
    key in s.items && s.items[key].expires > now && !c.readable(s.items[key].text)
  }

  function Answer(c: Config, s: Cache, key: Key, now: int): Option<string> {
    if key in s.items && s.items[key].expires > now && c.readable(s.items[key].text)
    then Some(s.items[key].text)
    else None
  }

  function Apply(c: Config, s: Cache, op: Op): Cache {
    match op
    case Get(key, now) =>
      if Answer(c, s, key, now).Some? then s.(hits := s.hits + 1)
      else
        s.(items := s.items - {key}, misses := s.misses + 1,
           errors := if Unreadable(c, s, key, now) then s.errors + 1 else s.errors)
    case Set(key, value, ttl, now) =>
      if value.Nothing? then s
      else if !Accepted(c, value) then s.(errors := s.errors + 1)
      else s.(items := s.items[key := Item(Expiry(c, ttl, now), value.text)])
    case Stats(now) => s.(items := map key | key in s.items && s.items[key].expires > now :: s.items[key])
    case Shutdown(_) => s.(items := map[])
  }

  class InMemoryCacheBackend {
    const config: Config
    /** Lower-casing and stripping of the query. */
    const normalize: string -> string
    var items: map<Key, Item>
    var hits: nat
    var misses: nat
    var errors: nat

    function State(): Cache reads this { Cache(items, hits, misses, errors) }

    function KeyOf(endpoint: string, query: string): Key { Key(endpoint, normalize(query)) }

    constructor (config: Config, normalize: string -> string)
      ensures State() == EMPTY && this.config == config && this.normalize == normalize
    {
      this.config, this.normalize := config, normalize;
      items, hits, misses, errors := map[], 0, 0, 0;
    }

    method Get(endpoint: string, query: string, now: int) returns (r: Option<string>)
      modifies this
      ensures r == old(Answer(config, State(), KeyOf(endpoint, query), now))
      ensures State() == old(Apply(config, State(), Op.Get(KeyOf(endpoint, query), now)))
      ensures var key, before := Key(endpoint, normalize(query)), old(items);
              var current := key in before && before[key].expires > now;
              && (r.Some? <==> current && config.readable(before[key].text))
              && (r.Some? ==> r.value == before[key].text)
              && items == (if r.Some? then before else before - {key})
              && hits == old(hits) + (if r.Some? then 1 else 0) && misses == old(misses) + (if r.Some? then 0 else 1)
              && errors == old(errors) + if current && r.None? then 1 else 0
    {
      var key := KeyOf(endpoint, query);
      if key !in items {
        misses := misses + 1;
        assert items - {key} == items;
        return None;
      }
      var item := items[key];
      if item.expires <= now {
        items := items - {key};
        misses := misses + 1;
        return None;
      }
      if !config.readable(item.text) {
        items := items - {key};
        errors := errors + 1;
        misses := misses + 1;
        return None;
      }
      hits := hits + 1;
      return Some(item.text);
    }

    method Set(endpoint: string, query: string, value: Value, ttl: Option<int>, now: int)
      modifies this
      ensures State() == old(Apply(config, State(), Op.Set(KeyOf(endpoint, query), value, ttl, now)))
      ensures var stored := value.Serialized? && value.bytes <= config.maxBytes;
              && items == (if !stored then old(items)
                           else
                             var expires := now + if ttl.Some? then ttl.value else config.ttl;
                             old(items)[Key(endpoint, normalize(query)) := Item(expires, value.text)])
              && errors == old(errors) + (if stored || value.Nothing? then 0 else 1)
              && hits == old(hits) && misses == old(misses)
    {
      match value
      case Nothing =>
      case Unserializable => errors := errors + 1;
      case Serialized(text, bytes) =>
        if bytes > config.maxBytes {
          errors := errors + 1;
        } else {
          items := items[KeyOf(endpoint, query) := Item(Expiry(config, ttl, now), text)];
        }
    }

    /** Collects the expired keys first and then removes them one by one. */
    method Stats(now: int) returns (entries: nat)
      modifies this
      ensures State() == old(Apply(config, State(), Op.Stats(now))) && entries == |items|
      ensures items == map key | key in old(items) && old(items)[key].expires > now :: old(items)[key]
      ensures hits == old(hits) && misses == old(misses) && errors == old(errors)
    {
      var expired := set key | key in items && items[key].expires <= now;
      ghost var purged := map key | key in items && items[key].expires > now :: items[key];
      while expired != {}
        invariant forall key :: key in expired ==> key in items && items[key].expires <= now
        invariant purged == map key | key in items && items[key].expires > now :: items[key]
        invariant forall key :: key in items && items[key].expires <= now ==> key in expired
        invariant hits == old(hits) && misses == old(misses) && errors == old(errors)
        decreases |expired|
      {
        var key :| key in expired;
        items := items - {key};
        expired := expired - {key};
      }
      assert items == purged;
      entries := |items|;
    }

    method Shutdown(now: int)
      modifies this
      ensures State() == old(Apply(config, State(), Op.Shutdown(now)))
      ensures items == map[] && hits == old(hits) && misses == old(misses) && errors == old(errors)
    {
      items := map[];
    }
  }

  // ---- The timed map ----

  function Run(c: Config, trace: seq<Op>): Cache {
    if trace == [] then EMPTY else Apply(c, Run(c, trace[..|trace| - 1]), trace[|trace| - 1])
  }

  /** The last accepted `set` for the key since the last shutdown: the whole meaning of the cache. */
  function Latest(c: Config, trace: seq<Op>, key: Key): Option<Item> {
    if trace == [] then None
    else
      var before := trace[..|trace| - 1];
      match trace[|trace| - 1]
      case Set(k, value, ttl, now) =>
        if k == key && Accepted(c, value) then Some(Item(Expiry(c, ttl, now), value.text)) else Latest(c, before, key)
      case Shutdown(_) => None
      case _ => Latest(c, before, key)
  }

  predicate Clocked(trace: seq<Op>) {
    forall i, j :: 0 <= i <= j < |trace| ==> trace[i].now <= trace[j].now
  }

  predicate Reached(trace: seq<Op>, now: int) {
    trace != [] ==> trace[|trace| - 1].now <= now
  }

  lemma {:induction false} ItemsAreLatest(c: Config, trace: seq<Op>, key: Key)
    requires Clocked(trace)
    ensures var items := Run(c, trace).items;
            && (key in items ==> Latest(c, trace, key) == Some(items[key]))
            && (key !in items && Latest(c, trace, key).Some? ==>
                  var item := Latest(c, trace, key).value;
                  trace != [] && (item.expires <= trace[|trace| - 1].now || !c.readable(item.text)))
  {
    if trace != [] {
      var before := trace[..|trace| - 1];
      ItemsAreLatest(c, before, key);
      assert before != [] ==> before[|before| - 1].now <= trace[|trace| - 1].now;
    }
  }

  /** After any history with a clock that does not run backwards, `get` answers with the last accepted `set` for that
      key exactly while it is unexpired, if it can be parsed back. Rejected values, other keys, purges by `stats` and
      earlier gets do not show. */
  lemma {:induction false} GetAnswersTheTimedMap(c: Config, trace: seq<Op>, key: Key, now: int)
    requires Clocked(trace) && Reached(trace, now)
    ensures Answer(c, Run(c, trace), key, now)
            == match Latest(c, trace, key)
               case Some(item) => (if item.expires > now && c.readable(item.text) then Some(item.text) else None)
               case None => None
  {
    ItemsAreLatest(c, trace, key);
  }

  /** None of these operations stores anything under the key, or empties the cache. */
  predicate LeaveAlone(c: Config, ops: seq<Op>, key: Key) {
    forall i :: 0 <= i < |ops| ==>
      && !ops[i].Shutdown?
      && (ops[i].Set? && ops[i].key == key ==> !ops[i].value.Serialized? || ops[i].value.bytes > c.maxBytes)
  }

  lemma {:induction false} LatestSince(c: Config, before: seq<Op>, op: Op, later: seq<Op>, key: Key)
    requires LeaveAlone(c, later, key)
    ensures Latest(c, before + [op] + later, key) == Latest(c, before + [op], key)
    decreases |later|
  {
    var trace := before + [op] + later;
    if later == [] {
      assert trace == before + [op];
    } else {
      var n := |later| - 1;
      assert trace[..|trace| - 1] == before + [op] + later[..n] && trace[|trace| - 1] == later[n];
      LatestSince(c, before, op, later[..n], key);
    }
  }

  /** What was stored is served, whatever else happens to the cache, until its time-to-live is over: that of the call,
      or the default if the call gave none. */
  lemma StoredIsServedUntilExpiry(c: Config, before: seq<Op>, key: Key, text: string, bytes: nat, ttl: Option<int>,
                                  at: int, later: seq<Op>, now: int)
    requires bytes <= c.maxBytes && c.readable(text) && LeaveAlone(c, later, key)
    requires var trace := before + [Set(key, Serialized(text, bytes), ttl, at)] + later;
             Clocked(trace) && Reached(trace, now)
    ensures var trace := before + [Set(key, Serialized(text, bytes), ttl, at)] + later;
            Answer(c, Run(c, trace), key, now)
            == if now < at + (if ttl.Some? then ttl.value else c.ttl) then Some(text) else None
  {
    var op := Set(key, Serialized(text, bytes), ttl, at);
    var trace := before + [op] + later;
    assert (before + [op])[..|before + [op]| - 1] == before;
    LatestSince(c, before, op, later, key);
    GetAnswersTheTimedMap(c, trace, key, now);
  }

  /** What was not stored since the cache was last emptied is not served. */
  lemma UnstoredIsMissing(c: Config, before: seq<Op>, at: int, later: seq<Op>, key: Key, now: int)
    requires LeaveAlone(c, later, key)
    requires var trace := before + [Shutdown(at)] + later; Clocked(trace) && Reached(trace, now)
    ensures Answer(c, Run(c, before + [Shutdown(at)] + later), key, now) == None
  {
    var op := Shutdown(at);
    assert (before + [op])[..|before + [op]| - 1] == before;
    LatestSince(c, before, op, later, key);
    GetAnswersTheTimedMap(c, before + [op] + later, key, now);
  }

  function Gets(trace: seq<Op>): nat {
    if trace == [] then 0 else Gets(trace[..|trace| - 1]) + if trace[|trace| - 1].Get? then 1 else 0
  }

  lemma {:induction false} EveryGetIsCounted(c: Config, trace: seq<Op>)
    ensures Run(c, trace).hits + Run(c, trace).misses == Gets(trace)
  {
    if trace != [] {
      EveryGetIsCounted(c, trace[..|trace| - 1]);
    }
  }

  /** Purging is invisible: with or without a `stats` call in between, the next get answers the same. */
  lemma StatsIsInvisible(c: Config, s: Cache, key: Key, at: int, now: int)
    requires at <= now
    ensures Answer(c, Apply(c, s, Stats(at)), key, now) == Answer(c, s, key, now)
  {
  }
}
