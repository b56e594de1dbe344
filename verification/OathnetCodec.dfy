/** How OathNet results are put into the search cache and taken out again. A dataclass instance is a map from its field
    names; its class is the map of defaults. */
module OathnetCodec {
  import opened Json
  import opened Wrappers

  type Record = map<string, Json>

  const RAW_KEYS: set<string> := {"raw_response", "raw"}

  const BREACH_DEFAULTS: Record := map[
    "dbname" := Str(""), "email" := Str(""), "username" := Str(""), "password" := Str(""), "ip" := Str(""),
    "domain" := Str(""), "date" := Str(""), "country" := Str(""), "discord_id" := Str(""), "phone" := Str(""),
    "data_types" := List([]), "extra_fields" := Obj(map[]), "raw" := Obj(map[])]

  const STEALER_DEFAULTS: Record := map[
    "log" := Str(""), "url" := Str(""), "domain" := List([]), "username" := Str(""), "password" := Str(""),
    "email" := List([]), "log_id" := Str(""), "pwned_at" := Str(""), "raw" := Obj(map[])]

  const META_DEFAULTS: Record := map[
    "plan" := Str(""), "used_today" := Int(0), "left_today" := Int(0), "daily_limit" := Int(0),
    "is_unlimited" := Bool(false), "duration_ms" := Float(0.0)]

  /** The fields of a result other than its records and its meta block. */
  const RESULT_DEFAULTS: Record := map[
    "success" := Bool(false), "query" := Str(""), "query_type" := Str(""), "results_found" := Int(0),
    "next_cursor" := Str(""), "stealers_found" := Int(0), "holehe_domains" := List([]), "ip_info" := Obj(map[]),
    "session_id" := Str(""), "error" := Str(""), "raw_response" := Obj(map[])]

  /** The four dataclasses involved. */
  datatype Classes = Classes(result: Record, breach: Record, stealer: Record, meta: Record)

  const OATHNET := Classes(RESULT_DEFAULTS, BREACH_DEFAULTS, STEALER_DEFAULTS, META_DEFAULTS)

  datatype OathnetResult = OathnetResult(plain: Record, breaches: seq<Record>, stealers: seq<Record>, meta: Record) {
    /** An instance has exactly the fields of its class. */
    predicate Valid(c: Classes) {
      && plain.Keys == c.result.Keys && meta.Keys == c.meta.Keys
      && (forall b :: b in breaches ==> b.Keys == c.breach.Keys)
      && (forall s :: s in stealers ==> s.Keys == c.stealer.Keys)
    }
  }

  // ---- Dropping raw payloads ----

  function DropRaw(v: Json): Json
    decreases v
  {
    match v
    case Obj(fields) => Obj(map key | key in fields && key !in RAW_KEYS :: DropRaw(fields[key]))
    case List(items) => List(seq(|items|, i requires 0 <= i < |items| => DropRaw(items[i])))
    case _ => v
  }

  function DropFields(m: Record): Record { map key | key in m && key !in RAW_KEYS :: DropRaw(m[key]) }

  datatype Step = Key(key: string) | Index(i: nat)

  /** What stands at the end of a path into a value. */
  function At(v: Json, path: seq<Step>): Option<Json> {
    if path == [] then Some(v)
    else
      match path[0]
      case Key(key) => if v.Obj? && key in v.fields then At(v.fields[key], path[1..]) else None
      case Index(i) => if v.List? && i < |v.items| then At(v.items[i], path[1..]) else None
  }

  predicate ThroughRaw(path: seq<Step>) {
    exists i :: 0 <= i < |path| && path[i].Key? && path[i].key in {"raw", "raw_response"}
  }

  /** Exactly the paths through a raw key disappear; every other path leads where it did, to the same value without its
      own raw parts. So lists keep their length and order, and every other key stays. */
  lemma {:induction false} DropRawOnPaths(v: Json, path: seq<Step>)
    ensures ThroughRaw(path) ==> At(DropRaw(v), path) == None
    ensures !ThroughRaw(path) ==>
              At(DropRaw(v), path) == (if At(v, path).Some? then Some(DropRaw(At(v, path).value)) else None)
    decreases path
  {
    if path != [] {
      ThroughRawSplits(path);
      match path[0]
      case Key(key) => if v.Obj? && key in v.fields { DropRawOnPaths(v.fields[key], path[1..]); }
      case Index(i) => if v.List? && i < |v.items| { DropRawOnPaths(v.items[i], path[1..]); }
    }
  }

  /** What dropping leaves at such a path: scalars and strings as they were, lists at their length, and objects with all
      their keys but the raw ones. */
  lemma DropRawKeepsTheRest(v: Json, path: seq<Step>)
    requires !ThroughRaw(path) && At(v, path).Some?
    ensures At(DropRaw(v), path).Some?
    ensures match At(v, path).value
            case Obj(fields) =>
              At(DropRaw(v), path).value.Obj?
              && At(DropRaw(v), path).value.fields.Keys == fields.Keys - {"raw", "raw_response"}
            case List(items) =>
              At(DropRaw(v), path).value.List? && |At(DropRaw(v), path).value.items| == |items|
            case leaf => At(DropRaw(v), path).value == leaf
  {
    DropRawOnPaths(v, path);
  }

  lemma ThroughRawSplits(path: seq<Step>)
    requires path != []
    ensures ThroughRaw(path) <==> (path[0].Key? && path[0].key in RAW_KEYS) || ThroughRaw(path[1..])
  {
    if ThroughRaw(path[1..]) {
      var i :| 0 <= i < |path[1..]| && path[1..][i].Key? && path[1..][i].key in RAW_KEYS;
      assert path[i + 1] == path[1..][i];
    }
    if i :| 0 <= i < |path| && path[i].Key? && path[i].key in RAW_KEYS {
      assert i > 0 ==> path[1..][i - 1] == path[i];
    }
  }

  lemma {:induction false} DropRawIsIdempotent(v: Json)
    ensures DropRaw(DropRaw(v)) == DropRaw(v)
    decreases v
  {
    match v
    case Obj(fields) =>
      forall key | key in fields && key !in RAW_KEYS ensures DropRaw(DropRaw(fields[key])) == DropRaw(fields[key]) {
        DropRawIsIdempotent(fields[key]);
      }
      assert DropRaw(DropRaw(v)).fields == DropRaw(v).fields;
    case List(items) =>
      forall i | 0 <= i < |items| ensures DropRaw(DropRaw(items[i])) == DropRaw(items[i]) {
        DropRawIsIdempotent(items[i]);
      }
      assert DropRaw(DropRaw(v)).items == DropRaw(v).items;
    case _ =>
  }

  // ---- The codec ----

  function Objects(records: seq<Record>): Json {
    List(seq(|records|, i requires 0 <= i < |records| => Obj(records[i])))
  }

  function AsDict(r: OathnetResult): Record {
    r.plain + map["breaches" := Objects(r.breaches), "stealers" := Objects(r.stealers), "meta" := Obj(r.meta)]
  }

  function ToCache(r: OathnetResult): Record { DropFields(AsDict(r)) }

  /** Calling a dataclass with the entries of `value` that name one of its fields. */
  function Construct(defaults: Record, value: Record): (r: Record)
    ensures r.Keys == defaults.Keys
    ensures forall key :: key in defaults ==> r[key] == if key in value then value[key] else defaults[key]
  {
    defaults + (map key | key in value && key in defaults :: value[key])
  }

  function Records(defaults: Record, items: seq<Json>): (records: seq<Record>)
    ensures |items| == 1 ==> records == if items[0].Obj? then [Construct(defaults, items[0].fields)] else []
  {
    if items == [] then []
    else (if items[0].Obj? then [Construct(defaults, items[0].fields)] else []) + Records(defaults, items[1..])
  }

  /** What iterating over `data.get(key, [])` yields, as far as objects are concerned; iterating over a number or null
      raises, and the characters of a string or the keys of an object are not objects. */
  function Iterate(data: Record, key: string): Option<seq<Json>> {
    if key !in data then Some([])
    else
      match data[key]
      case List(items) => Some(items)
      case Str(_) => Some([])
      case Obj(_) => Some([])
      case _ => None
  }

  function FromCache(c: Classes, data: Record): Option<OathnetResult> { Rebuild(c, DropFields(data)) }

  function Rebuild(c: Classes, clean: Record): Option<OathnetResult> {
    var breaches, stealers := Iterate(clean, "breaches"), Iterate(clean, "stealers");
    if breaches.None? || stealers.None? then None
    else
      Some(OathnetResult(
        Construct(c.result, clean), Records(c.breach, breaches.value), Records(c.stealer, stealers.value),
        if "meta" in clean && clean["meta"].Obj? then Construct(c.meta, clean["meta"].fields) else c.meta))
  }

  // ---- The round trip ----

  /** A dataclass instance with its raw fields back at their defaults and no raw part below its other fields. */
  function EraseRecord(defaults: Record, m: Record): Record
    requires m.Keys <= defaults.Keys
  {
    map key | key in m :: if key in RAW_KEYS then defaults[key] else DropRaw(m[key])
  }

  function EraseRecords(defaults: Record, records: seq<Record>): seq<Record>
    requires forall m :: m in records ==> m.Keys <= defaults.Keys
  {
    if records == [] then [] else [EraseRecord(defaults, records[0])] + EraseRecords(defaults, records[1..])
  }

  function Erase(c: Classes, r: OathnetResult): OathnetResult
    requires r.Valid(c)
  {
    OathnetResult(
      EraseRecord(c.result, r.plain), EraseRecords(c.breach, r.breaches),
      EraseRecords(c.stealer, r.stealers), EraseRecord(c.meta, r.meta))
  }

  lemma DropFieldsIsIdempotent(m: Record)
    ensures DropFields(DropFields(m)) == DropFields(m)
  {
    DropRawIsIdempotent(Obj(m));
  }

  /** Constructing from a dropped dictionary restores the defaults of the dropped fields and ignores foreign keys. */
  lemma ConstructDropped(defaults: Record, m: Record, foreign: Record)
    requires m.Keys == defaults.Keys && foreign.Keys !! defaults.Keys
    ensures Construct(defaults, DropFields(m + foreign)) == EraseRecord(defaults, m)
  {
  }

  lemma ConstructAlone(defaults: Record, m: Record)
    requires m.Keys == defaults.Keys
    ensures Construct(defaults, DropFields(m)) == EraseRecord(defaults, m)
  {
    assert m + map[] == m;
    ConstructDropped(defaults, m, map[]);
  }

  /** The record list keeps its length and order. */
  lemma {:induction false} RecordsOfDropped(defaults: Record, records: seq<Record>)
    requires forall m :: m in records ==> m.Keys == defaults.Keys
    ensures Records(defaults, DropRaw(Objects(records)).items) == EraseRecords(defaults, records)
    ensures |EraseRecords(defaults, records)| == |records|
  {
    if records != [] {
      var items := DropRaw(Objects(records)).items;
      assert DropRaw(Obj(records[0])) == Obj(DropFields(records[0]));
      assert items[0] == DropRaw(Obj(records[0]));
      ConstructAlone(defaults, records[0]);
      assert DropRaw(Objects(records[1..])).items == items[1..];
      RecordsOfDropped(defaults, records[1..]);
    }
  }

  lemma DictEntries(r: OathnetResult)
    ensures var clean := DropFields(AsDict(r));
            && "breaches" in clean && clean["breaches"] == DropRaw(Objects(r.breaches))
            && "stealers" in clean && clean["stealers"] == DropRaw(Objects(r.stealers))
            && "meta" in clean && clean["meta"] == Obj(DropFields(r.meta))
  {
  }

  lemma RoundTrip(c: Classes, r: OathnetResult)
    requires r.Valid(c) && {"breaches", "stealers", "meta"} !! c.result.Keys
    ensures FromCache(c, ToCache(r)) == Some(Erase(c, r))
  {
    DropFieldsIsIdempotent(AsDict(r));
    DictEntries(r);
    ConstructFromDict(c.result, r);
    RebuildEntries(c, r, DropFields(AsDict(r)));
  }

  lemma RebuildEntries(c: Classes, r: OathnetResult, clean: Record)
    requires r.Valid(c) && {"breaches", "stealers", "meta"} <= clean.Keys
    requires clean["breaches"] == DropRaw(Objects(r.breaches)) && clean["stealers"] == DropRaw(Objects(r.stealers))
    requires clean["meta"] == Obj(DropFields(r.meta))
    requires Construct(c.result, clean) == EraseRecord(c.result, r.plain)
    ensures Rebuild(c, clean) == Some(Erase(c, r))
  {
    RecordsOfDropped(c.breach, r.breaches);
    RecordsOfDropped(c.stealer, r.stealers);
    ConstructAlone(c.meta, r.meta);
    assert Iterate(clean, "breaches") == Some(DropRaw(Objects(r.breaches)).items);
    assert Iterate(clean, "stealers") == Some(DropRaw(Objects(r.stealers)).items);
  }

  lemma ConstructFromDict(defaults: Record, r: OathnetResult)
    requires r.plain.Keys == defaults.Keys && {"breaches", "stealers", "meta"} !! defaults.Keys
    ensures Construct(defaults, DropFields(AsDict(r))) == EraseRecord(defaults, r.plain)
  {
    var lists := map["breaches" := Objects(r.breaches), "stealers" := Objects(r.stealers), "meta" := Obj(r.meta)];
    assert lists.Keys == {"breaches", "stealers", "meta"};
    ConstructDropped(defaults, r.plain, lists);
  }

  lemma FieldNamesAreDistinct()
    ensures {"breaches", "stealers", "meta"} !! OATHNET.result.Keys
  {
  }

  /** Taking a result out of the cache gives the stored result with everything raw erased, at every depth, and nothing
      else changed; taking it through a second time loses nothing more. */
  lemma CacheRoundTrip(r: OathnetResult)
    requires r.Valid(OATHNET)
    ensures FromCache(OATHNET, ToCache(r)) == Some(Erase(OATHNET, r))
    ensures Erase(OATHNET, r).Valid(OATHNET)
    ensures FromCache(OATHNET, ToCache(Erase(OATHNET, r))) == Some(Erase(OATHNET, r))
  {
    FieldNamesAreDistinct();
    RoundTrip(OATHNET, r);
    EraseIsStable(OATHNET, r);
    RoundTrip(OATHNET, Erase(OATHNET, r));
  }

  lemma EraseIsStable(c: Classes, r: OathnetResult)
    requires r.Valid(c)
    ensures Erase(c, r).Valid(c) && Erase(c, Erase(c, r)) == Erase(c, r)
  {
    EraseRecordsIsIdempotent(c.breach, r.breaches);
    EraseRecordsIsIdempotent(c.stealer, r.stealers);
    EraseIsIdempotent(c.result, r.plain);
    EraseIsIdempotent(c.meta, r.meta);
  }

  lemma EraseIsIdempotent(defaults: Record, m: Record)
    requires m.Keys <= defaults.Keys
    ensures EraseRecord(defaults, EraseRecord(defaults, m)) == EraseRecord(defaults, m)
  {
    forall key | key in m { DropRawIsIdempotent(m[key]); }
  }

  lemma {:induction false} EraseRecordsIsIdempotent(defaults: Record, records: seq<Record>)
    requires forall m :: m in records ==> m.Keys == defaults.Keys
    ensures forall m :: m in EraseRecords(defaults, records) ==> m.Keys == defaults.Keys
    ensures EraseRecords(defaults, EraseRecords(defaults, records)) == EraseRecords(defaults, records)
  {
    if records != [] {
      EraseIsIdempotent(defaults, records[0]);
      EraseRecordsIsIdempotent(defaults, records[1..]);
    }
  }

  // ---- The same, field by field ----

  /** `q` has the fields of `m`: the raw ones at their defaults, the others without their own raw parts. */
  ghost predicate ErasedFrom(defaults: Record, m: Record, q: Record) {
    && q.Keys == m.Keys
    && forall key :: key in m && key in defaults ==>
         q[key] == if key == "raw" || key == "raw_response" then defaults[key] else DropRaw(m[key])
  }

  ghost predicate AllErasedFrom(defaults: Record, ms: seq<Record>, qs: seq<Record>) {
    |qs| == |ms| && forall i :: 0 <= i < |ms| ==> ErasedFrom(defaults, ms[i], qs[i])
  }

  lemma {:induction false} EraseRecordsFieldwise(defaults: Record, ms: seq<Record>)
    requires forall m :: m in ms ==> m.Keys <= defaults.Keys
    ensures AllErasedFrom(defaults, ms, EraseRecords(defaults, ms))
  {
    if ms != [] {
      EraseRecordsFieldwise(defaults, ms[1..]);
      var q := EraseRecords(defaults, ms);
      assert ErasedFrom(defaults, ms[0], q[0]);
      assert forall i :: 0 < i < |ms| ==> ms[i] == ms[1..][i - 1] && q[i] == q[1..][i - 1];
    }
  }

  /** What comes back from the cache: every field is there, the raw ones at their defaults, every other as it was but
      for raw parts below it; breaches and stealers in number and order. */
  lemma CacheKeepsEveryField(r: OathnetResult)
    requires r.Valid(OATHNET)
    ensures FromCache(OATHNET, ToCache(r)).Some?
    ensures var q := FromCache(OATHNET, ToCache(r)).value;
            && ErasedFrom(RESULT_DEFAULTS, r.plain, q.plain) && ErasedFrom(META_DEFAULTS, r.meta, q.meta)
            && AllErasedFrom(BREACH_DEFAULTS, r.breaches, q.breaches)
            && AllErasedFrom(STEALER_DEFAULTS, r.stealers, q.stealers)
  {
    CacheRoundTrip(r);
    ErasedFieldwise(OATHNET, r);
  }

  lemma ErasedFieldwise(c: Classes, r: OathnetResult)
    requires r.Valid(c)
    ensures var q := Erase(c, r);
            && ErasedFrom(c.result, r.plain, q.plain) && ErasedFrom(c.meta, r.meta, q.meta)
            && AllErasedFrom(c.breach, r.breaches, q.breaches) && AllErasedFrom(c.stealer, r.stealers, q.stealers)
  {
    EraseRecordsFieldwise(c.breach, r.breaches);
    EraseRecordsFieldwise(c.stealer, r.stealers);
  }

  lemma {:induction false} RecordsConcat(defaults: Record, a: seq<Json>, b: seq<Json>)
    ensures Records(defaults, a + b) == Records(defaults, a) + Records(defaults, b)
  {
    if a == [] {
      assert a + b == b;
    } else {
      assert (a + b)[0] == a[0] && (a + b)[1..] == a[1..] + b;
      RecordsConcat(defaults, a[1..], b);
    }
  }

  /** Decoding fails exactly if one of the two record lists is a value that cannot be iterated over. */
  lemma DecodingFailsIff(data: Record)
    ensures FromCache(OATHNET, data).None?
            <==> ("breaches" in data && Scalar(data["breaches"])) || ("stealers" in data && Scalar(data["stealers"]))
  {
    FailsIff(OATHNET, data, "breaches", "stealers");
  }

  predicate Scalar(v: Json) { v.Null? || v.Bool? || v.Int? || v.Float? }

  lemma FailsIff(c: Classes, data: Record, breaches: string, stealers: string)
    requires breaches == "breaches" && stealers == "stealers"
    ensures FromCache(c, data).None?
            <==> (breaches in data && Scalar(data[breaches])) || (stealers in data && Scalar(data[stealers]))
  {
    IterateFailsIff(data, breaches);
    IterateFailsIff(data, stealers);
  }

  lemma IterateFailsIff(data: Record, key: string)
    requires key !in RAW_KEYS
    ensures Iterate(DropFields(data), key).None? <==> key in data && Scalar(data[key])
  {
    if key in data {
      assert DropFields(data)[key] == DropRaw(data[key]);
    }
  }
}
