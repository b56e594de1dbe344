/** What the connector runner writes to the shared cache and what it accepts from it. */
module ConnectorCache {
  import opened Connectors
  import opened Json
  import opened Redaction
  import opened Wrappers

  const CACHE_SCHEMA_VERSION := 1
  const MAX_LIST_ITEMS := 25
  const SAFE_DATA_KEYS: set<string> := {"category", "labels", "platform", "source", "tags"}
  const SENSITIVE_KEYS: set<string> := {
    "email", "phone", "query", "raw", "raw_query", "raw_response", "raw_target", "target", "target_value"
  }

  /** The regular expressions' view of characters, and `str()` of a value that is not a string. */
  datatype Runtime = Runtime(chars: Charset, render: Json -> string)

  datatype Evidence = Evidence(signal: string, weight: int, detail: string)

  /** The fields of a result that hold no free text; the cache carries them unchanged. */
  datatype Header = Header(
    targetType: string, status: ConnectorStatus, score: int, level: ConfidenceLevel, fetchedAt: string, elapsedMs: nat)

  datatype ConnectorResult = ConnectorResult(
    connector: string, header: Header, evidence: seq<Evidence>, warnings: seq<string>, rawUrl: Option<string>,
    data: map<string, Json>, cacheHit: bool)
  {
    predicate Valid() { forall e :: e in evidence ==> -100 <= e.weight <= 100 }
  }

  /** A payload as it comes back from the cache: anything may stand in the free fields. */
  datatype Payload = Payload(
    connector: Json, header: Header, evidence: seq<Json>, warnings: seq<Json>, rawUrl: Json, data: Json)

  datatype Cached = NotADict | Envelope(schemaVersion: int, sanitized: bool, payload: Option<Payload>)

  datatype CacheError =
    UnsupportedPayload | LegacyPayload | UnsanitizedPayload | MissingPayload | ResidualPii | InvalidResult

  // ---- Sanitizing ----

  function Text(py: Runtime, value: Json): string {
    if value.Str? then value.s else py.render(value)
  }

  /** `str(value or "")`. */
  function TextOrEmpty(py: Runtime, value: Json): string {
    if value.Truthy() then Text(py, value) else ""
  }

  function SanitizeValue(t: Charset, value: Json, target: string): Json {
    match value
    case Str(s) => Str(SanitizeText(t, s, target))
    case List(items) =>
      List(seq(if |items| <= MAX_LIST_ITEMS then |items| else MAX_LIST_ITEMS,
               i requires 0 <= i < |items| => SanitizeValue(t, items[i], target)))
    case Obj(_) => Str(REDACTED)
    case _ => value
  }

  predicate KeptKey(t: Charset, key: string) {
    var normalized := t.lower(key);
    normalized != "target_hash" && normalized !in SENSITIVE_KEYS && normalized in SAFE_DATA_KEYS
  }

  function SanitizeData(t: Charset, value: Json, hash: string, target: string): map<string, Json> {
    var kept := if value.Obj?
                then map key | key in value.fields && KeptKey(t, key) :: SanitizeValue(t, value.fields[key], target)
                else map[];
    map["target_hash" := Str(hash)] + kept
  }

  function SanitizeEvidence(py: Runtime, item: Json, target: string): Json {
    Obj(map[
      "signal" := Str(SanitizeText(py.chars, TextOrEmpty(py, item.Get("signal")), target)),
      "weight" := if item.Obj? && "weight" in item.fields then item.fields["weight"] else Int(0),
      "detail" := Str(SanitizeText(py.chars, TextOrEmpty(py, item.Get("detail")), target))])
  }

  function SanitizeEvidenceList(py: Runtime, items: seq<Json>, target: string): seq<Json> {
    if items == [] then []
    else
      (if items[0].Obj? then [SanitizeEvidence(py, items[0], target)] else [])
      + SanitizeEvidenceList(py, items[1..], target)
  }

  function SanitizeWarnings(py: Runtime, warnings: seq<Json>, target: string): seq<Json> {
    seq(|warnings|, i requires 0 <= i < |warnings| => Str(SanitizeText(py.chars, Text(py, warnings[i]), target)))
  }

  function SanitizeUrl(py: Runtime, url: Json, target: string): Json {
    if url.Null? || ContainsSensitiveText(py.chars, Text(py, url), target) then Null else Str(Text(py, url))
  }

  function Sanitize(py: Runtime, p: Payload, hash: string, target: string): Payload {
    Payload(
      Str(SanitizeText(py.chars, TextOrEmpty(py, p.connector), target)), p.header,
      SanitizeEvidenceList(py, p.evidence, target), SanitizeWarnings(py, p.warnings, target),
      SanitizeUrl(py, p.rawUrl, target), Obj(SanitizeData(py.chars, p.data, hash, target)))
  }

  /** On the way out the caller names the connector, and there is no target to look for. */
  function Resanitize(py: Runtime, p: Payload, connector: string, hash: string): Payload {
    Sanitize(py, p, hash, "").(connector := Str(connector))
  }

  // ---- Writing and reading ----

  function DumpEvidence(e: Evidence): Json {
    Obj(map["signal" := Str(e.signal), "weight" := Int(e.weight), "detail" := Str(e.detail)])
  }

  function Dump(r: ConnectorResult): Payload {
    Payload(
      Str(r.connector), r.header,
      seq(|r.evidence|, i requires 0 <= i < |r.evidence| => DumpEvidence(r.evidence[i])),
      seq(|r.warnings|, i requires 0 <= i < |r.warnings| => Str(r.warnings[i])),
      if r.rawUrl.Some? then Str(r.rawUrl.value) else Null, Obj(r.data))
  }

  function Write(py: Runtime, r: ConnectorResult, hash: string, target: string): Cached {
    Envelope(CACHE_SCHEMA_VERSION, true, Some(Sanitize(py, Dump(r), hash, target)))
  }

  predicate Sensitive(py: Runtime, text: string) {
    text != "" && ContainsSensitiveText(py.chars, text, "")
  }

  predicate EvidenceHasPii(py: Runtime, item: Json) {
    && item.Obj?
    && (Sensitive(py, TextOrEmpty(py, item.Get("signal"))) || Sensitive(py, TextOrEmpty(py, item.Get("detail"))))
  }

  predicate ValueHasPii(py: Runtime, value: Json) {
    || (value.Str? && Sensitive(py, value.s))
    || (value.List? && exists sub :: sub in value.items && sub.Str? && Sensitive(py, sub.s))
  }

  predicate HasResidualPii(py: Runtime, p: Payload) {
    || (p.connector.Str? && Sensitive(py, p.connector.s))
    || (p.rawUrl.Str? && Sensitive(py, p.rawUrl.s))
    || (exists w :: w in p.warnings && Sensitive(py, Text(py, w)))
    || (exists item :: item in p.evidence && EvidenceHasPii(py, item))
    || (p.data.Obj? && exists key :: key in p.data.fields && py.chars.lower(key) != "target_hash"
                                     && ValueHasPii(py, p.data.fields[key]))
  }

  predicate ValidWeight(item: Json) {
    item.Get("weight").Int? && -100 <= item.Get("weight").n <= 100
  }

  function LoadEvidence(item: Json): Evidence
    requires item.Get("signal").Str? && item.Get("weight").Int? && item.Get("detail").Str?
  {
    Evidence(item.Get("signal").s, item.Get("weight").n, item.Get("detail").s)
  }

  /** Validation of a re-sanitized payload: only the evidence weights can still be wrong. */
  function Validate(p: Payload): Result<ConnectorResult, CacheError>
    requires p.connector.Str? && (p.rawUrl.Null? || p.rawUrl.Str?) && p.data.Obj?
    requires forall w :: w in p.warnings ==> w.Str?
    requires forall e :: e in p.evidence ==> e.Get("signal").Str? && e.Get("detail").Str?
  {
    if exists e :: e in p.evidence && !ValidWeight(e) then Failure(InvalidResult)
    else
      Success(ConnectorResult(
        p.connector.s, p.header,
        seq(|p.evidence|, i requires 0 <= i < |p.evidence| => LoadEvidence(p.evidence[i])),
        seq(|p.warnings|, i requires 0 <= i < |p.warnings| => p.warnings[i].s),
        if p.rawUrl.Str? then Some(p.rawUrl.s) else None, p.data.fields, false))
  }

  function Read(py: Runtime, cached: Cached, connector: string, hash: string): Result<ConnectorResult, CacheError> {
    match cached
    case NotADict => Failure(UnsupportedPayload)
    case Envelope(version, sanitized, payload) =>
      if version != CACHE_SCHEMA_VERSION then Failure(LegacyPayload)
      else if !sanitized then Failure(UnsanitizedPayload)
      else if payload.None? then Failure(MissingPayload)
      else if HasResidualPii(py, payload.value) then Failure(ResidualPii)
      else
        EvidenceTextIsString(py, payload.value.evidence, "");
        Validate(Resanitize(py, payload.value, connector, hash))
  }

  lemma {:induction false} EvidenceTextIsString(py: Runtime, items: seq<Json>, target: string)
    ensures forall e :: e in SanitizeEvidenceList(py, items, target) ==> e.Get("signal").Str? && e.Get("detail").Str?
  {
    if items != [] {
      EvidenceTextIsString(py, items[1..], target);
    }
  }

  // ---- The round trip ----

  function RedactEvidence(t: Charset, e: Evidence, target: string): Evidence {
    Evidence(SanitizeText(t, e.signal, target), e.weight, SanitizeText(t, e.detail, target))
  }

  /** What a result becomes by being cached, stated on results. */
  function Redact(py: Runtime, r: ConnectorResult, hash: string, target: string): ConnectorResult {
    var t := py.chars;
    r.(
      evidence := seq(|r.evidence|, i requires 0 <= i < |r.evidence| => RedactEvidence(t, r.evidence[i], target)),
      warnings := seq(|r.warnings|, i requires 0 <= i < |r.warnings| => SanitizeText(t, r.warnings[i], target)),
      rawUrl := if r.rawUrl.Some? && !ContainsSensitiveText(t, r.rawUrl.value, target) then r.rawUrl else None,
      data := SanitizeData(t, Obj(r.data), hash, target),
      cacheHit := false)
  }

  /** Every string inside the value is free of the four patterns, lists are short and objects are gone. */
  ghost predicate SafeValue(t: Charset, value: Json) {
    match value
    case Str(s) => Redacted(t, s)
    case List(items) => |items| <= MAX_LIST_ITEMS && forall i :: 0 <= i < |items| ==> SafeValue(t, items[i])
    case Obj(_) => false
    case _ => true
  }

  lemma {:induction false} SanitizedValueIsSafe(t: Charset, value: Json, target: string)
    requires t.Standard()
    ensures SafeValue(t, SanitizeValue(t, value, target))
  {
    match value
    case Str(s) => SanitizedTextIsRedacted(t, s, target);
    case List(items) =>
      forall i | 0 <= i < |items| { SanitizedValueIsSafe(t, items[i], target); }
    case Obj(_) => MarkerIsRedacted(t);
    case _ =>
  }

  lemma {:induction false} SafeValueIsFixed(t: Charset, value: Json)
    requires SafeValue(t, value)
    ensures SanitizeValue(t, value, "") == value
  {
    match value
    case Str(s) => RedactedIsFixed(t, s);
    case List(items) =>
      forall i | 0 <= i < |items| ensures SanitizeValue(t, items[i], "") == items[i] { SafeValueIsFixed(t, items[i]); }
      assert SanitizeValue(t, value, "").items == items;
    case _ =>
  }

  /** The data part of a payload is safe and already in the form sanitizing gives it. */
  ghost predicate SafeData(t: Charset, data: map<string, Json>, hash: string) {
    && "target_hash" in data && data["target_hash"] == Str(hash)
    && forall key :: key in data && key != "target_hash" ==> KeptKey(t, key) && SafeValue(t, data[key])
  }

  lemma SanitizedDataIsSafe(t: Charset, value: Json, hash: string, target: string)
    requires t.Standard()
    ensures SafeData(t, SanitizeData(t, value, hash, target), hash)
  {
    if value.Obj? {
      forall key | key in value.fields { SanitizedValueIsSafe(t, value.fields[key], target); }
    }
  }

  lemma SafeDataIsFixed(t: Charset, data: map<string, Json>, hash: string)
    requires t.Standard() && SafeData(t, data, hash)
    ensures SanitizeData(t, Obj(data), hash, "") == data
  {
    forall key | key in data && key != "target_hash" ensures SanitizeValue(t, data[key], "") == data[key] {
      SafeValueIsFixed(t, data[key]);
    }
    var again := SanitizeData(t, Obj(data), hash, "");
    assert again.Keys == data.Keys;
  }

  lemma {:induction false} EvidenceListPointwise(py: Runtime, items: seq<Json>, target: string)
    requires forall e :: e in items ==> e.Obj?
    ensures var out := SanitizeEvidenceList(py, items, target);
            |out| == |items| && forall i :: 0 <= i < |items| ==> out[i] == SanitizeEvidence(py, items[i], target)
  {
    if items != [] {
      EvidenceListPointwise(py, items[1..], target);
    }
  }

  /** The marks of a sanitized payload: it holds strings where text belongs, all of them redacted. */
  ghost predicate SafeEvidence(t: Charset, item: Json) {
    && item.Obj? && item.fields.Keys == {"signal", "weight", "detail"}
    && item.Get("signal").Str? && Redacted(t, item.Get("signal").s)
    && item.Get("detail").Str? && Redacted(t, item.Get("detail").s)
  }

  ghost predicate SafePayload(t: Charset, p: Payload, hash: string) {
    && (forall e :: e in p.evidence ==> SafeEvidence(t, e))
    && (forall w :: w in p.warnings ==> w.Str? && Redacted(t, w.s))
    && (p.rawUrl.Null? || (p.rawUrl.Str? && Redacted(t, p.rawUrl.s)))
    && p.data.Obj? && SafeData(t, p.data.fields, hash)
  }

  lemma {:induction false} SanitizedEvidenceIsSafe(py: Runtime, items: seq<Json>, target: string)
    requires py.chars.Standard()
    ensures forall e :: e in SanitizeEvidenceList(py, items, target) ==> SafeEvidence(py.chars, e)
  {
    if items != [] {
      SanitizedEvidenceIsSafe(py, items[1..], target);
      SanitizedTextIsRedacted(py.chars, TextOrEmpty(py, items[0].Get("signal")), target);
      SanitizedTextIsRedacted(py.chars, TextOrEmpty(py, items[0].Get("detail")), target);
    }
  }

  /** Whatever it is given, with whatever target, sanitizing yields a safe payload. */
  lemma SanitizedPayloadIsSafe(py: Runtime, p: Payload, hash: string, target: string)
    requires py.chars.Standard()
    ensures SafePayload(py.chars, Sanitize(py, p, hash, target), hash)
  {
    SanitizedEvidenceIsSafe(py, p.evidence, target);
    forall i | 0 <= i < |p.warnings| { SanitizedTextIsRedacted(py.chars, Text(py, p.warnings[i]), target); }
    KeptUrlIsRedacted(py, p.rawUrl, target);
    SanitizedDataIsSafe(py.chars, p.data, hash, target);
  }

  lemma KeptUrlIsRedacted(py: Runtime, url: Json, target: string)
    requires py.chars.Standard()
    ensures var kept := SanitizeUrl(py, url, target); kept.Null? || Redacted(py.chars, kept.s)
  {
    if !SanitizeUrl(py, url, target).Null? {
      var text := Text(py, url);
      SearchIffNotClean(py.chars, Email, text);
      SearchIffNotClean(py.chars, Cpf, text);
      SearchIffNotClean(py.chars, Phone, text);
      SearchIffNotClean(py.chars, Url, text);
    }
  }

  lemma SafeItemIsFixed(py: Runtime, item: Json)
    requires SafeEvidence(py.chars, item)
    ensures SanitizeEvidence(py, item, "") == item
  {
    var signal, detail := item.fields["signal"].s, item.fields["detail"].s;
    RedactedIsFixed(py.chars, signal);
    RedactedIsFixed(py.chars, detail);
    assert TextOrEmpty(py, Str(signal)) == signal && TextOrEmpty(py, Str(detail)) == detail;
    assert SanitizeEvidence(py, item, "").fields == item.fields;
  }

  lemma SafeEvidenceIsFixed(py: Runtime, items: seq<Json>)
    requires forall e :: e in items ==> SafeEvidence(py.chars, e)
    ensures SanitizeEvidenceList(py, items, "") == items
  {
    EvidenceListPointwise(py, items, "");
    forall i | 0 <= i < |items| ensures SanitizeEvidence(py, items[i], "") == items[i] {
      SafeItemIsFixed(py, items[i]);
    }
  }

  /** Reading a safe payload changes nothing but the connector's name. */
  lemma SafePayloadIsFixed(py: Runtime, p: Payload, connector: string, hash: string)
    requires py.chars.Standard() && SafePayload(py.chars, p, hash)
    ensures Resanitize(py, p, connector, hash) == p.(connector := Str(connector))
  {
    SafeEvidenceIsFixed(py, p.evidence);
    forall i | 0 <= i < |p.warnings| ensures Str(SanitizeText(py.chars, Text(py, p.warnings[i]), "")) == p.warnings[i] {
      assert p.warnings[i] in p.warnings;
      RedactedIsFixed(py.chars, p.warnings[i].s);
    }
    if p.rawUrl.Str? {
      ResidualCheckIffNotRedacted(py.chars, p.rawUrl.s);
    }
    SafeDataIsFixed(py.chars, p.data.fields, hash);
  }

  lemma RedactedIsNotSensitive(py: Runtime, text: string)
    requires py.chars.Standard() && Redacted(py.chars, text)
    ensures !Sensitive(py, text)
  {
    ResidualCheckIffNotRedacted(py.chars, text);
  }

  /** A safe payload never looks poisoned. */
  lemma SafePayloadHasNoResidue(py: Runtime, p: Payload, hash: string)
    requires py.chars.Standard() && SafePayload(py.chars, p, hash)
    requires p.connector.Str? && Redacted(py.chars, p.connector.s)
    ensures !HasResidualPii(py, p)
  {
    RedactedIsNotSensitive(py, p.connector.s);
    if p.rawUrl.Str? { RedactedIsNotSensitive(py, p.rawUrl.s); }
    forall w | w in p.warnings ensures !Sensitive(py, Text(py, w)) { RedactedIsNotSensitive(py, w.s); }
    forall e | e in p.evidence ensures !EvidenceHasPii(py, e) {
      assert SafeEvidence(py.chars, e);
      RedactedIsNotSensitive(py, e.Get("signal").s);
      RedactedIsNotSensitive(py, e.Get("detail").s);
    }
    forall key | key in p.data.fields && py.chars.lower(key) != "target_hash"
      ensures !ValueHasPii(py, p.data.fields[key])
    {
      SafeValueHasNoPii(py, p.data.fields[key]);
    }
  }

  lemma SafeValueHasNoPii(py: Runtime, value: Json)
    requires py.chars.Standard() && SafeValue(py.chars, value)
    ensures !ValueHasPii(py, value)
  {
    if value.Str? { RedactedIsNotSensitive(py, value.s); }
    if value.List? {
      forall sub | sub in value.items && sub.Str? ensures !Sensitive(py, sub.s) {
        var i :| 0 <= i < |value.items| && value.items[i] == sub;
        assert SafeValue(py.chars, value.items[i]);
        RedactedIsNotSensitive(py, sub.s);
      }
    }
  }

  lemma LoadDumpedItem(py: Runtime, e: Evidence, target: string)
    ensures var item := SanitizeEvidence(py, DumpEvidence(e), target);
            && item.Get("signal").Str? && item.Get("weight") == Int(e.weight) && item.Get("detail").Str?
            && LoadEvidence(item) == RedactEvidence(py.chars, e, target)
  {
    var dumped := DumpEvidence(e);
    assert dumped.Get("signal") == Str(e.signal) && dumped.Get("detail") == Str(e.detail);
    assert TextOrEmpty(py, Str(e.signal)) == e.signal && TextOrEmpty(py, Str(e.detail)) == e.detail;
  }

  /** Loading a dumped and sanitized result gives the result with its texts redacted. */
  lemma LoadAfterDump(py: Runtime, r: ConnectorResult, connector: string, hash: string, target: string)
    requires r.Valid()
    ensures var p := Sanitize(py, Dump(r), hash, target).(connector := Str(connector));
            && (forall e :: e in p.evidence ==> e.Get("signal").Str? && e.Get("detail").Str?)
            && Validate(p) == Success(Redact(py, r, hash, target).(connector := connector))
  {
    var p := Sanitize(py, Dump(r), hash, target).(connector := Str(connector));
    EvidenceTextIsString(py, Dump(r).evidence, target);
    LoadDumpedEvidence(py, r, hash, target);
    var redacted := Redact(py, r, hash, target);
    forall e | e in p.evidence ensures ValidWeight(e) {
      var i :| 0 <= i < |p.evidence| && p.evidence[i] == e;
    }
    assert Validate(p).value.evidence == redacted.evidence;
    assert Validate(p).value.warnings == redacted.warnings;
  }

  lemma LoadDumpedEvidence(py: Runtime, r: ConnectorResult, hash: string, target: string)
    requires r.Valid()
    ensures var items := SanitizeEvidenceList(py, Dump(r).evidence, target);
            && |items| == |r.evidence|
            && forall i :: 0 <= i < |items| ==>
                 && ValidWeight(items[i]) && items[i].Get("signal").Str? && items[i].Get("detail").Str?
                 && LoadEvidence(items[i]) == RedactEvidence(py.chars, r.evidence[i], target)
  {
    EvidenceListPointwise(py, Dump(r).evidence, target);
    forall i | 0 <= i < |r.evidence|
      ensures var item := SanitizeEvidence(py, DumpEvidence(r.evidence[i]), target);
              && ValidWeight(item) && item.Get("signal").Str? && item.Get("detail").Str?
              && LoadEvidence(item) == RedactEvidence(py.chars, r.evidence[i], target)
    {
      assert r.evidence[i] in r.evidence;
      LoadDumpedItem(py, r.evidence[i], target);
    }
  }

  /** Every entry the runner writes is accepted when read back for the same target, and what comes back is the result
      with its texts redacted, under the name the caller gives. */
  lemma WrittenEntryReadsBack(py: Runtime, r: ConnectorResult, connector: string, hash: string, target: string)
    requires py.chars.Standard() && r.Valid()
    ensures Read(py, Write(py, r, hash, target), connector, hash)
            == Success(Redact(py, r, hash, target).(connector := connector))
  {
    var p := Sanitize(py, Dump(r), hash, target);
    SanitizedPayloadIsSafe(py, Dump(r), hash, target);
    SanitizedTextIsRedacted(py.chars, TextOrEmpty(py, Str(r.connector)), target);
    SafePayloadHasNoResidue(py, p, hash);
    SafePayloadIsFixed(py, p, connector, hash);
    EvidenceTextIsString(py, p.evidence, "");
    LoadAfterDump(py, r, connector, hash, target);
  }

  /** The free text of a result, apart from the connector's name, and the shape of its data. */
  ghost predicate FreeOfPii(t: Charset, r: ConnectorResult, hash: string) {
    && (forall i :: 0 <= i < |r.evidence| ==> Redacted(t, r.evidence[i].signal) && Redacted(t, r.evidence[i].detail))
    && (forall i :: 0 <= i < |r.warnings| ==> Redacted(t, r.warnings[i]))
    && (r.rawUrl.Some? ==> Redacted(t, r.rawUrl.value))
    && SafeData(t, r.data, hash)
  }

  /** Whatever stands in the cache, stale or poisoned, a result read from it shows no match of any pattern, at any depth
      of its data, and carries the caller's name and target hash. */
  lemma AcceptedEntryIsFreeOfPii(py: Runtime, cached: Cached, connector: string, hash: string)
    requires py.chars.Standard() && Read(py, cached, connector, hash).Success?
    ensures var r := Read(py, cached, connector, hash).value;
            FreeOfPii(py.chars, r, hash) && r.connector == connector && !r.cacheHit && r.Valid()
  {
    var p := Resanitize(py, cached.payload.value, connector, hash);
    SanitizedPayloadIsSafe(py, cached.payload.value, hash, "");
    EvidenceTextIsString(py, cached.payload.value.evidence, "");
    var r := Validate(p).value;
    forall i | 0 <= i < |r.evidence|
      ensures Redacted(py.chars, r.evidence[i].signal) && Redacted(py.chars, r.evidence[i].detail)
      ensures ValidWeight(p.evidence[i])
    {
      assert p.evidence[i] in p.evidence;
      assert SafeEvidence(py.chars, p.evidence[i]);
    }
    forall i | 0 <= i < |r.warnings| ensures Redacted(py.chars, r.warnings[i]) {
      assert p.warnings[i] in p.warnings;
    }
  }
}
