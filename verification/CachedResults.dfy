/** What the connector cache keeps of a result and what it accepts, spelled out on keys, values and texts. */
module CachedResults {
  import opened ConnectorCache
  import opened Json
  import opened Redaction
  import opened Sequences
  import opened Wrappers

  // ---- Values ----

  /** `w` is what sanitizing may make of `v`: strings are redacted, lists cut after 25 items, objects replaced by the
      marker, and everything else is as it was. */
  ghost predicate Becomes(t: Charset, v: Json, w: Json, target: string) {
    match v
    case Str(s) => w == Str(SanitizeText(t, s, target))
    case List(items) =>
      && w.List? && |w.items| == (if |items| > 25 then 25 else |items|)
      && forall i :: 0 <= i < |w.items| ==> Becomes(t, items[i], w.items[i], target)
    case Obj(_) => w == Str("[redacted]")
    case _ => w == v
  }

  lemma {:induction false} SanitizedValueBecomes(t: Charset, v: Json, target: string)
    ensures Becomes(t, v, SanitizeValue(t, v, target), target)
  {
    if v.List? {
      forall i | 0 <= i < |v.items| ensures Becomes(t, v.items[i], SanitizeValue(t, v.items[i], target), target) {
        SanitizedValueBecomes(t, v.items[i], target);
      }
    }
  }

  /** The relation leaves no choice. */
  lemma {:induction false} BecomesIsFunctional(t: Charset, v: Json, w: Json, w': Json, target: string)
    requires Becomes(t, v, w, target) && Becomes(t, v, w', target)
    ensures w == w'
  {
    if v.List? {
      forall i | 0 <= i < |w.items| ensures w.items[i] == w'.items[i] {
        BecomesIsFunctional(t, v.items[i], w.items[i], w'.items[i], target);
      }
    }
  }

  // ---- Data ----

  /** The keys that a data object keeps. */
  predicate Allowed(t: Charset, key: string) {
    t.lower(key) in {"category", "labels", "platform", "source", "tags"}
  }

  /** Of `fields` the allowed keys are left, each with its sanitized value, and the target's hash. */
  ghost predicate KeepsAllowed(
    t: Charset, fields: map<string, Json>, data: map<string, Json>, hash: string, target: string)
  {
    && data.Keys == {"target_hash"} + (set key | key in fields && Allowed(t, key))
    && data["target_hash"] == Str(hash)
    && forall key :: key in fields && Allowed(t, key) ==> Becomes(t, fields[key], data[key], target)
  }

  lemma AllowedIsKept(t: Charset, key: string)
    ensures KeptKey(t, key) <==> Allowed(t, key)
  {
  }

  lemma SanitizedDataKeepsAllowed(t: Charset, fields: map<string, Json>, hash: string, target: string)
    requires t.Standard()
    ensures KeepsAllowed(t, fields, SanitizeData(t, Obj(fields), hash, target), hash, target)
  {
    var data := SanitizeData(t, Obj(fields), hash, target);
    forall key | key in fields ensures KeptKey(t, key) <==> Allowed(t, key) { AllowedIsKept(t, key); }
    assert !KeptKey(t, "target_hash");
    forall key | key in fields && Allowed(t, key) ensures Becomes(t, fields[key], data[key], target) {
      SanitizedValueBecomes(t, fields[key], target);
    }
  }

  /** Whatever the data part is: an object loses all but its allowed keys, anything else everything. */
  lemma OnlyAllowedKeysSurvive(t: Charset, value: Json, hash: string, target: string)
    requires t.Standard()
    ensures var data := SanitizeData(t, value, hash, target);
            if value.Obj? then KeepsAllowed(t, value.fields, data, hash, target)
            else data == map["target_hash" := Str(hash)]
  {
    if value.Obj? {
      SanitizedDataKeepsAllowed(t, value.fields, hash, target);
    }
  }

  // ---- Results ----

  /** `q` is `r` with its texts redacted, its address dropped if it shows anything, its data cut down to the allowed
      keys, and the mark of a cache hit cleared. */
  ghost predicate IsRedactionOf(py: Runtime, r: ConnectorResult, q: ConnectorResult, hash: string, target: string) {
    var t := py.chars;
    && q.header == r.header && !q.cacheHit
    && |q.evidence| == |r.evidence|
    && (forall i :: 0 <= i < |q.evidence| ==>
          && q.evidence[i].weight == r.evidence[i].weight
          && q.evidence[i].signal == SanitizeText(t, r.evidence[i].signal, target)
          && q.evidence[i].detail == SanitizeText(t, r.evidence[i].detail, target))
    && |q.warnings| == |r.warnings|
    && (forall i :: 0 <= i < |q.warnings| ==> q.warnings[i] == SanitizeText(t, r.warnings[i], target))
    && (q.rawUrl.Some? <==> r.rawUrl.Some? && !ContainsSensitiveText(t, r.rawUrl.value, target))
    && (q.rawUrl.Some? ==> q.rawUrl == r.rawUrl)
    && KeepsAllowed(t, r.data, q.data, hash, target)
  }

  /** Every entry the runner writes is accepted when read back for the same target, and gives the redaction of what was
      written, under the caller's name. */
  lemma WrittenEntryIsRedaction(py: Runtime, r: ConnectorResult, connector: string, hash: string, target: string)
    requires py.chars.Standard() && r.Valid()
    ensures var answer := Read(py, Write(py, r, hash, target), connector, hash);
            answer.Success? && answer.value.connector == connector && IsRedactionOf(py, r, answer.value, hash, target)
  {
    WrittenEntryReadsBack(py, r, connector, hash, target);
    SanitizedDataKeepsAllowed(py.chars, r.data, hash, target);
  }

  /** What is stored in the first place: an envelope of schema version 1, marked as sanitized, with the header and the
      allowed data of the result and its texts redacted. */
  lemma StoredEntryIsRedacted(py: Runtime, r: ConnectorResult, hash: string, target: string)
    requires py.chars.Standard()
    ensures var cached := Write(py, r, hash, target);
            && cached.Envelope? && cached.schemaVersion == 1 && cached.sanitized && cached.payload.Some?
            && var p := cached.payload.value;
               && p.header == r.header && p.connector == Str(SanitizeText(py.chars, r.connector, target))
               && p.data.Obj? && KeepsAllowed(py.chars, r.data, p.data.fields, hash, target)
               && |p.warnings| == |r.warnings|
               && (forall i :: 0 <= i < |r.warnings| ==>
                     p.warnings[i] == Str(SanitizeText(py.chars, r.warnings[i], target)))
               && (r.rawUrl.None? || ContainsSensitiveText(py.chars, r.rawUrl.value, target) ==> p.rawUrl == Null)
               && p.evidence == SanitizeEvidenceList(py, Dump(r).evidence, target)
  {
    SanitizedDataKeepsAllowed(py.chars, r.data, hash, target);
  }

  /** The same of its evidence. */
  lemma StoredEvidenceIsRedacted(py: Runtime, r: ConnectorResult, target: string)
    ensures var items := SanitizeEvidenceList(py, Dump(r).evidence, target);
            && |items| == |r.evidence|
            && forall i :: 0 <= i < |r.evidence| ==>
                 && items[i].Get("signal") == Str(SanitizeText(py.chars, r.evidence[i].signal, target))
                 && items[i].Get("detail") == Str(SanitizeText(py.chars, r.evidence[i].detail, target))
                 && items[i].Get("weight") == Int(r.evidence[i].weight)
  {
    EvidenceListPointwise(py, Dump(r).evidence, target);
    forall i | 0 <= i < |r.evidence|
      ensures var item := SanitizeEvidence(py, DumpEvidence(r.evidence[i]), target);
              && item.Get("signal") == Str(SanitizeText(py.chars, r.evidence[i].signal, target))
              && item.Get("detail") == Str(SanitizeText(py.chars, r.evidence[i].detail, target))
              && item.Get("weight") == Int(r.evidence[i].weight)
    {
      LoadDumpedItem(py, r.evidence[i], target);
    }
  }

  // ---- What is accepted ----

  /** `text` is one of the payload's strings that the residual check looks at. */
  ghost predicate Shows(py: Runtime, p: Payload, text: string) {
    || p.connector == Str(text)
    || p.rawUrl == Str(text)
    || (exists w: Json :: w in p.warnings && text == if w.Str? then w.s else py.render(w))
    || (exists item: Json :: item in p.evidence && EvidenceShows(py, item, text))
    || (p.data.Obj? && exists key :: key in p.data.fields && py.chars.lower(key) != "target_hash"
                                     && ValueShows(p.data.fields[key], text))
  }

  predicate EvidenceShows(py: Runtime, item: Json, text: string) {
    && item.Obj?
    && exists v: Json :: v in {item.Get("signal"), item.Get("detail")}
                         && text == if !v.Truthy() then "" else if v.Str? then v.s else py.render(v)
  }

  predicate ValueShows(value: Json, text: string) {
    value == Str(text) || (value.List? && Str(text) in value.items)
  }

  ghost predicate Poisoned(py: Runtime, p: Payload) {
    exists text :: Shows(py, p, text) && !Redacted(py.chars, text)
  }

  lemma SensitiveIffNotRedacted(py: Runtime, text: string)
    requires py.chars.Standard()
    ensures Sensitive(py, text) <==> !Redacted(py.chars, text)
  {
    ResidualCheckIffNotRedacted(py.chars, text);
    if text == "" { EmptyIsRedacted(py.chars); }
  }

  lemma ShownIsFlagged(py: Runtime, p: Payload, text: string)
    requires Shows(py, p, text) && Sensitive(py, text)
    ensures HasResidualPii(py, p)
  {
    if w: Json :| w in p.warnings && text == if w.Str? then w.s else py.render(w) {
    } else if item: Json :| item in p.evidence && EvidenceShows(py, item, text) {
      assert EvidenceHasPii(py, item);
    } else if p.connector != Str(text) && p.rawUrl != Str(text) {
      var key :| key in p.data.fields && py.chars.lower(key) != "target_hash" && ValueShows(p.data.fields[key], text);
      assert ValueHasPii(py, p.data.fields[key]);
    }
  }

  lemma FlaggedIsShown(py: Runtime, p: Payload) returns (text: string)
    requires HasResidualPii(py, p)
    ensures Shows(py, p, text) && Sensitive(py, text)
  {
    if p.connector.Str? && Sensitive(py, p.connector.s) {
      text := p.connector.s;
    } else if p.rawUrl.Str? && Sensitive(py, p.rawUrl.s) {
      text := p.rawUrl.s;
    } else if w :| w in p.warnings && Sensitive(py, ConnectorCache.Text(py, w)) {
      text := ConnectorCache.Text(py, w);
    } else if item :| item in p.evidence && EvidenceHasPii(py, item) {
      var signal := TextOrEmpty(py, item.Get("signal"));
      text := if Sensitive(py, signal) then signal else TextOrEmpty(py, item.Get("detail"));
      assert EvidenceShows(py, item, text);
    } else {
      var key :| key in p.data.fields && py.chars.lower(key) != "target_hash" && ValueHasPii(py, p.data.fields[key]);
      text := FlaggedValueShows(py, p.data.fields[key]);
    }
  }

  lemma FlaggedValueShows(py: Runtime, value: Json) returns (text: string)
    requires ValueHasPii(py, value)
    ensures ValueShows(value, text) && Sensitive(py, text)
  {
    if value.Str? {
      text := value.s;
    } else {
      var sub :| sub in value.items && sub.Str? && Sensitive(py, sub.s);
      text := sub.s;
    }
  }

  /** The residual check flags exactly the payloads that show a text which is not redacted. */
  lemma FlaggedIffPoisoned(py: Runtime, p: Payload)
    requires py.chars.Standard()
    ensures HasResidualPii(py, p) <==> Poisoned(py, p)
  {
    if HasResidualPii(py, p) {
      var text := FlaggedIsShown(py, p);
      SensitiveIffNotRedacted(py, text);
    }
    if text :| Shows(py, p, text) && !Redacted(py.chars, text) {
      SensitiveIffNotRedacted(py, text);
      ShownIsFlagged(py, p, text);
    }
  }

  /** No weight, or an integer between -100 and 100. */
  predicate WeightInRange(item: Json) {
    item.Obj? && "weight" in item.fields ==>
      match item.fields["weight"]
      case Int(n) => -100 <= n <= 100
      case _ => false
  }

  lemma WeightStays(py: Runtime, item: Json, target: string)
    requires item.Obj?
    ensures ValidWeight(SanitizeEvidence(py, item, target)) <==> WeightInRange(item)
  {
    var weight := if "weight" in item.fields then item.fields["weight"] else Int(0);
    assert SanitizeEvidence(py, item, target).Get("weight") == weight;
  }

  lemma {:induction false} WeightsStay(py: Runtime, items: seq<Json>, target: string)
    ensures (forall e :: e in SanitizeEvidenceList(py, items, target) ==> ValidWeight(e))
            <==> forall item :: item in items ==> WeightInRange(item)
  {
    if items != [] {
      WeightsStay(py, items[1..], target);
      if items[0].Obj? { WeightStay(py, items, target); }
      assert forall item :: item in items <==> item == items[0] || item in items[1..];
    }
  }

  lemma WeightStay(py: Runtime, items: seq<Json>, target: string)
    requires items != [] && items[0].Obj?
    ensures var first, rest := SanitizeEvidence(py, items[0], target), SanitizeEvidenceList(py, items[1..], target);
            && (forall e :: e in SanitizeEvidenceList(py, items, target) <==> e == first || e in rest)
            && (ValidWeight(first) <==> WeightInRange(items[0]))
  {
    WeightStays(py, items[0], target);
  }

  /** An entry is accepted exactly if it is an envelope of schema version 1 that is marked as sanitized and holds a
      payload which shows no text that is not redacted and whose evidence weights are in range. */
  lemma AcceptedIff(py: Runtime, cached: Cached, connector: string, hash: string)
    requires py.chars.Standard()
    ensures Read(py, cached, connector, hash).Success? <==>
              && cached.Envelope? && cached.schemaVersion == 1 && cached.sanitized && cached.payload.Some?
              && !Poisoned(py, cached.payload.value)
              && forall item :: item in cached.payload.value.evidence ==> WeightInRange(item)
  {
    if cached.Envelope? && cached.payload.Some? {
      FlaggedIffPoisoned(py, cached.payload.value);
      EvidenceTextIsString(py, cached.payload.value.evidence, "");
      WeightsStay(py, cached.payload.value.evidence, "");
    }
  }

  /** Whatever was accepted: the header is the entry's, the data holds the allowed keys and nothing else, the warnings
      are the entry's, redacted, and the address is the entry's unless it shows anything. */
  lemma AcceptedDataIsAllowed(py: Runtime, cached: Cached, connector: string, hash: string)
    requires py.chars.Standard() && Read(py, cached, connector, hash).Success?
    ensures var r, p := Read(py, cached, connector, hash).value, cached.payload.value;
            && r.header == p.header
            && (if p.data.Obj? then KeepsAllowed(py.chars, p.data.fields, r.data, hash, "")
                else r.data == map["target_hash" := Str(hash)])
            && |r.warnings| == |p.warnings|
            && forall i :: 0 <= i < |r.warnings| ==>
                 var w := p.warnings[i];
                 r.warnings[i] == SanitizeText(py.chars, if w.Str? then w.s else py.render(w), "")
    ensures var r, url := Read(py, cached, connector, hash).value, cached.payload.value.rawUrl;
            var text := if url.Str? then url.s else py.render(url);
            r.rawUrl == if url.Null? || ContainsSensitiveText(py.chars, text, "") then None else Some(text)
  {
    var p := cached.payload.value;
    EvidenceTextIsString(py, p.evidence, "");
    OnlyAllowedKeysSurvive(py.chars, p.data, hash, "");
  }

  predicate IsObject(item: Json) { item.Obj? }

  /** A string as it is, nothing for what counts as false, and otherwise how the value is rendered. */
  predicate Reads(py: Runtime, value: Json, text: string) {
    text == if !value.Truthy() then "" else if value.Str? then value.s else py.render(value)
  }

  /** `e` is the evidence item with its texts redacted; a missing weight is zero. */
  ghost predicate IsRedactedItem(py: Runtime, item: Json, e: Evidence) {
    && (exists s :: Reads(py, item.Get("signal"), s) && e.signal == SanitizeText(py.chars, s, ""))
    && (exists s :: Reads(py, item.Get("detail"), s) && e.detail == SanitizeText(py.chars, s, ""))
    && (item.Obj? && "weight" in item.fields ==> item.fields["weight"] == Int(e.weight))
    && (item.Obj? && "weight" !in item.fields ==> e.weight == 0)
  }

  lemma {:induction false} OnlyObjectsCount(py: Runtime, items: seq<Json>, target: string)
    ensures SanitizeEvidenceList(py, items, target) == SanitizeEvidenceList(py, Filter(items, IsObject), target)
  {
    if items != [] {
      OnlyObjectsCount(py, items[1..], target);
      assert items[0].Obj? ==> Filter(items, IsObject)[1..] == Filter(items[1..], IsObject);
    }
  }

  lemma LoadedItemIsRedacted(py: Runtime, item: Json)
    requires item.Obj? && ValidWeight(SanitizeEvidence(py, item, ""))
    ensures var out := SanitizeEvidence(py, item, "");
            out.Get("signal").Str? && out.Get("detail").Str? && IsRedactedItem(py, item, LoadEvidence(out))
  {
    var out := SanitizeEvidence(py, item, "");
    assert out.Get("weight") == if "weight" in item.fields then item.fields["weight"] else Int(0);
    assert Reads(py, item.Get("signal"), TextOrEmpty(py, item.Get("signal")));
    assert Reads(py, item.Get("detail"), TextOrEmpty(py, item.Get("detail")));
  }

  /** The same of every item of the list. */
  ghost predicate AreRedactedItems(py: Runtime, items: seq<Json>, es: seq<Evidence>) {
    |es| == |items| && forall i :: 0 <= i < |items| ==> IsRedactedItem(py, items[i], es[i])
  }

  predicate Loadable(item: Json) { ValidWeight(item) && item.Get("signal").Str? && item.Get("detail").Str? }

  lemma LoadedItemsAreRedacted(py: Runtime, items: seq<Json>, out: seq<Json>, es: seq<Evidence>)
    requires out == SanitizeEvidenceList(py, items, "") && forall item :: item in items ==> item.Obj?
    requires |es| == |out| && forall i :: 0 <= i < |out| ==> Loadable(out[i]) && es[i] == LoadEvidence(out[i])
    ensures AreRedactedItems(py, items, es)
  {
    EvidenceListPointwise(py, items, "");
    forall i | 0 <= i < |items| ensures IsRedactedItem(py, items[i], es[i]) {
      assert items[i] in items && Loadable(out[i]);
      LoadedItemIsRedacted(py, items[i]);
    }
  }

  lemma AcceptedIsLoaded(py: Runtime, cached: Cached, connector: string, hash: string, out: seq<Json>)
    requires Read(py, cached, connector, hash).Success?
    requires out == SanitizeEvidenceList(py, cached.payload.value.evidence, "")
    ensures var es := Read(py, cached, connector, hash).value.evidence;
            |es| == |out| && forall i :: 0 <= i < |out| ==> Loadable(out[i]) && es[i] == LoadEvidence(out[i])
  {
    EvidenceTextIsString(py, cached.payload.value.evidence, "");
    forall i | 0 <= i < |out| ensures Loadable(out[i]) { assert out[i] in out; }
  }

  /** The evidence that comes out is that of the entry's evidence items that are objects, in their order. */
  lemma AcceptedEvidenceIsRedacted(py: Runtime, cached: Cached, connector: string, hash: string)
    requires Read(py, cached, connector, hash).Success?
    ensures AreRedactedItems(py, Filter(cached.payload.value.evidence, IsObject),
                             Read(py, cached, connector, hash).value.evidence)
  {
    var all := cached.payload.value.evidence;
    var objects, out := Filter(all, IsObject), SanitizeEvidenceList(py, all, "");
    FilterMembers(all, IsObject);
    OnlyObjectsCount(py, all, "");
    AcceptedIsLoaded(py, cached, connector, hash, out);
    LoadedItemsAreRedacted(py, objects, out, Read(py, cached, connector, hash).value.evidence);
  }
}
