/** The connector contract: the eight statuses, the confidence levels and the closed registry of identifiers. */
module Connectors {
  import opened Text

  datatype ConnectorStatus = Pending | Running | Found | Likely | NotFound | Uncertain | Blocked | Error

  datatype ConfidenceLevel = High | Medium | Low | NoConfidence

  function DeriveConfidenceLevel(score: int): ConfidenceLevel {
    if score >= 85 then High else if score >= 60 then Medium else if score >= 30 then Low else NoConfidence
  }

  const ALLOWED_CONNECTOR_IDS: set<string> := {
    "mock", "sherlock", "sherlock:github", "sherlock:reddit", "sherlock:steam",
    "oathnet", "oathnet:breach", "oathnet:stealer", "oathnet:ip", "oathnet:holehe", "oathnet:victims",
    "carrier_lookup", "carrier_lookup:offline"
  }

  lemma RegisteredNamesAreUnpadded(name: string)
    requires name in ALLOWED_CONNECTOR_IDS
    ensures Trim(name) == name
  {
    assert Unpadded(name);
    TrimIsFixedIffUnpadded(name);
  }
}
