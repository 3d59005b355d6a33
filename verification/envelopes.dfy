/**
 Envelopes as destinations see them. A version is everything a version or event
 hash covers, so the (injective) hash is represented by the version itself; the
 observation is the part the hash leaves out and a re-read may change.
 */
module Envelopes {
  import opened Wrappers

  datatype EnvelopeOperation = Snapshot | Upsert | Delete

  datatype Cell = Null | Text(text: string)

  /** A record's cells with their column order; every other payload kind is `Content`. */
  datatype Payload = Record(columns: seq<string>, row: map<string, Cell>) | Content(text: string) | Tombstone

  datatype Version = Version(
    id: string,
    source: string,
    stream: string,
    operation: EnvelopeOperation,
    payload: Payload,
    key: Option<map<string, Cell>>)

  datatype Envelope = Envelope(version: Version, observed: string)

  /** What a write leaves behind and how many changes it reports. */
  datatype Written<D> = Written(dest: D, count: int)

  /** The versions of a batch, without the observations. */
  function Versions(batch: seq<Envelope>): (versions: seq<Version>)
    ensures |versions| == |batch|
    ensures forall i :: 0 <= i < |batch| ==> versions[i] == batch[i].version
  {
    seq(|batch|, i requires 0 <= i < |batch| => batch[i].version)
  }
}
