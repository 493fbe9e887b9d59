/** Credentials: the repo's secret as both controllers copy it next to the Jobs, contract keys only. */
module Credentials {
  import opened Wrappers

  datatype Secret = Secret(data: map<string, string>, managed: bool)
  datatype Source = SourceFails | SourceAbsent | Source(data: map<string, string>)

  const CONTRACT_KEYS: set<string> :=
    {"host", "port", "datastore", "namespace", "tokenID", "tokenSecret", "fingerprint", "keyfile"}

  function ContractData(data: map<string, string>): map<string, string> {
    map k | k in data && k in CONTRACT_KEYS :: data[k]
  }

  // An absent key equals an empty value.
  function ValueOf(data: map<string, string>, key: string): string {
    if key in data then data[key] else ""
  }

  predicate ContractEqual(a: map<string, string>, b: map<string, string>) {
    forall k | k in CONTRACT_KEYS :: ValueOf(a, k) == ValueOf(b, k)
  }

  // The copy is up to date: same contract values, and labelled.
  predicate CopyCurrent(copy: Option<Secret>, data: map<string, string>) {
    copy.Some? && ContractEqual(copy.value.data, data) && copy.value.managed
  }

  // ---- what a copy holds ------------------------------------------------------------------------------------

  const COPIED: set<string> := {"host", "port", "datastore", "namespace", "tokenID", "tokenSecret", "fingerprint", "keyfile"}

  // The copy is labelled and reads, key by key, as the source does; an absent key reads as an empty one.
  ghost predicate ReadsAs(copy: Secret, data: map<string, string>) {
    copy.managed
    && forall k | k in COPIED ::
         (if k in copy.data then copy.data[k] else "") == (if k in data then data[k] else "")
  }

  // Nothing but contract keys is copied.
  ghost predicate OnlyCopied(copy: Secret, data: map<string, string>) {
    forall k | k in copy.data :: k in COPIED && k in data && copy.data[k] == data[k]
  }

  lemma CopiesExactly(data: map<string, string>)
    ensures ReadsAs(Secret(ContractData(data), true), data) && OnlyCopied(Secret(ContractData(data), true), data)
  {
    assert CONTRACT_KEYS == COPIED;
  }

  lemma CurrentExactly(copy: Option<Secret>, data: map<string, string>)
    ensures CopyCurrent(copy, ContractData(data)) <==> copy.Some? && ReadsAs(copy.value, data)
  {
    assert CONTRACT_KEYS == COPIED;
    if copy.Some? {
      forall k | k in COPIED ensures ValueOf(copy.value.data, k) == ValueOf(ContractData(data), k) <==>
          (if k in copy.value.data then copy.value.data[k] else "") == (if k in data then data[k] else "")
      {
      }
      assert ContractEqual(copy.value.data, ContractData(data)) ==>
        forall k | k in COPIED :: ValueOf(copy.value.data, k) == ValueOf(ContractData(data), k);
    }
  }
}
