/** The status tracker: the four status tokens, the status key kept beside
    every cached key, and the transition a write applies to the status. */
module Status {

  const Empty: string := "0"
  const Unchecked: string := "1"
  const Checked: string := "2"
  const Dirty: string := "3"

  const Suffix: string := "/status"

  predicate IsStatusKey(s: string) {
    |s| >= |Suffix| && s[|s| - |Suffix|..] == Suffix
  }

  /** The caller key a status key belongs to. */
  function BaseKey(s: string): string
    requires IsStatusKey(s)
  {
    s[..|s| - |Suffix|]
  }

  /** The key under which the status of `key` is stored. */
  function StatusKey(key: string): (r: string)
    ensures IsStatusKey(r) && BaseKey(r) == key
    ensures |r| == |key| + |Suffix|
  {
    key + Suffix
  }

  /** Distinct caller keys have distinct status keys. */
  lemma StatusKeyInjective(k1: string, k2: string)
    ensures StatusKey(k1) == StatusKey(k2) <==> k1 == k2
  {
  }

  /** Every status key is the status key of its base key. */
  lemma StatusKeyOfBase(s: string)
    requires IsStatusKey(s)
    ensures StatusKey(BaseKey(s)) == s
  {
  }

  /** A key and its status key are never the same key, so the two writes of
      SetObject land on two different keys. */
  lemma StatusKeyIsOtherKey(key: string)
    ensures StatusKey(key) != key
  {
  }

  /** The status SetObject writes, given whether the key existed and the
      status stored for it. */
  function NextStatus(present: bool, stored: string): (r: string)
    ensures !present ==> r == Unchecked
    ensures present && stored == Unchecked ==> r == Dirty
    ensures present && stored != Unchecked ==> r == Unchecked
    ensures r != Empty && r != Checked
  {
    if present && stored == Unchecked then Dirty else Unchecked
  }
}
