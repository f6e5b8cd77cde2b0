/**
 * Plan and addon entitlements (`ChargebeeObjMetadata`).
 *
 * organisations/chargebee/metadata.py is not part of this model. Its class
 * is assumed to hold the three counted entitlements `seats`, `api_calls`
 * and `projects` (0 when absent) and an optional `chargebee_email`; `+`
 * adds the entitlements field by field and keeps the left operand's
 * email, and `* n` multiplies every entitlement by `n`. Construction from a
 * metadata dictionary keeps the three known keys and drops every other key.
 */
module Metadata {
  import opened Wrappers

  /** A `meta_data` dictionary of the billing provider, its values already integers. */
  type MetaDict = map<string, int>

  datatype ObjMetadata = ObjMetadata(seats: int, apiCalls: int, projects: int, chargebeeEmail: Option<string>)

  const SeatsKey: string := "seats"
  const ApiCallsKey: string := "api_calls"
  const ProjectsKey: string := "projects"

  /** No entitlements and no email. */
  const NoMetadata: ObjMetadata := ObjMetadata(0, 0, 0, None)

  predicate IsKnownKey(key: string) {
    key == SeatsKey || key == ApiCallsKey || key == ProjectsKey
  }

  /** The entry under `key`, 0 when absent. */
  function Entry(d: MetaDict, key: string): int {
    if key in d then d[key] else 0
  }

  /** `ChargebeeObjMetadata(**meta_data)`: the known keys become fields, the rest is dropped. */
  function FromDict(d: MetaDict): (m: ObjMetadata)
    ensures SeatsKey in d ==> m.seats == d[SeatsKey]
    ensures SeatsKey !in d ==> m.seats == 0
    ensures ApiCallsKey in d ==> m.apiCalls == d[ApiCallsKey]
    ensures ApiCallsKey !in d ==> m.apiCalls == 0
    ensures ProjectsKey in d ==> m.projects == d[ProjectsKey]
    ensures ProjectsKey !in d ==> m.projects == 0
    ensures m.chargebeeEmail.None?
  {
    ObjMetadata(Entry(d, SeatsKey), Entry(d, ApiCallsKey), Entry(d, ProjectsKey), None)
  }

  /** `a + b`: entitlements add up; the email of `a` is kept. */
  function Add(a: ObjMetadata, b: ObjMetadata): ObjMetadata {
    ObjMetadata(a.seats + b.seats, a.apiCalls + b.apiCalls, a.projects + b.projects, a.chargebeeEmail)
  }

  /** `m * n`: every entitlement multiplied by `n`. */
  function Scale(m: ObjMetadata, n: int): ObjMetadata {
    ObjMetadata(m.seats * n, m.apiCalls * n, m.projects * n, m.chargebeeEmail)
  }

  /** Construction reads the known keys and nothing else: dropping every other key changes nothing. */
  lemma FromDictReadsKnownKeys(d: MetaDict)
    ensures FromDict(d) == FromDict(map k | k in d && IsKnownKey(k) :: d[k])
  {
  }

  /** Adding or changing an unknown key does not change the constructed metadata. */
  lemma FromDictIgnoresUnknownKey(d: MetaDict, key: string, value: int)
    requires !IsKnownKey(key)
    ensures FromDict(d[key := value]) == FromDict(d)
  {
  }
}
