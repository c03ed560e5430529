/**
 * Check identifiers: the name under which an instance's TTL check is
 * addressed in Consul's agent API.
 */
module CheckIds {

  const ServicePrefix: string := "service:"

  /** The check id of an instance: the instance id, prefixed with `service:` unless it already is. */
  function CheckId(serviceId: string): (checkId: string)
    ensures ServicePrefix <= checkId
    ensures |checkId| - |serviceId| in {0, |ServicePrefix|}
    ensures checkId[|checkId| - |serviceId|..] == serviceId
  {
    if !(ServicePrefix <= serviceId) then ServicePrefix + serviceId else serviceId
  }

  /** Deriving a check id from a check id changes nothing. */
  lemma CheckIdIdempotent(serviceId: string)
    ensures CheckId(CheckId(serviceId)) == CheckId(serviceId)
  {
  }

  /** An id that already carries the prefix is its own check id; any other id gets the prefix. */
  lemma CheckIdCases(serviceId: string)
    ensures ServicePrefix <= serviceId ==> CheckId(serviceId) == serviceId
    ensures !(ServicePrefix <= serviceId) ==> CheckId(serviceId) == ServicePrefix + serviceId
  {
  }

  /**
   * Two instance ids share a check exactly when they are equal, or one is
   * the other with the prefix added to an id that did not carry it.
   */
  lemma SameCheckId(a: string, b: string)
    ensures CheckId(a) == CheckId(b) <==>
              a == b
              || (a == ServicePrefix + b && !(ServicePrefix <= b))
              || (b == ServicePrefix + a && !(ServicePrefix <= a))
  {
  }

  /** The instances `abc-1` and `service:abc-1` renew the same check. */
  lemma CheckIdExamples()
    ensures CheckId("abc-1") == "service:abc-1"
    ensures CheckId("service:abc-1") == "service:abc-1"
  {
  }
}
