/** The lookup map shared by the indexer and the discovery API (`controller/k8s/index/src/lookup.rs`). */
module Lookup {
  import opened Base
  import opened Policy
  import opened Watch
  import opened IndexState

  class Writer {
    var byNs: Lookups

    constructor ()
      ensures byNs == map[]
    {
      byNs := map[];
    }

    function Contains(ns: string, pod: string): bool
      reads this
    {
      ns in byNs && pod in byNs[ns]
    }

    /** Publishes a pod's receivers. A pod that is there already is refused. */
    method Set(ns: string, pod: string, ports: map<u16, Rx>) returns (ok: bool)
      modifies this
      ensures ok == !old(Contains(ns, pod))
      ensures ok ==> byNs == SetLookup(old(byNs), ns, pod, ports)
      ensures !ok ==> byNs == old(byNs)
    {
      var pods := if ns in byNs then byNs[ns] else map[];
      if pod in pods {
        return false;
      }
      byNs := byNs[ns := pods[pod := ports]];
      return true;
    }

    /** Takes a pod's receivers out, and its namespace with the last of them. */
    method Unset(ns: string, pod: string) returns (r: Result<map<u16, Rx>>)
      modifies this
      ensures old(Contains(ns, pod)) ==> r == Ok(old(byNs)[ns][pod])
      ensures !old(Contains(ns, pod)) ==> r == Err
      ensures byNs == UnsetLookup(old(byNs), ns, pod)
    {
      if ns !in byNs {
        return Err;
      }
      var pods := byNs[ns];
      if pod !in pods {
        return Err;
      }
      var ports := pods[pod];
      pods := pods - {pod};
      byNs := byNs[ns := pods];
      if pods == map[] {
        byNs := byNs - {ns};
        assert byNs == old(byNs) - {ns};
      }
      return Ok(ports);
    }

    /** `Reader::lookup`: the receivers of one port. */
    function Find(ns: string, pod: string, port: u16): Option<Rx>
      reads this
    {
      if ns in byNs && pod in byNs[ns] && port in byNs[ns][pod] then Some(byNs[ns][pod][port]) else None
    }
  }
}
