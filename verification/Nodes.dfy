/** Kubelet addresses by node, and the pods that wait for their node
    (`controller/k8s/index/src/node.rs`). */
module Nodes {
  import opened Base
  import opened Net
  import Resources
  import opened IndexState

  class NodeIndex {
    var index: map<string, NodeState>

    constructor ()
      ensures index == map[]
    {
      index := map[];
    }

    /** The kubelet addresses for a pod, or none; a pod whose node is not known yet is queued. */
    method GetOrPushPending(pod: Resources.Pod) returns (ips: Option<seq<IpAddr>>)
      modifies this
      ensures var m := Resources.NodeName(pod);
              if m.Some? && IsKnown(old(index), m.value) then ips == Some(old(index)[m.value].ips) && index == old(index)
              else ips == None && index == if m.None? then old(index) else PushPending(old(index), m.value, pod)
    {
      if pod.spec.None? || pod.spec.value.nodeName.None? {
        return None;
      }
      var m := pod.spec.value.nodeName.value;
      if m in index {
        match index[m] {
          case Known(known) =>
            return Some(known);
          case Pending(pods) =>
            var inNs := if pod.ns in pods then pods[pod.ns] else map[];
            index := index[m := Pending(pods[pod.ns := inNs[pod.name := pod]])];
        }
      } else {
        index := index[m := Pending(map[pod.ns := map[pod.name := pod]])];
      }
      return None;
    }

    /** Removes a pod from the first queue that holds it, in whatever order the nodes are walked. */
    method ClearPendingPod(ns: string, pod: string) returns (cleared: bool)
      modifies this
      ensures cleared ==> exists m :: IsPending(old(index), m, ns, pod) && index == Unpend(old(index), m, ns, pod)
      ensures !cleared ==> index == old(index) && forall m :: !IsPending(index, m, ns, pod)
    {
      var todo := index.Keys;
      while todo != {}
        invariant todo <= index.Keys && index == old(index)
        invariant forall m | m in index && m !in todo :: !IsPending(index, m, ns, pod)
        decreases |todo|
      {
        var m :| m in todo;
        todo := todo - {m};
        if index[m].Pending? && ns in index[m].pods {
          var byNs := index[m].pods;
          if pod in byNs[ns] {
            index := index[m := Pending(byNs[ns := byNs[ns] - {pod}])];
            assert IsPending(old(index), m, ns, pod);
            return true;
          }
        }
      }
      return false;
    }

    /** Drops every queue. */
    method ClearPendingPods()
      modifies this
      ensures index == KnownNodes(old(index))
    {
      var pending := set m | m in index && index[m].Pending?;
      while pending != {}
        invariant pending == set m | m in index && index[m].Pending?
        invariant index.Keys <= old(index).Keys && forall m | m in index :: index[m] == old(index)[m]
        invariant forall m | m in old(index) && old(index)[m].Known? :: m in index
        decreases |pending|
      {
        var m :| m in pending;
        pending := pending - {m};
        index := index - {m};
      }
      forall m | m in index
        ensures index[m].Known?
      {
        assert m !in pending;
      }
      assert index == KnownNodes(old(index));
    }
  }
}
