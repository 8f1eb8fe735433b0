/** Order does not matter: whatever order distinct resources first arrive in, every port ends up with
    the same policy. */
module Convergence {
  import opened Base
  import opened Net
  import opened Policy
  import opened Ports
  import Resources
  import opened IndexState
  import opened Cluster
  import opened Agreement

  // --- Runs that only apply, each object once -------------------------------------------

  datatype Key = NodeKey(name: string) | PodKey(id: Id) | ServerKey(id: Id) | AuthzKey(id: Id)

  predicate Applies(op: Op) {
    op.ApplyNode? || op.ApplyPod? || op.ApplyServer? || op.ApplyAuthz?
  }

  function KeyOf(op: Op): Key
    requires Applies(op)
  {
    match op
    case ApplyNode(n) => NodeKey(n.name)
    case ApplyPod(p) => PodKey(Id(p.ns, p.name))
    case ApplyServer(v) => ServerKey(Id(v.ns, v.name))
    case ApplyAuthz(a) => AuthzKey(Id(a.ns, a.name))
  }

  /** Every operation applies an object, and none is applied twice. */
  ghost predicate EachOnce(l: seq<Op>) {
    && (forall op | op in l :: Applies(op))
    && (forall i, j | 0 <= i < j < |l| :: KeyOf(l[i]) != KeyOf(l[j]))
  }

  lemma EachOnceSnoc(l: seq<Op>, op: Op)
    requires EachOnce(l + [op])
    ensures EachOnce(l) && Applies(op) && forall o | o in l :: Applies(o) && KeyOf(o) != KeyOf(op)
  {
    var l' := l + [op];
    assert op in l' && l'[|l|] == op;
    assert forall i | 0 <= i < |l| :: l'[i] == l[i];
    forall o | o in l
      ensures Applies(o) && KeyOf(o) != KeyOf(op)
    {
      var i :| 0 <= i < |l| && l[i] == o;
      assert l'[i] in l';
    }
  }

  // --- The records are determined by which objects were applied ----------------------------

  /** The operation on that object. */
  function Pick(l: seq<Op>, key: Key): Option<Op> {
    if l == [] then None
    else if Applies(l[|l| - 1]) && KeyOf(l[|l| - 1]) == key then Some(l[|l| - 1])
    else Pick(l[..|l| - 1], key)
  }

  lemma {:induction false} PickMeaning(l: seq<Op>, key: Key, op: Op)
    requires EachOnce(l)
    ensures Pick(l, key) == Some(op) <==> op in l && KeyOf(op) == key
  {
    if l != [] {
      var before, last := l[..|l| - 1], l[|l| - 1];
      assert l == before + [last];
      EachOnceSnoc(before, last);
      PickMeaning(before, key, op);
    }
  }

  lemma PickSnoc(l: seq<Op>, op: Op, key: Key)
    requires Applies(op)
    ensures Pick(l + [op], key) == if KeyOf(op) == key then Some(op) else Pick(l, key)
  {
  }

  lemma PickFresh(l: seq<Op>, op: Op)
    requires EachOnce(l + [op])
    ensures Applies(op) && Pick(l, KeyOf(op)) == None
  {
    EachOnceSnoc(l, op);
    if Pick(l, KeyOf(op)).Some? {
      PickMeaning(l, KeyOf(op), Pick(l, KeyOf(op)).value);
    }
  }

  function NodeIps(op: Option<Op>): Option<seq<IpAddr>> {
    if op.Some? && op.value.ApplyNode? && Resources.KubeletIps(op.value.node).Ok?
    then Some(Resources.KubeletIps(op.value.node).value)
    else None
  }

  function AuthzOf(env: Env, op: Option<Op>): Option<Authz> {
    if op.Some? && op.value.ApplyAuthz? && Resources.MkAuthz(op.value.authz, env.identityDomain).Ok?
    then Some(Resources.MkAuthz(op.value.authz, env.identityDomain).value)
    else None
  }

  function MetaOfOp(op: Option<Op>): Option<ServerMeta> {
    if op.Some? && op.value.ApplyServer? then Some(MetaOf(op.value.server)) else None
  }

  /** Every pod is placed by the nodes there are in the end, whichever came first. */
  function RecordOf(nodes: map<string, seq<IpAddr>>, op: Option<Op>): Option<PodRecord> {
    if op.Some? && op.value.ApplyPod? then Some(PodRecord(op.value.pod, Place(nodes, op.value.pod))) else None
  }

  ghost predicate NodesBuilt(l: seq<Op>, nodes: map<string, seq<IpAddr>>) {
    forall m :: Get(nodes, m) == NodeIps(Pick(l, NodeKey(m)))
  }

  ghost predicate NsBuilt(env: Env, l: seq<Op>, ns: string, nodes: map<string, seq<IpAddr>>, r: Records) {
    && (forall x :: Get(r.authzs, x) == AuthzOf(env, Pick(l, AuthzKey(Id(ns, x)))))
    && (forall x :: Get(r.servers, x) == MetaOfOp(Pick(l, ServerKey(Id(ns, x)))))
    && (forall x :: Get(r.pods, x) == RecordOf(nodes, Pick(l, PodKey(Id(ns, x)))))
  }

  ghost predicate Built(env: Env, l: seq<Op>, c: Cluster) {
    && NodesBuilt(l, c.nodes)
    && forall ns :: NsBuilt(env, l, ns, c.nodes, RecordsOf(c, ns))
  }

  lemma NodesBuiltNext(env: Env, l: seq<Op>, op: Op, c: Cluster)
    requires NodesBuilt(l, c.nodes) && EachOnce(l + [op])
    ensures NodesBuilt(l + [op], CStep(env, c, op).nodes)
  {
    PickFresh(l, op);
    forall m
      ensures Get(CStep(env, c, op).nodes, m) == NodeIps(Pick(l + [op], NodeKey(m)))
    {
      PickSnoc(l, op, NodeKey(m));
      assert Get(c.nodes, m) == NodeIps(Pick(l, NodeKey(m)));
    }
  }

  /** An object that is applied for the first time is simply put on record. */
  lemma PutFresh(env: Env, l: seq<Op>, op: Op, ns: string, nodes: map<string, seq<IpAddr>>, r: Records)
    requires NsBuilt(env, l, ns, nodes, r) && EachOnce(l + [op])
    ensures op.ApplyServer? && op.server.ns == ns ==> op.server.name !in r.servers
    ensures op.ApplyPod? && op.pod.ns == ns ==> op.pod.name !in r.pods
    ensures op.ApplyAuthz? && op.authz.ns == ns ==> op.authz.name !in r.authzs
  {
    PickFresh(l, op);
    if op.ApplyServer? {
      assert Get(r.servers, op.server.name) == MetaOfOp(Pick(l, ServerKey(Id(ns, op.server.name))));
    }
    if op.ApplyPod? {
      assert Get(r.pods, op.pod.name) == RecordOf(nodes, Pick(l, PodKey(Id(ns, op.pod.name))));
    }
    if op.ApplyAuthz? {
      assert Get(r.authzs, op.authz.name) == AuthzOf(env, Pick(l, AuthzKey(Id(ns, op.authz.name))));
    }
  }

  lemma AuthzBuiltNext(env: Env, l: seq<Op>, op: Op, ns: string, c: Cluster, x: string)
    requires NsBuilt(env, l, ns, c.nodes, RecordsOf(c, ns)) && EachOnce(l + [op])
    ensures Get(RecordsOf(CStep(env, c, op), ns).authzs, x) == AuthzOf(env, Pick(l + [op], AuthzKey(Id(ns, x))))
  {
    PickFresh(l, op);
    PickSnoc(l, op, AuthzKey(Id(ns, x)));
    PutFresh(env, l, op, ns, c.nodes, RecordsOf(c, ns));
    assert Get(RecordsOf(c, ns).authzs, x) == AuthzOf(env, Pick(l, AuthzKey(Id(ns, x))));
  }

  lemma ServerBuiltNext(env: Env, l: seq<Op>, op: Op, ns: string, c: Cluster, x: string)
    requires NsBuilt(env, l, ns, c.nodes, RecordsOf(c, ns)) && EachOnce(l + [op])
    ensures Get(RecordsOf(CStep(env, c, op), ns).servers, x) == MetaOfOp(Pick(l + [op], ServerKey(Id(ns, x))))
  {
    PickFresh(l, op);
    PickSnoc(l, op, ServerKey(Id(ns, x)));
    PutFresh(env, l, op, ns, c.nodes, RecordsOf(c, ns));
    assert Get(RecordsOf(c, ns).servers, x) == MetaOfOp(Pick(l, ServerKey(Id(ns, x))));
  }

  lemma PodBuiltNext(env: Env, l: seq<Op>, op: Op, ns: string, c: Cluster, x: string)
    requires NodesBuilt(l, c.nodes) && NsBuilt(env, l, ns, c.nodes, RecordsOf(c, ns)) && EachOnce(l + [op])
    ensures Get(RecordsOf(CStep(env, c, op), ns).pods, x) ==
              RecordOf(CStep(env, c, op).nodes, Pick(l + [op], PodKey(Id(ns, x))))
  {
    PickFresh(l, op);
    PickSnoc(l, op, PodKey(Id(ns, x)));
    PutFresh(env, l, op, ns, c.nodes, RecordsOf(c, ns));
    assert Get(RecordsOf(c, ns).pods, x) == RecordOf(c.nodes, Pick(l, PodKey(Id(ns, x))));
    if op.ApplyNode? {
      assert Get(c.nodes, op.node.name) == NodeIps(Pick(l, NodeKey(op.node.name)));
    }
  }

  lemma NsBuiltNext(env: Env, l: seq<Op>, op: Op, ns: string, c: Cluster)
    requires Built(env, l, c) && EachOnce(l + [op])
    ensures NsBuilt(env, l + [op], ns, CStep(env, c, op).nodes, RecordsOf(CStep(env, c, op), ns))
  {
    assert NsBuilt(env, l, ns, c.nodes, RecordsOf(c, ns));
    var nodes', r' := CStep(env, c, op).nodes, RecordsOf(CStep(env, c, op), ns);
    forall x
      ensures Get(r'.authzs, x) == AuthzOf(env, Pick(l + [op], AuthzKey(Id(ns, x))))
    {
      AuthzBuiltNext(env, l, op, ns, c, x);
    }
    forall x
      ensures Get(r'.servers, x) == MetaOfOp(Pick(l + [op], ServerKey(Id(ns, x))))
    {
      ServerBuiltNext(env, l, op, ns, c, x);
    }
    forall x
      ensures Get(r'.pods, x) == RecordOf(nodes', Pick(l + [op], PodKey(Id(ns, x))))
    {
      PodBuiltNext(env, l, op, ns, c, x);
    }
  }

  lemma {:induction false} RunIsBuilt(env: Env, l: seq<Op>)
    requires EachOnce(l)
    ensures Built(env, l, CRun(env, EMPTY, l))
  {
    if l != [] {
      var before, op := l[..|l| - 1], l[|l| - 1];
      assert l == before + [op];
      EachOnceSnoc(before, op);
      RunIsBuilt(env, before);
      var c := CRun(env, EMPTY, before);
      NodesBuiltNext(env, before, op, c);
      forall ns
        ensures NsBuilt(env, l, ns, CStep(env, c, op).nodes, RecordsOf(CStep(env, c, op), ns))
      {
        NsBuiltNext(env, before, op, ns, c);
      }
    }
  }

  /** Two runs over the same objects leave the same records. */
  lemma SameObjectsSameRecords(env: Env, l: seq<Op>, l': seq<Op>, ns: string)
    requires EachOnce(l) && EachOnce(l') && forall op :: op in l <==> op in l'
    ensures CRun(env, EMPTY, l).nodes == CRun(env, EMPTY, l').nodes
    ensures RecordsOf(CRun(env, EMPTY, l), ns) == RecordsOf(CRun(env, EMPTY, l'), ns)
  {
    RunIsBuilt(env, l);
    RunIsBuilt(env, l');
    var c, c' := CRun(env, EMPTY, l), CRun(env, EMPTY, l');
    forall key
      ensures Pick(l, key) == Pick(l', key)
    {
      SamePick(l, l', key);
    }
    SameMap(c.nodes, c'.nodes);
    assert NsBuilt(env, l, ns, c.nodes, RecordsOf(c, ns)) && NsBuilt(env, l', ns, c'.nodes, RecordsOf(c', ns));
    SameMap(RecordsOf(c, ns).authzs, RecordsOf(c', ns).authzs);
    SameMap(RecordsOf(c, ns).servers, RecordsOf(c', ns).servers);
    SameMap(RecordsOf(c, ns).pods, RecordsOf(c', ns).pods);
  }

  lemma SamePick(l: seq<Op>, l': seq<Op>, key: Key)
    requires EachOnce(l) && EachOnce(l') && forall op :: op in l <==> op in l'
    ensures Pick(l, key) == Pick(l', key)
  {
    if Pick(l, key).Some? {
      PickMeaning(l, key, Pick(l, key).value);
      PickMeaning(l', key, Pick(l, key).value);
    } else if Pick(l', key).Some? {
      PickMeaning(l, key, Pick(l', key).value);
      PickMeaning(l', key, Pick(l', key).value);
    }
  }

  // --- A set of objects without conflicts has none on the way ---------------------------------

  lemma FewerObjectsFewerClaims(env: Env, l: seq<Op>, op: Op, c: Cluster, ns: string, x: string, p: u16)
    requires Built(env, l, c) && EachOnce(l + [op]) && Discoverable(RecordsOf(c, ns), x, p)
    ensures var r, r' := RecordsOf(c, ns), RecordsOf(CStep(env, c, op), ns);
            && Discoverable(r', x, p) && r'.pods[x].pod == r.pods[x].pod
            && ClaimsOf(r.servers, r.pods[x].pod, p) <= ClaimsOf(r'.servers, r'.pods[x].pod, p)
  {
    assert NsBuilt(env, l, ns, c.nodes, RecordsOf(c, ns));
    PutFresh(env, l, op, ns, c.nodes, RecordsOf(c, ns));
    PickFresh(l, op);
  }

  lemma ConflictFreeBefore(env: Env, l: seq<Op>, op: Op, c: Cluster)
    requires Built(env, l, c) && EachOnce(l + [op]) && ConflictFree(CStep(env, c, op))
    ensures ConflictFree(c)
  {
    forall ns
      ensures NsConflictFree(RecordsOf(c, ns))
    {
      var r, r' := RecordsOf(c, ns), RecordsOf(CStep(env, c, op), ns);
      assert NsConflictFree(r');
      forall x, p | Discoverable(r, x, p)
        ensures AtMostOne(ClaimsOf(r.servers, r.pods[x].pod, p))
      {
        FewerObjectsFewerClaims(env, l, op, c, ns, x, p);
        assert AtMostOne(ClaimsOf(r'.servers, r'.pods[x].pod, p));
      }
    }
  }

  lemma FreshIsStable(env: Env, l: seq<Op>, op: Op, c: Cluster)
    requires Built(env, l, c) && EachOnce(l + [op])
    ensures Stable(env, c, op) && NoHandover(c, op)
  {
    PickFresh(l, op);
    if op.ApplyPod? {
      assert NsBuilt(env, l, op.pod.ns, c.nodes, RecordsOf(c, op.pod.ns));
      PutFresh(env, l, op, op.pod.ns, c.nodes, RecordsOf(c, op.pod.ns));
    }
  }

  lemma {:induction false} EachOnceIsAdmissible(env: Env, l: seq<Op>)
    requires EachOnce(l) && ConflictFree(CRun(env, EMPTY, l))
    ensures AdmissibleRun(env, EMPTY, l)
  {
    if l != [] {
      var before, op := l[..|l| - 1], l[|l| - 1];
      assert l == before + [op];
      EachOnceSnoc(before, op);
      RunIsBuilt(env, before);
      ConflictFreeBefore(env, before, op, CRun(env, EMPTY, before));
      FreshIsStable(env, before, op, CRun(env, EMPTY, before));
      EachOnceIsAdmissible(env, before);
    }
  }

  // --- The theorem -----------------------------------------------------------------------------

  /** Distinct nodes, pods, servers and authorizations that do not conflict as a whole may arrive in
      any order: pods before their nodes, authorizations before their servers. Every port is served
      the same policy, the one computed from scratch from all of them. */
  lemma OrderDoesNotMatter(env: Env, l: seq<Op>, l': seq<Op>, s: State, s': State)
    requires EachOnce(l) && EachOnce(l') && forall op :: op in l <==> op in l'
    requires ConflictFree(CRun(env, EMPTY, l))
    requires Steps(env, Init(env), l, s) && Steps(env, Init(env), l', s')
    ensures forall ns, x, p :: Served(s, ns, x, p) == Served(s', ns, x, p)
    ensures forall ns, x, p :: Served(s, ns, x, p) == FromScratch(env, RecordsOf(CRun(env, EMPTY, l), ns), x, p)
  {
    forall ns
      ensures RecordsOf(CRun(env, EMPTY, l), ns) == RecordsOf(CRun(env, EMPTY, l'), ns)
    {
      SameObjectsSameRecords(env, l, l', ns);
    }
    ConflictFreeToo(CRun(env, EMPTY, l), CRun(env, EMPTY, l'));
    EachOnceIsAdmissible(env, l);
    EachOnceIsAdmissible(env, l');
    WholeRun(env, l, s);
    WholeRun(env, l', s');
  }

  lemma ConflictFreeToo(c: Cluster, c': Cluster)
    requires ConflictFree(c) && forall ns :: RecordsOf(c, ns) == RecordsOf(c', ns)
    ensures ConflictFree(c')
  {
  }
}
