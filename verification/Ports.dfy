/** The ports a pod's containers declare (`PodIndex::extract_ports`). */
module Ports {
  import opened Base
  import Resources

  datatype Decl = Decl(port: u16, name: Option<string>)

  type NameIndex = map<string, seq<u16>>

  predicate IsTcp(p: Resources.ContainerPort) {
    p.protocol.None? || p.protocol.value == "TCP"
  }

  /** `container_port as u16`: reduction modulo 2^16. */
  function Truncate(port: Resources.i32): u16 {
    port % 0x1_0000
  }

  function DeclaredIn(ports: seq<Resources.ContainerPort>): seq<Decl> {
    if ports == [] then []
    else
      var p := ports[|ports| - 1];
      DeclaredIn(ports[..|ports| - 1]) + if IsTcp(p) then [Decl(Truncate(p.port), p.name)] else []
  }

  /** The TCP ports of all containers, in order of declaration. */
  function Declared(containers: seq<seq<Resources.ContainerPort>>): seq<Decl> {
    if containers == [] then []
    else Declared(containers[..|containers| - 1]) + DeclaredIn(containers[|containers| - 1])
  }

  function PortSet(decls: seq<Decl>): set<u16> {
    set d | d in decls :: d.port
  }

  /** The ports of each name; a port that was declared before is skipped. */
  function Named(decls: seq<Decl>): NameIndex {
    if decls == [] then map[]
    else
      var before, d := decls[..|decls| - 1], decls[|decls| - 1];
      var index := Named(before);
      if d.port in PortSet(before) || d.name.None? then index
      else index[d.name.value := (if d.name.value in index then index[d.name.value] else []) + [d.port]]
  }

  /** Declaration `i` is the first of its port. */
  predicate First(decls: seq<Decl>, i: nat)
    requires i < |decls|
  {
    forall j | 0 <= j < i :: decls[j].port != decls[i].port
  }

  /** A name resolves to exactly the ports whose first declaration carries it, each of them once. */
  lemma {:induction false} NamedMeaning(decls: seq<Decl>, x: string, p: u16)
    ensures x in Named(decls) && p in Named(decls)[x] <==>
              exists i :: 0 <= i < |decls| && decls[i] == Decl(p, Some(x)) && First(decls, i)
    ensures x in Named(decls) ==>
              forall i, j | 0 <= i < j < |Named(decls)[x]| :: Named(decls)[x][i] != Named(decls)[x][j]
  {
    if decls != [] {
      var before, d := decls[..|decls| - 1], decls[|decls| - 1];
      NamedMeaning(before, x, p);
      assert forall i | 0 <= i < |before| :: First(decls, i) == First(before, i);
      assert First(decls, |decls| - 1) <==> d.port !in PortSet(before) by {
        if d.port in PortSet(before) {
          var e :| e in before && e.port == d.port;
        }
      }
      assert forall i | 0 <= i < |before| :: decls[i] == before[i];
      if First(decls, |decls| - 1) && d.name == Some(x) && x in Named(before) {
        forall k | 0 <= k < |Named(before)[x]|
          ensures Named(before)[x][k] != d.port
        {
          NamedArePorts(before, x, Named(before)[x][k]);
        }
      }
    }
  }

  lemma {:induction false} NamedArePorts(decls: seq<Decl>, x: string, p: u16)
    requires x in Named(decls) && p in Named(decls)[x]
    ensures p in PortSet(decls)
  {
    var before, d := decls[..|decls| - 1], decls[|decls| - 1];
    assert forall e | e in before :: e in decls;
    if x in Named(before) && p in Named(before)[x] {
      NamedArePorts(before, x, p);
    } else {
      assert d in decls && d.port == p;
    }
  }

  /** So no port answers to two names. */
  lemma NamesAreDisjoint(decls: seq<Decl>, x: string, y: string, p: u16)
    requires x in Named(decls) && p in Named(decls)[x]
    requires y in Named(decls) && p in Named(decls)[y]
    ensures x == y
  {
    NamedMeaning(decls, x, p);
    NamedMeaning(decls, y, p);
    var i :| 0 <= i < |decls| && decls[i] == Decl(p, Some(x)) && First(decls, i);
    var j :| 0 <= j < |decls| && decls[j] == Decl(p, Some(y)) && First(decls, j);
    assert i <= j && j <= i;
  }

  // --- What the containers say ---------------------------------------------------------------

  /** One entry of a pod's containers: which container, and which of its ports. */
  datatype Slot = Slot(container: nat, index: nat)

  predicate Precedes(a: Slot, b: Slot) {
    a.container < b.container || (a.container == b.container && a.index < b.index)
  }

  predicate InPod(cs: seq<seq<Resources.ContainerPort>>, at: Slot) {
    at.container < |cs| && at.index < |cs[at.container]|
  }

  /** Kubernetes takes a port without a protocol for TCP. */
  predicate Tcp(p: Resources.ContainerPort) {
    p.protocol == None || p.protocol == Some("TCP")
  }

  /** The entry exposes that port: TCP, and its number modulo 2^16. */
  predicate Exposes(cs: seq<seq<Resources.ContainerPort>>, at: Slot, p: u16) {
    InPod(cs, at) && Tcp(cs[at.container][at.index]) && cs[at.container][at.index].port % 0x1_0000 == p
  }

  ghost predicate Exposed(cs: seq<seq<Resources.ContainerPort>>, p: u16) {
    exists at :: Exposes(cs, at, p)
  }

  /** The name of a port is the one that the first entry exposing it gives. */
  ghost predicate ExposedAs(cs: seq<seq<Resources.ContainerPort>>, p: u16, x: string) {
    exists at :: Exposes(cs, at, p) && cs[at.container][at.index].name == Some(x)
                 && forall b | Exposes(cs, b, p) :: !Precedes(b, at)
  }

  lemma {:induction false} DeclaredInMeaning(ports: seq<Resources.ContainerPort>) returns (at: seq<nat>)
    ensures |at| == |DeclaredIn(ports)| && forall j, k | 0 <= j < k < |at| :: at[j] < at[k]
    ensures forall k | 0 <= k < |at| ::
              && at[k] < |ports| && Tcp(ports[at[k]])
              && DeclaredIn(ports)[k] == Decl(ports[at[k]].port % 0x1_0000, ports[at[k]].name)
    ensures forall i | 0 <= i < |ports| && Tcp(ports[i]) :: i in at
  {
    if ports == [] {
      at := [];
    } else {
      var k := |ports| - 1;
      var before := DeclaredInMeaning(ports[..k]);
      at := before + if Tcp(ports[k]) then [k] else [];
      forall j | 0 <= j < |before|
        ensures ports[..k][before[j]] == ports[before[j]] && DeclaredIn(ports)[j] == DeclaredIn(ports[..k])[j]
      {
      }
      forall i | 0 <= i < |ports| && Tcp(ports[i])
        ensures i in at
      {
        assert if i < k then ports[..k][i] == ports[i] && i in before else at[|before|] == i;
      }
    }
  }

  /** The entry makes that declaration. */
  predicate Declares(cs: seq<seq<Resources.ContainerPort>>, at: Slot, d: Decl) {
    Exposes(cs, at, d.port) && d.name == cs[at.container][at.index].name
  }

  function InContainer(n: nat, last: seq<nat>): (r: seq<Slot>)
    ensures |r| == |last| && forall i | 0 <= i < |last| :: r[i] == Slot(n, last[i])
    ensures forall i | i in last :: Slot(n, i) in r
  {
    if last == [] then [] else InContainer(n, last[..|last| - 1]) + [Slot(n, last[|last| - 1])]
  }

  predicate TcpAt(cs: seq<seq<Resources.ContainerPort>>, at: Slot) {
    InPod(cs, at) && Tcp(cs[at.container][at.index])
  }

  lemma ContainerDeclares(cs: seq<seq<Resources.ContainerPort>>, before: seq<Slot>, last: seq<nat>, k: nat)
    requires cs != [] && var n := |cs| - 1;
               && |before| == |Declared(cs[..n])| && |last| == |DeclaredIn(cs[n])|
               && (forall i | 0 <= i < |before| :: Declares(cs[..n], before[i], Declared(cs[..n])[i]))
               && forall i | 0 <= i < |last| ::
                    && last[i] < |cs[n]| && Tcp(cs[n][last[i]])
                    && DeclaredIn(cs[n])[i] == Decl(cs[n][last[i]].port % 0x1_0000, cs[n][last[i]].name)
    requires k < |before| + |last|
    ensures var n, at := |cs| - 1, before + InContainer(|cs| - 1, last);
            && Declares(cs, at[k], Declared(cs)[k])
            && if k < |before| then at[k].container < n else at[k] == Slot(n, last[k - |before|])
  {
    var n := |cs| - 1;
    if k < |before| {
      assert Declares(cs[..n], before[k], Declared(cs[..n])[k]);
    }
  }

  /** The declarations of a pod are those of its TCP entries, each once, in the order of its containers. */
  lemma {:induction false} DeclaredMeaning(cs: seq<seq<Resources.ContainerPort>>) returns (at: seq<Slot>)
    ensures |at| == |Declared(cs)| && forall k | 0 <= k < |at| :: Declares(cs, at[k], Declared(cs)[k])
    ensures forall j, k | 0 <= j < k < |at| :: Precedes(at[j], at[k])
    ensures forall s | TcpAt(cs, s) :: s in at
  {
    at := [];
    if cs != [] {
      var n := |cs| - 1;
      var before := DeclaredMeaning(cs[..n]);
      var last := DeclaredInMeaning(cs[n]);
      at := before + InContainer(n, last);
      forall k | 0 <= k < |at|
        ensures Declares(cs, at[k], Declared(cs)[k])
        ensures if k < |before| then at[k] == before[k] && at[k].container < n else at[k] == Slot(n, last[k - |before|])
      {
        ContainerDeclares(cs, before, last, k);
      }
      forall s | TcpAt(cs, s)
        ensures s in at
      {
        assert if s.container < n then TcpAt(cs[..n], s) && s in before else s in InContainer(n, last);
      }
    }
  }

  /** The declaration that an entry makes. */
  lemma DeclaredAt(cs: seq<seq<Resources.ContainerPort>>, at: seq<Slot>, s: Slot, p: u16) returns (k: nat)
    requires Exposes(cs, s, p) && |at| == |Declared(cs)| && s in at
    requires forall k | 0 <= k < |at| :: Declares(cs, at[k], Declared(cs)[k])
    ensures k < |at| && at[k] == s && Declared(cs)[k].port == p
  {
    k :| 0 <= k < |at| && at[k] == s;
  }

  /** Hence a port is declared exactly if some entry exposes it. */
  lemma DeclaredPorts(cs: seq<seq<Resources.ContainerPort>>, p: u16)
    ensures p in PortSet(Declared(cs)) <==> Exposed(cs, p)
  {
    var at := DeclaredMeaning(cs);
    if Exposed(cs, p) {
      var s :| Exposes(cs, s, p);
      var k := DeclaredAt(cs, at, s, p);
      assert Declared(cs)[k] in Declared(cs);
    }
    if p in PortSet(Declared(cs)) {
      var k :| 0 <= k < |at| && Declared(cs)[k].port == p;
      assert Declares(cs, at[k], Declared(cs)[k]);
    }
  }

  /** And a name resolves to exactly the ports whose first entry carries it. */
  lemma NamedPorts(cs: seq<seq<Resources.ContainerPort>>, p: u16, x: string)
    ensures x in Named(Declared(cs)) && p in Named(Declared(cs))[x] <==> ExposedAs(cs, p, x)
  {
    var decls := Declared(cs);
    var at := DeclaredMeaning(cs);
    NamedMeaning(decls, x, p);
    if i :| 0 <= i < |decls| && decls[i] == Decl(p, Some(x)) && First(decls, i) {
      assert Declares(cs, at[i], decls[i]);
      forall s | Exposes(cs, s, p)
        ensures !Precedes(s, at[i])
      {
        var k := DeclaredAt(cs, at, s, p);
        assert i < k ==> Precedes(at[i], at[k]);
      }
    }
    if ExposedAs(cs, p, x) {
      var s :| Exposes(cs, s, p) && cs[s.container][s.index].name == Some(x)
               && forall b | Exposes(cs, b, p) :: !Precedes(b, s);
      var k := DeclaredAt(cs, at, s, p);
      forall j | 0 <= j < k
        ensures decls[j].port != p
      {
        assert Declares(cs, at[j], decls[j]) && Precedes(at[j], at[k]);
      }
      assert Declares(cs, at[k], decls[k]);
      assert First(decls, k) && decls[k] == Decl(p, Some(x));
    }
  }
}
