/** Identity globs: how a CRD identity string is parsed (`controller/k8s/index/src/authz.rs`),
    printed (`controller/core/src/identity_match.rs`) and matched by a client
    (`client/src/lib.rs`). */
module Identity {
  import opened Base
  import opened Policy

  // --- Splitting and joining on dots -------------------------------------

  function Split(s: string): (parts: seq<string>)
    ensures |parts| > 0
  {
    if s == "" then [""]
    else
      var rest := Split(s[1..]);
      if s[0] == '.' then [""] + rest else [[s[0]] + rest[0]] + rest[1..]
  }

  function Join(parts: seq<string>): string
    requires parts != []
  {
    if |parts| == 1 then parts[0] else parts[0] + "." + Join(parts[1..])
  }

  predicate DotFree(s: string) {
    '.' !in s
  }

  lemma {:induction false} DottedIsJoin(parts: seq<string>)
    requires parts != []
    ensures Dotted(parts) == "." + Join(parts)
  {
    if |parts| > 1 {
      DottedIsJoin(parts[1..]);
    } else {
      assert Dotted(parts[1..]) == "";
    }
  }

  lemma {:induction false} JoinOfSplit(s: string)
    ensures Join(Split(s)) == s
    ensures forall p | p in Split(s) :: DotFree(p)
  {
    if s != "" {
      JoinOfSplit(s[1..]);
      var rest := Split(s[1..]);
      var parts := Split(s);
      if s[0] == '.' {
        assert parts[1..] == rest;
      } else {
        assert parts[1..] == rest[1..] && parts[0] == [s[0]] + rest[0];
        assert rest[0] in rest;
      }
    }
  }

  lemma {:induction false} SplitOfPart(p: string, s: string)
    requires DotFree(p)
    ensures Split(p) == [p]
    ensures Split(p + "." + s) == [p] + Split(s)
  {
    if p == "" {
      assert (p + "." + s)[1..] == s;
    } else {
      SplitOfPart(p[1..], s);
      assert (p + "." + s)[1..] == p[1..] + "." + s;
      assert p == [p[0]] + p[1..];
    }
  }

  lemma {:induction false} SplitOfJoin(parts: seq<string>)
    requires parts != []
    ensures Split(Join(parts)) == parts <==> forall p | p in parts :: DotFree(p)
  {
    if forall p | p in parts :: DotFree(p) {
      if |parts| == 1 {
        SplitOfPart(parts[0], "");
      } else {
        SplitOfPart(parts[0], Join(parts[1..]));
        SplitOfJoin(parts[1..]);
      }
    } else {
      JoinOfSplit(Join(parts));
    }
  }

  // --- Parsing and printing ------------------------------------------------

  /** One step of the loop in `mk_mtls_authn`. */
  function ParseIdentity(id: string): IdentityMatch {
    if id == "*" then Suffix([])
    else if "*." <= id then Suffix(Split(id)[1..])
    else Name(id)
  }

  function Show(m: IdentityMatch): string {
    match m
    case Name(n) => n
    case Suffix(parts) => "*" + Dotted(parts)
  }

  predicate IsGlob(s: string) {
    s == "*" || "*." <= s
  }

  lemma {:induction false} DottedSnoc(parts: seq<string>, p: string)
    ensures Dotted(parts + [p]) == Dotted(parts) + "." + p
  {
    if parts != [] {
      DottedSnoc(parts[1..], p);
      assert (parts + [p])[1..] == parts[1..] + [p];
    } else {
      assert Dotted([p]) == "." + p + Dotted([]);
    }
  }

  /** `Display for IdentityMatch` writes the pattern piece by piece. */
  method Format(m: IdentityMatch) returns (out: string)
    ensures out == Show(m)
  {
    match m {
      case Name(n) =>
        out := n;
      case Suffix(parts) =>
        out := "*";
        for i := 0 to |parts|
          invariant out == "*" + Dotted(parts[..i])
        {
          assert parts[..i + 1] == parts[..i] + [parts[i]];
          DottedSnoc(parts[..i], parts[i]);
          out := out + "." + parts[i];
        }
        assert parts[..|parts|] == parts;
    }
  }

  lemma SplitOfGlob(id: string)
    requires "*." <= id
    ensures Split(id) == ["*"] + Split(id[2..])
    ensures Dotted(Split(id)[1..]) == id[1..]
  {
    SplitOfPart("*", id[2..]);
    assert id == "*" + "." + id[2..];
    DottedIsJoin(Split(id[2..]));
    JoinOfSplit(id[2..]);
  }

  /** Printing a parsed identity gives back the string it was parsed from. */
  lemma ShowOfParse(id: string)
    ensures Show(ParseIdentity(id)) == id
  {
    if "*." <= id {
      SplitOfGlob(id);
    }
  }

  /** Parsing a printed identity gives it back exactly when its parts are dot-free and its name
      is not a glob. */
  lemma ParseOfShow(m: IdentityMatch)
    ensures ParseIdentity(Show(m)) == m <==>
              (m.Name? ==> !IsGlob(m.name)) && (m.Suffix? ==> forall p | p in m.parts :: DotFree(p))
  {
    if m.Suffix? && m.parts != [] {
      var s := Show(m);
      DottedIsJoin(m.parts);
      assert s == "*" + "." + Join(m.parts) && s[2..] == Join(m.parts);
      SplitOfGlob(s);
      SplitOfJoin(m.parts);
    }
  }

  // --- Matching ---------------------------------------------------------------

  /** What a pattern written in a resource accepts: `*` accepts every identity, `*.tail` every
      identity that ends with `.tail`, anything else only itself. */
  ghost predicate GlobAccepts(pattern: string, id: string) {
    if pattern == "*" then true
    else if "*." <= pattern then exists head :: id == head + pattern[1..]
    else id == pattern
  }

  lemma ParsedIdentityAcceptsAsWritten(pattern: string, id: string)
    ensures Identifies(ParseIdentity(pattern), id) <==> GlobAccepts(pattern, id)
  {
    if "*." <= pattern {
      SplitOfGlob(pattern);
      if EndsWith(id, pattern[1..]) {
        assert id == id[..|id| - |pattern[1..]|] + pattern[1..];
      }
    }
  }

  /** `Suffix::from`: the client's own form of a suffix. */
  function ClientSuffix(parts: seq<string>): string {
    if parts == [] then "" else "." + Join(parts)
  }

  lemma ClientSuffixIsDotted(parts: seq<string>)
    ensures ClientSuffix(parts) == Dotted(parts)
  {
  }

  /** A glob that is split on its dots and joined again by the client ends up as the glob without its
      star. */
  lemma GlobSurvivesSplitAndJoin(id: string)
    requires "*." <= id
    ensures ParseIdentity(id).Suffix? && ClientSuffix(ParseIdentity(id).parts) == id[1..]
  {
    SplitOfGlob(id);
    ClientSuffixIsDotted(Split(id)[1..]);
  }
}
