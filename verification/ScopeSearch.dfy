/**
 The depth-first search for derived scope paths, proved sound and complete against a
 definition that does not mention the search: simple paths of proven links, at most
 three long, whose last resource is the only one that carries a direct scope column.
 */
module ScopeSearch {
  import opened Catalog
  import opened Evidence
  import opened Sequences

  const MAX_DERIVED_SCOPE_HOPS := 3

  /** Relationship k of `at` is a hop that a path with this visited set may take. */
  predicate Usable(g: ScopeGraph, at: string, visited: set<string>, k: nat)
    requires at in g && k < |g[at].relationships|
  {
    var r := g[at].relationships[k];
    Proven(r) && r.referenced in g && r.referenced !in visited
  }

  ghost predicate Hop(g: ScopeGraph, at: string, visited: set<string>, k: nat, l: Link) {
    at in g && k < |g[at].relationships| && Usable(g, at, visited, k) && l == LinkFor(at, g[at].relationships[k])
  }

  ghost predicate SomeHop(g: ScopeGraph, at: string, visited: set<string>, l: Link) {
    exists k: nat :: Hop(g, at, visited, k, l)
  }

  predicate Scoped(g: ScopeGraph, kind: ScopeKind, id: string) {
    id in g && ScopeColumn(g[id], kind).Some?
  }

  /** From index `from` on, the links are usable hops that stop at the first scoped resource. */
  ghost predicate ScopeWalk(g: ScopeGraph, kind: ScopeKind, at: string, visited: set<string>, links: seq<Link>,
                            from: nat)
    decreases |links| - from
  {
    && from < |links| <= MAX_DERIVED_SCOPE_HOPS
    && SomeHop(g, at, visited, links[from])
    && if Scoped(g, kind, links[from].target) then |links| == from + 1
       else ScopeWalk(g, kind, links[from].target, visited + {links[from].target}, links, from + 1)
  }

  /** The candidate that a complete path of links stands for. */
  function CandidateOf(g: ScopeGraph, kind: ScopeKind, links: seq<Link>): ScopePath
    requires links != []
  {
    var ancestor := links[|links| - 1].target;
    var column := if ancestor in g then ScopeColumn(g[ancestor], kind).GetOr("") else "";
    ScopePath("derived", PathId(links), ancestor, column, LinkProof(DATABASE_CATALOG, links, LinkDigest(links)))
  }

  /** `links` begins with `prefix`, continues from `at` as a walk, and its candidate is c. */
  ghost predicate Completes(g: ScopeGraph, kind: ScopeKind, at: string, visited: set<string>, prefix: seq<Link>,
                            links: seq<Link>, c: ScopePath)
  {
    && prefix <= links
    && ScopeWalk(g, kind, at, visited, links, |prefix|)
    && c == CandidateOf(g, kind, links)
  }

  ghost predicate Extension(g: ScopeGraph, kind: ScopeKind, at: string, visited: set<string>, prefix: seq<Link>,
                            c: ScopePath)
  {
    exists links :: Completes(g, kind, at, visited, prefix, links, c)
  }

  /** A completion whose next hop is relationship k. */
  ghost predicate CompletesBy(g: ScopeGraph, kind: ScopeKind, at: string, visited: set<string>, prefix: seq<Link>,
                              k: nat, links: seq<Link>, c: ScopePath)
  {
    Completes(g, kind, at, visited, prefix, links, c) && Hop(g, at, visited, k, links[|prefix|])
  }

  ghost predicate ExtensionBy(g: ScopeGraph, kind: ScopeKind, at: string, visited: set<string>, prefix: seq<Link>,
                              k: nat, c: ScopePath)
  {
    exists links :: CompletesBy(g, kind, at, visited, prefix, k, links, c)
  }

  ghost predicate ExtensionBelow(g: ScopeGraph, kind: ScopeKind, at: string, visited: set<string>, prefix: seq<Link>,
                                 n: nat, c: ScopePath)
  {
    exists k: nat :: k < n && ExtensionBy(g, kind, at, visited, prefix, k, c)
  }

  lemma AllRelationshipsCovered(g: ScopeGraph, kind: ScopeKind, at: string, visited: set<string>, prefix: seq<Link>,
                                c: ScopePath)
    requires at in g
    ensures Extension(g, kind, at, visited, prefix, c)
       <==> ExtensionBelow(g, kind, at, visited, prefix, |g[at].relationships|, c)
  {
    if Extension(g, kind, at, visited, prefix, c) {
      var links :| Completes(g, kind, at, visited, prefix, links, c);
      assert SomeHop(g, at, visited, links[|prefix|]);
      var k: nat :| Hop(g, at, visited, k, links[|prefix|]);
      assert CompletesBy(g, kind, at, visited, prefix, k, links, c);
      assert ExtensionBy(g, kind, at, visited, prefix, k, c);
    }
  }

  /** What relationship k contributes: its own candidate, or everything found beyond its target. */
  ghost predicate Contributes(g: ScopeGraph, kind: ScopeKind, at: string, visited: set<string>, prefix: seq<Link>,
                              k: nat, c: ScopePath)
    requires at in g && k < |g[at].relationships|
  {
    && Usable(g, at, visited, k)
    && var l := LinkFor(at, g[at].relationships[k]);
       if Scoped(g, kind, l.target) then c == CandidateOf(g, kind, prefix + [l])
       else Extension(g, kind, l.target, visited + {l.target}, prefix + [l], c)
  }

  lemma CompletionContributes(g: ScopeGraph, kind: ScopeKind, at: string, visited: set<string>, prefix: seq<Link>,
                              k: nat, links: seq<Link>, c: ScopePath)
    requires at in g && k < |g[at].relationships|
    requires CompletesBy(g, kind, at, visited, prefix, k, links, c)
    ensures Contributes(g, kind, at, visited, prefix, k, c)
  {
    var l := LinkFor(at, g[at].relationships[k]);
    assert links[..|prefix| + 1] == prefix + [l];
    if Scoped(g, kind, l.target) {
      assert links == prefix + [l];
    } else {
      assert Completes(g, kind, l.target, visited + {l.target}, prefix + [l], links, c);
    }
  }

  lemma ContributionCompletes(g: ScopeGraph, kind: ScopeKind, at: string, visited: set<string>, prefix: seq<Link>,
                              k: nat, links: seq<Link>, c: ScopePath)
    requires at in g && k < |g[at].relationships| && Usable(g, at, visited, k) && |prefix| < MAX_DERIVED_SCOPE_HOPS
    requires var l := LinkFor(at, g[at].relationships[k]);
             if Scoped(g, kind, l.target) then links == prefix + [l] && c == CandidateOf(g, kind, links)
             else Completes(g, kind, l.target, visited + {l.target}, prefix + [l], links, c)
    ensures CompletesBy(g, kind, at, visited, prefix, k, links, c)
  {
    var l := LinkFor(at, g[at].relationships[k]);
    assert links[|prefix|] == (prefix + [l])[|prefix|] == l;
    assert Hop(g, at, visited, k, l);
  }

  lemma ContributionIsExtension(g: ScopeGraph, kind: ScopeKind, at: string, visited: set<string>, prefix: seq<Link>,
                                k: nat, c: ScopePath)
    requires at in g && k < |g[at].relationships| && |prefix| < MAX_DERIVED_SCOPE_HOPS
    ensures Contributes(g, kind, at, visited, prefix, k, c) <==> ExtensionBy(g, kind, at, visited, prefix, k, c)
  {
    if Contributes(g, kind, at, visited, prefix, k, c) {
      var l := LinkFor(at, g[at].relationships[k]);
      if Scoped(g, kind, l.target) {
        ContributionCompletes(g, kind, at, visited, prefix, k, prefix + [l], c);
      } else {
        var links :| Completes(g, kind, l.target, visited + {l.target}, prefix + [l], links, c);
        ContributionCompletes(g, kind, at, visited, prefix, k, links, c);
      }
    }
    if ExtensionBy(g, kind, at, visited, prefix, k, c) {
      var links :| CompletesBy(g, kind, at, visited, prefix, k, links, c);
      CompletionContributes(g, kind, at, visited, prefix, k, links, c);
    }
  }

  /** What the visit finds through the first k relationships of `current`, in the order it finds it. */
  function Found(g: ScopeGraph, kind: ScopeKind, current: string, links: seq<Link>, visited: set<string>,
                 k: nat): seq<ScopePath>
    requires current in g && k <= |g[current].relationships| && |links| < MAX_DERIVED_SCOPE_HOPS
    decreases MAX_DERIVED_SCOPE_HOPS - |links|, k
  {
    if k == 0 then []
    else Found(g, kind, current, links, visited, k - 1) + FoundThrough(g, kind, current, links, visited, k - 1)
  }

  function FoundThrough(g: ScopeGraph, kind: ScopeKind, current: string, links: seq<Link>, visited: set<string>,
                        k: nat): seq<ScopePath>
    requires current in g && k < |g[current].relationships| && |links| < MAX_DERIVED_SCOPE_HOPS
    decreases MAX_DERIVED_SCOPE_HOPS - |links|, k
  {
    if !Usable(g, current, visited, k) then []
    else
      var link := LinkFor(current, g[current].relationships[k]);
      if Scoped(g, kind, link.target) then [CandidateOf(g, kind, links + [link])]
      else FoundFrom(g, kind, link.target, links + [link], visited + {link.target})
  }

  function FoundFrom(g: ScopeGraph, kind: ScopeKind, current: string, links: seq<Link>,
                     visited: set<string>): seq<ScopePath>
    requires current in g && |links| <= MAX_DERIVED_SCOPE_HOPS
    decreases MAX_DERIVED_SCOPE_HOPS - |links|, |g[current].relationships| + 1
  {
    if |links| >= MAX_DERIVED_SCOPE_HOPS then []
      else Found(g, kind, current, links, visited, |g[current].relationships|)
  }

  // ---- What is found is what extends the path

  lemma {:induction false} FoundThroughContributes(g: ScopeGraph, kind: ScopeKind, current: string, links: seq<Link>,
                                                   visited: set<string>, k: nat, c: ScopePath)
    requires current in g && k < |g[current].relationships| && |links| < MAX_DERIVED_SCOPE_HOPS
    ensures c in FoundThrough(g, kind, current, links, visited, k)
       <==> Contributes(g, kind, current, visited, links, k, c)
    decreases MAX_DERIVED_SCOPE_HOPS - |links|, k
  {
    if Usable(g, current, visited, k) {
      var link := LinkFor(current, g[current].relationships[k]);
      if !Scoped(g, kind, link.target) {
        FoundFromExtends(g, kind, link.target, links + [link], visited + {link.target}, c);
      }
    }
  }

  lemma {:induction false} FoundIsBelow(g: ScopeGraph, kind: ScopeKind, current: string, links: seq<Link>,
                                        visited: set<string>, k: nat, c: ScopePath)
    requires current in g && k <= |g[current].relationships| && |links| < MAX_DERIVED_SCOPE_HOPS
    ensures c in Found(g, kind, current, links, visited, k) <==> ExtensionBelow(g, kind, current, visited, links, k, c)
    decreases MAX_DERIVED_SCOPE_HOPS - |links|, k
  {
    if k > 0 {
      FoundIsBelow(g, kind, current, links, visited, k - 1, c);
      FoundThroughContributes(g, kind, current, links, visited, k - 1, c);
      ContributionIsExtension(g, kind, current, visited, links, k - 1, c);
      assert ExtensionBelow(g, kind, current, visited, links, k, c)
        <==> ExtensionBelow(g, kind, current, visited, links, k - 1, c)
               || ExtensionBy(g, kind, current, visited, links, k - 1, c);
    }
  }

  /** The search finds exactly the candidates of the paths that complete the one walked so far. */
  lemma {:induction false} FoundFromExtends(g: ScopeGraph, kind: ScopeKind, current: string, links: seq<Link>,
                                            visited: set<string>, c: ScopePath)
    requires current in g && |links| <= MAX_DERIVED_SCOPE_HOPS
    ensures c in FoundFrom(g, kind, current, links, visited) <==> Extension(g, kind, current, visited, links, c)
    decreases MAX_DERIVED_SCOPE_HOPS - |links|, |g[current].relationships| + 1
  {
    if |links| < MAX_DERIVED_SCOPE_HOPS {
      FoundIsBelow(g, kind, current, links, visited, |g[current].relationships|, c);
      AllRelationshipsCovered(g, kind, current, visited, links, c);
    }
  }

  /** One iteration of the visit: relationship k of `current`. */
  method VisitOne(g: ScopeGraph, kind: ScopeKind, current: string, links: seq<Link>, visited: set<string>, k: nat,
                  candidates: seq<ScopePath>)
    returns (out: seq<ScopePath>)
    requires current in g && k < |g[current].relationships| && |links| < MAX_DERIVED_SCOPE_HOPS
    ensures out == candidates + FoundThrough(g, kind, current, links, visited, k)
    decreases MAX_DERIVED_SCOPE_HOPS - |links|, 0
  {
    out := candidates;
    if Usable(g, current, visited, k) {
      var link := LinkFor(current, g[current].relationships[k]);
      if Scoped(g, kind, link.target) {
        out := out + [CandidateOf(g, kind, links + [link])];
      } else {
        out := Visit(g, kind, link.target, links + [link], visited + {link.target}, out);
      }
    }
  }

  /** The recursive visit: appends exactly the candidates that extend `links` from `current`. */
  method Visit(g: ScopeGraph, kind: ScopeKind, current: string, links: seq<Link>, visited: set<string>,
               candidates: seq<ScopePath>)
    returns (out: seq<ScopePath>)
    requires current in g && |links| <= MAX_DERIVED_SCOPE_HOPS
    ensures out == candidates + FoundFrom(g, kind, current, links, visited)
    ensures forall c :: c in out[|candidates|..] <==> Extension(g, kind, current, visited, links, c)
    decreases MAX_DERIVED_SCOPE_HOPS - |links|, 1
  {
    forall c ensures c in FoundFrom(g, kind, current, links, visited)
      <==> Extension(g, kind, current, visited, links, c)
    {
      FoundFromExtends(g, kind, current, links, visited, c);
    }
    out := candidates;
    if |links| >= MAX_DERIVED_SCOPE_HOPS {
      return;
    }
    var k := 0;
    while k < |g[current].relationships|
      invariant k <= |g[current].relationships|
      invariant out == candidates + Found(g, kind, current, links, visited, k)
    {
      out := VisitOne(g, kind, current, links, visited, k, out);
      k := k + 1;
    }
  }

  // ---- The reference definition

  /** The resource that link i of a path out of `root` must leave from. */
  function SourceAt(root: string, links: seq<Link>, i: nat): string
    requires i <= |links|
  {
    if i == 0 then root else links[i - 1].target
  }

  /** l records r, a relationship of `at` that is not null and leads to at most one row. */
  predicate Describes(r: EvidenceRelationship, at: string, l: Link) {
    && r.cardinalityProven && !r.nullable
    && r.targetUniqueness == Some(l.uniqueness)
    && |r.columns| == |r.referencedColumns| > 0
    && l.constraintName == r.name && l.source == at && l.target == r.referenced
    && l.sourceColumns == r.columns && l.targetColumns == r.referencedColumns
    && !l.nullable && l.cardinality.ManyToOne? && l.maxFanOut == 1
  }

  /** l is the recorded proof of a usable relationship that `at` declares. */
  ghost predicate ProvenHop(g: ScopeGraph, at: string, l: Link) {
    && at in g
    && exists k: nat :: k < |g[at].relationships| && Describes(g[at].relationships[k], at, l)
  }

  /** Each link is a proven hop out of the resource the previous link reached. */
  ghost predicate Contiguous(g: ScopeGraph, root: string, links: seq<Link>, from: nat) {
    forall i | from <= i < |links| :: ProvenHop(g, SourceAt(root, links, i), links[i])
  }

  /** The targets are inspected resources, pairwise distinct and outside `avoid`. */
  ghost predicate Simple(g: ScopeGraph, avoid: set<string>, links: seq<Link>, from: nat) {
    && (forall i | from <= i < |links| :: links[i].target in g && links[i].target !in avoid)
    && (forall i, j | from <= i < j < |links| :: links[i].target != links[j].target)
  }

  predicate CarriesScope(g: ScopeGraph, kind: ScopeKind, id: string) {
    && id in g
    && match kind
       case Tenant => g[id].tenantKey.selected.Some?
       case Principal => g[id].principalKey.selected.Some?
  }

  /** The last resource carries a direct scope column and no intermediate resource does. */
  ghost predicate OnlyEndScoped(g: ScopeGraph, kind: ScopeKind, links: seq<Link>, from: nat) {
    forall i | from <= i < |links| :: CarriesScope(g, kind, links[i].target) <==> i == |links| - 1
  }

  ghost predicate PathFrom(g: ScopeGraph, kind: ScopeKind, root: string, avoid: set<string>, links: seq<Link>,
                           from: nat)
  {
    && from < |links| <= 3
    && Contiguous(g, root, links, from)
    && Simple(g, avoid, links, from)
    && OnlyEndScoped(g, kind, links, from)
  }

  /** The paths the review may offer: simple, one to three proven hops, the first scoped resource last. */
  ghost predicate SimpleScopePath(g: ScopeGraph, kind: ScopeKind, root: string, links: seq<Link>) {
    PathFrom(g, kind, root, {root}, links, 0)
  }

  lemma HopIsProven(g: ScopeGraph, at: string, visited: set<string>, l: Link)
    ensures SomeHop(g, at, visited, l) <==> ProvenHop(g, at, l) && l.target in g && l.target !in visited
  {
    if SomeHop(g, at, visited, l) {
      var k: nat :| Hop(g, at, visited, k, l);
      assert Describes(g[at].relationships[k], at, l);
    }
    if ProvenHop(g, at, l) && l.target in g && l.target !in visited {
      var k: nat :| k < |g[at].relationships| && Describes(g[at].relationships[k], at, l);
      assert Hop(g, at, visited, k, l);
    }
  }

  lemma PathUnfolds(g: ScopeGraph, kind: ScopeKind, root: string, avoid: set<string>, links: seq<Link>, from: nat)
    requires from < |links| <= MAX_DERIVED_SCOPE_HOPS
    ensures PathFrom(g, kind, root, avoid, links, from) <==>
            && ProvenHop(g, SourceAt(root, links, from), links[from])
            && links[from].target in g && links[from].target !in avoid
            && if from + 1 == |links| then Scoped(g, kind, links[from].target)
               else
                 && !Scoped(g, kind, links[from].target)
                 && PathFrom(g, kind, root, avoid + {links[from].target}, links, from + 1)
  {
    assert Contiguous(g, root, links, from)
      <==> ProvenHop(g, SourceAt(root, links, from), links[from]) && Contiguous(g, root, links, from + 1);
    assert OnlyEndScoped(g, kind, links, from)
      <==> (Scoped(g, kind, links[from].target) <==> from == |links| - 1) && OnlyEndScoped(g, kind, links, from + 1);
  }

  /** The walk the search follows and the declarative path are the same thing. */
  lemma {:induction false} WalkIffPath(g: ScopeGraph, kind: ScopeKind, root: string, visited: set<string>,
                                       links: seq<Link>, from: nat)
    requires from <= |links|
    ensures ScopeWalk(g, kind, SourceAt(root, links, from), visited, links, from)
       <==> PathFrom(g, kind, root, visited, links, from)
    decreases |links| - from
  {
    if from < |links| <= MAX_DERIVED_SCOPE_HOPS {
      HopIsProven(g, SourceAt(root, links, from), visited, links[from]);
      PathUnfolds(g, kind, root, visited, links, from);
      WalkIffPath(g, kind, root, visited + {links[from].target}, links, from + 1);
    }
  }

  // ---- The dedupe key and the final order

  function DedupeKey(c: ScopePath): string {
    c.pathId + ":" + c.ancestor + ":" + c.column
  }

  /** Insertion into an ordered map: a repeated key keeps its place and takes the new value. */
  function Put(c: ScopePath, cs: seq<ScopePath>): seq<ScopePath> {
    if cs == [] then [c]
    else if DedupeKey(cs[0]) == DedupeKey(c) then [c] + cs[1..]
    else [cs[0]] + Put(c, cs[1..])
  }

  function Dedupe(cs: seq<ScopePath>): seq<ScopePath> {
    if cs == [] then [] else Put(cs[|cs| - 1], Dedupe(cs[..|cs| - 1]))
  }

  ghost predicate KeysDistinct(cs: seq<ScopePath>) {
    forall i, j | 0 <= i < j < |cs| :: DedupeKey(cs[i]) != DedupeKey(cs[j])
  }

  ghost predicate KeyPresent(key: string, cs: seq<ScopePath>) {
    exists c | c in cs :: DedupeKey(c) == key
  }

  lemma {:induction false} PutKeys(c: ScopePath, cs: seq<ScopePath>)
    requires KeysDistinct(cs)
    ensures KeysDistinct(Put(c, cs))
    ensures c in Put(c, cs)
    ensures forall x :: x in Put(c, cs) ==> x == c || x in cs
    ensures forall x :: x in cs && DedupeKey(x) != DedupeKey(c) ==> x in Put(c, cs)
  {
    if cs != [] && DedupeKey(cs[0]) != DedupeKey(c) {
      assert KeysDistinct(cs[1..]) by {
        forall i, j | 0 <= i < j < |cs[1..]| ensures DedupeKey(cs[1..][i]) != DedupeKey(cs[1..][j]) {
          assert DedupeKey(cs[i + 1]) != DedupeKey(cs[j + 1]);
        }
      }
      PutKeys(c, cs[1..]);
      var rest := Put(c, cs[1..]);
      forall j | 0 <= j < |rest| ensures DedupeKey(cs[0]) != DedupeKey(rest[j]) {
        assert rest[j] in rest;
      }
      assert forall i | 0 < i < |Put(c, cs)| :: Put(c, cs)[i] == rest[i - 1];
    } else if cs != [] {
      assert forall i | 0 < i < |cs| :: Put(c, cs)[i] == cs[i];
    }
  }

  lemma {:induction false} DedupeKeys(cs: seq<ScopePath>)
    ensures KeysDistinct(Dedupe(cs))
    ensures forall c :: c in Dedupe(cs) ==> c in cs
    ensures forall c :: c in cs ==> KeyPresent(DedupeKey(c), Dedupe(cs))
  {
    if cs != [] {
      var last, init := cs[|cs| - 1], cs[..|cs| - 1];
      DedupeKeys(init);
      PutKeys(last, Dedupe(init));
      assert cs == init + [last];
      forall c | c in cs ensures KeyPresent(DedupeKey(c), Dedupe(cs)) {
        if DedupeKey(c) == DedupeKey(last) {
          assert last in Dedupe(cs);
        } else {
          assert c in init && KeyPresent(DedupeKey(c), Dedupe(init));
          var x :| x in Dedupe(init) && DedupeKey(x) == DedupeKey(c);
          assert x in Dedupe(cs);
        }
      }
    }
  }

  /** Path id, then ancestor, then column, each by the collation. */
  predicate CandidateLe(collation: (string, string) -> bool, a: ScopePath, b: ScopePath) {
    if a.pathId != b.pathId then collation(a.pathId, b.pathId)
    else if a.ancestor != b.ancestor then collation(a.ancestor, b.ancestor)
    else collation(a.column, b.column)
  }

  function CandidateOrder(collation: (string, string) -> bool): (ScopePath, ScopePath) -> bool {
    (a: ScopePath, b: ScopePath) => CandidateLe(collation, a, b)
  }

  lemma CandidateOrderIsPreorder(collation: (string, string) -> bool)
    requires TotalOrder(collation)
    ensures TotalPreorder(CandidateOrder(collation))
  {
    var le := CandidateOrder(collation);
    forall x, y ensures le(x, y) || le(y, x) {
      assert CandidateLe(collation, x, y) || CandidateLe(collation, y, x);
    }
    forall x, y, z | le(x, y) && le(y, z) ensures le(x, z) {
      assert CandidateLe(collation, x, y) && CandidateLe(collation, y, z);
      assert CandidateLe(collation, x, z);
    }
  }

  /** c is the candidate of the scope path `links` out of root. */
  ghost predicate OfferedBy(g: ScopeGraph, kind: ScopeKind, root: string, links: seq<Link>, c: ScopePath) {
    SimpleScopePath(g, kind, root, links) && c == CandidateOf(g, kind, links)
  }

  ghost predicate Offered(g: ScopeGraph, kind: ScopeKind, root: string, c: ScopePath) {
    exists links :: OfferedBy(g, kind, root, links, c)
  }

  lemma CompletionIsOffer(g: ScopeGraph, kind: ScopeKind, root: string, links: seq<Link>, c: ScopePath)
    ensures Completes(g, kind, root, {root}, [], links, c) <==> OfferedBy(g, kind, root, links, c)
  {
    WalkIffPath(g, kind, root, {root}, links, 0);
  }

  lemma ExtensionIsOffer(g: ScopeGraph, kind: ScopeKind, root: string, c: ScopePath)
    requires root in g
    ensures Extension(g, kind, root, {root}, [], c) <==> Offered(g, kind, root, c)
  {
    forall links ensures Completes(g, kind, root, {root}, [], links, c) <==> OfferedBy(g, kind, root, links, c) {
      CompletionIsOffer(g, kind, root, links, c);
    }
  }

  /** Every offered path appears under its key, nothing else appears, and each key appears once. */
  ghost predicate ExactlyOffered(g: ScopeGraph, kind: ScopeKind, root: string, cs: seq<ScopePath>) {
    && (forall c | c in cs :: Offered(g, kind, root, c))
    && (forall c | Offered(g, kind, root, c) :: KeyPresent(DedupeKey(c), cs))
    && (forall x, y | x in cs && y in cs && DedupeKey(x) == DedupeKey(y) :: x == y)
  }

  lemma KeysDistinctElements(cs: seq<ScopePath>, x: ScopePath, y: ScopePath)
    requires KeysDistinct(cs) && x in cs && y in cs && DedupeKey(x) == DedupeKey(y)
    ensures x == y
  {
    var i :| 0 <= i < |cs| && cs[i] == x;
    var j :| 0 <= j < |cs| && cs[j] == y;
    assert i == j;
  }

  /** The candidate list of one resource and one kind of scope. */
  function Candidates(g: ScopeGraph, kind: ScopeKind, root: string, collation: (string, string) -> bool): seq<ScopePath>
    requires root in g
  {
    Sort(Dedupe(FoundFrom(g, kind, root, [], {root})), CandidateOrder(collation))
  }

  /** The list is exact, in order, and holds each offered candidate or another one under its key. */
  lemma CandidatesAreExact(g: ScopeGraph, kind: ScopeKind, root: string, collation: (string, string) -> bool)
    requires root in g && TotalOrder(collation)
    ensures ExactlyOffered(g, kind, root, Candidates(g, kind, root, collation))
    ensures Sorted(Candidates(g, kind, root, collation), CandidateOrder(collation))
  {
    var found, candidates := FoundFrom(g, kind, root, [], {root}), Candidates(g, kind, root, collation);
    forall c ensures c in found <==> Offered(g, kind, root, c) {
      FoundFromExtends(g, kind, root, [], {root}, c);
      ExtensionIsOffer(g, kind, root, c);
    }
    DedupeKeys(found);
    MultisetMembers(candidates, Dedupe(found));
    CandidateOrderIsPreorder(collation);
    SortSorted(Dedupe(found), CandidateOrder(collation));
    forall c | Offered(g, kind, root, c) ensures KeyPresent(DedupeKey(c), candidates) {
      assert KeyPresent(DedupeKey(c), Dedupe(found));
    }
    forall x, y | x in candidates && y in candidates && DedupeKey(x) == DedupeKey(y) ensures x == y {
      KeysDistinctElements(Dedupe(found), x, y);
    }
  }

  method DerivedScopeCandidates(g: ScopeGraph, kind: ScopeKind, root: string, collation: (string, string) -> bool)
    returns (candidates: seq<ScopePath>)
    requires root in g && TotalOrder(collation)
    ensures candidates == Candidates(g, kind, root, collation)
    ensures ExactlyOffered(g, kind, root, candidates)
    ensures Sorted(candidates, CandidateOrder(collation))
  {
    var found := Visit(g, kind, root, [], {root}, []);
    assert found == FoundFrom(g, kind, root, [], {root});
    candidates := Sort(Dedupe(found), CandidateOrder(collation));
    CandidatesAreExact(g, kind, root, collation);
  }

  // ---- What the list tells apart

  /** Of the candidates found under one key, the last one found is kept. */
  ghost predicate LastOfKey(cs: seq<ScopePath>, i: nat) {
    i < |cs| && forall j | i < j < |cs| :: DedupeKey(cs[j]) != DedupeKey(cs[i])
  }

  ghost predicate LastUnderKey(cs: seq<ScopePath>, x: ScopePath) {
    exists i: nat :: LastOfKey(cs, i) && cs[i] == x
  }

  lemma LastWithOneMore(init: seq<ScopePath>, last: ScopePath, x: ScopePath)
    ensures LastUnderKey(init + [last], x) <==>
      x == last || (LastUnderKey(init, x) && DedupeKey(x) != DedupeKey(last))
  {
    var cs, n := init + [last], |init|;
    assert cs[n] == last && forall i | 0 <= i < n :: cs[i] == init[i];
    if x == last {
      assert LastOfKey(cs, n);
    }
    if LastUnderKey(cs, x) && x != last {
      var i: nat :| LastOfKey(cs, i) && cs[i] == x;
      assert DedupeKey(cs[n]) != DedupeKey(cs[i]);
      assert LastOfKey(init, i);
    }
    if LastUnderKey(init, x) && DedupeKey(x) != DedupeKey(last) {
      var i: nat :| LastOfKey(init, i) && init[i] == x;
      assert LastOfKey(cs, i);
    }
  }

  /** Deduplicating keeps exactly the last candidate found under each key. */
  lemma {:induction false} DedupeKeepsLast(cs: seq<ScopePath>, x: ScopePath)
    ensures x in Dedupe(cs) <==> LastUnderKey(cs, x)
  {
    if cs != [] {
      var init, last := cs[..|cs| - 1], cs[|cs| - 1];
      assert cs == init + [last];
      DedupeKeepsLast(init, x);
      DedupeKeys(init);
      PutKeys(last, Dedupe(init));
      LastWithOneMore(init, last, x);
      if x in Put(last, Dedupe(init)) && x != last {
        PutReplaces(last, Dedupe(init), x);
      }
    }
  }

  lemma {:induction false} PutReplaces(c: ScopePath, cs: seq<ScopePath>, x: ScopePath)
    requires KeysDistinct(cs) && x in Put(c, cs) && x != c
    ensures x in cs && DedupeKey(x) != DedupeKey(c)
  {
    PutKeys(c, cs);
    assert c in Put(c, cs);
    KeysDistinctElementsApart(Put(c, cs), x, c);
  }

  lemma KeysDistinctElementsApart(cs: seq<ScopePath>, x: ScopePath, y: ScopePath)
    requires KeysDistinct(cs) && x in cs && y in cs && x != y
    ensures DedupeKey(x) != DedupeKey(y)
  {
    if DedupeKey(x) == DedupeKey(y) {
      KeysDistinctElements(cs, x, y);
    }
  }

  /** The two candidates name the same path, the same ancestor and the same column. */
  predicate SameNames(a: ScopePath, b: ScopePath) {
    a.pathId == b.pathId && a.ancestor == b.ancestor && a.column == b.column
  }

  predicate SameText(a: ScopePath, b: ScopePath) {
    a.pathId + ":" + a.ancestor + ":" + a.column == b.pathId + ":" + b.ancestor + ":" + b.column
  }

  /** No two offered candidates with different names read alike once the names are joined by colons. */
  ghost predicate TextsTellApart(g: ScopeGraph, kind: ScopeKind, root: string) {
    forall c, d | Offered(g, kind, root, c) && Offered(g, kind, root, d) && SameText(c, d) :: SameNames(c, d)
  }

  ghost predicate ListedByNames(cs: seq<ScopePath>, c: ScopePath) {
    exists x | x in cs :: SameNames(x, c)
  }

  /**
   No two listed candidates share their path, ancestor and column, and each offered combination
   is listed if and only if no two different ones read alike when joined by colons.
   */
  lemma EveryOfferListed(g: ScopeGraph, kind: ScopeKind, root: string, collation: (string, string) -> bool)
    requires root in g && TotalOrder(collation)
    ensures forall x, y | x in Candidates(g, kind, root, collation) && y in Candidates(g, kind, root, collation)
      && SameNames(x, y) :: x == y
    ensures (forall c | Offered(g, kind, root, c) :: ListedByNames(Candidates(g, kind, root, collation), c)) <==>
      TextsTellApart(g, kind, root)
  {
    var cs := Candidates(g, kind, root, collation);
    CandidatesAreExact(g, kind, root, collation);
    if TextsTellApart(g, kind, root) {
      forall c | Offered(g, kind, root, c) ensures ListedByNames(cs, c) {
        OfferListed(g, kind, root, cs, c);
      }
    } else {
      var c, d :| Offered(g, kind, root, c) && Offered(g, kind, root, d) && SameText(c, d) && !SameNames(c, d);
      ListedUnderOneKey(g, kind, root, collation, c, d);
    }
  }

  lemma OfferListed(g: ScopeGraph, kind: ScopeKind, root: string, cs: seq<ScopePath>, c: ScopePath)
    requires ExactlyOffered(g, kind, root, cs) && TextsTellApart(g, kind, root) && Offered(g, kind, root, c)
    ensures ListedByNames(cs, c)
  {
    assert KeyPresent(DedupeKey(c), cs);
    var x :| x in cs && DedupeKey(x) == DedupeKey(c);
    assert SameText(x, c);
  }

  /** Some scope path out of root carries this id. */
  ghost predicate OffersId(g: ScopeGraph, kind: ScopeKind, root: string, pathId: string) {
    exists c :: Offered(g, kind, root, c) && c.pathId == pathId
  }

  predicate HasId(cs: seq<ScopePath>, pathId: string) {
    exists i | 0 <= i < |cs| :: cs[i].pathId == pathId
  }

  /** The ids in the list are ids of offered paths, and where no texts collide, all of them. */
  lemma OfferedIdsListed(g: ScopeGraph, kind: ScopeKind, root: string, pathId: string,
                         collation: (string, string) -> bool)
    requires root in g && TotalOrder(collation)
    ensures HasId(Candidates(g, kind, root, collation), pathId) ==> OffersId(g, kind, root, pathId)
    ensures TextsTellApart(g, kind, root) && OffersId(g, kind, root, pathId) ==>
      HasId(Candidates(g, kind, root, collation), pathId)
  {
    var cs := Candidates(g, kind, root, collation);
    CandidatesAreExact(g, kind, root, collation);
    if HasId(cs, pathId) {
      var i :| 0 <= i < |cs| && cs[i].pathId == pathId;
      assert cs[i] in cs;
    }
    if TextsTellApart(g, kind, root) && OffersId(g, kind, root, pathId) {
      var c :| Offered(g, kind, root, c) && c.pathId == pathId;
      OfferListed(g, kind, root, cs, c);
      var x :| x in cs && SameNames(x, c);
      var i :| 0 <= i < |cs| && cs[i] == x;
    }
  }

  /** What follows the last colon, and what precedes it. */
  lemma LastColonSplits(a: string, b: string, c: string, d: string)
    requires a + ":" + b == c + ":" + d && ':' !in b && ':' !in d
    ensures a == c && b == d
  {
    var s, t := a + ":" + b, c + ":" + d;
    LastColonAt(a, b);
    LastColonAt(c, d);
    assert |a| == |c|;
    assert a == s[..|a|] && b == s[|a| + 1..];
    assert c == t[..|c|] && d == t[|c| + 1..];
  }

  lemma LastColonAt(a: string, b: string)
    requires ':' !in b
    ensures
      var s := a + ":" + b;
      |s| == |a| + 1 + |b| && s[|a|] == ':' && forall i | |a| < i < |s| :: s[i] != ':'
  {
    var s := a + ":" + b;
    forall i | |a| < i < |s| ensures s[i] != ':' {
      assert s[i] == b[i - |a| - 1];
    }
  }

  /** Resource ids and scope columns hold no colon; constraint names may. */
  ghost predicate NamesWithoutColon(g: ScopeGraph, kind: ScopeKind) {
    forall id | id in g :: ':' !in id && ':' !in ScopeColumn(g[id], kind).GetOr("")
  }

  lemma WithoutColonTellsApart(g: ScopeGraph, kind: ScopeKind, root: string)
    requires NamesWithoutColon(g, kind)
    ensures TextsTellApart(g, kind, root)
  {
    forall c, d | Offered(g, kind, root, c) && Offered(g, kind, root, d) && SameText(c, d) ensures SameNames(c, d) {
      OfferedNames(g, kind, root, c);
      OfferedNames(g, kind, root, d);
      LastColonSplits(c.pathId + ":" + c.ancestor, c.column, d.pathId + ":" + d.ancestor, d.column);
      LastColonSplits(c.pathId, c.ancestor, d.pathId, d.ancestor);
    }
  }

  lemma OfferedNames(g: ScopeGraph, kind: ScopeKind, root: string, c: ScopePath)
    requires Offered(g, kind, root, c)
    ensures c.ancestor in g && Some(c.column) == ScopeColumn(g[c.ancestor], kind)
  {
    var links: seq<Link> :| OfferedBy(g, kind, root, links, c);
    assert Scoped(g, kind, links[|links| - 1].target);
  }

  /** Candidates are listed by path id, then by ancestor, then by column. */
  lemma ListedInOrder(g: ScopeGraph, kind: ScopeKind, root: string, collation: (string, string) -> bool, i: nat, j: nat)
    requires root in g && TotalOrder(collation) && i < j < |Candidates(g, kind, root, collation)|
    ensures
      var a, b := Candidates(g, kind, root, collation)[i], Candidates(g, kind, root, collation)[j];
      && collation(a.pathId, b.pathId)
      && (a.pathId == b.pathId ==> collation(a.ancestor, b.ancestor))
      && (a.pathId == b.pathId && a.ancestor == b.ancestor ==> collation(a.column, b.column))
  {
    CandidatesAreExact(g, kind, root, collation);
    var le := CandidateOrder(collation);
    assert le(Candidates(g, kind, root, collation)[i], Candidates(g, kind, root, collation)[j]);
    assert forall x :: collation(x, x) || collation(x, x);
  }

  // ---- A concrete collision

  function UniqueReference(name: string, target: string): EvidenceRelationship {
    EvidenceRelationship(name, ["x"], target, ["id"], false, true, Some(Uniqueness(PrimaryKey, "pk", ["id"])))
  }

  const UNSCOPED := Inference(None, [])

  const SCOPED_BY_T := ScopeNode(Inference(Some("t"), ["t"]), UNSCOPED, [])

  /** Constraint "a" leads to resource "b:c", constraint "a:b" to resource "c". */
  const COLON_GRAPH: ScopeGraph := map[
    "r" := ScopeNode(UNSCOPED, UNSCOPED, [UniqueReference("a", "b:c"), UniqueReference("a:b", "c")]),
    "b:c" := SCOPED_BY_T,
    "c" := SCOPED_BY_T]

  lemma ReferenceOffered(k: nat, c: ScopePath)
    requires k < 2
    requires c == CandidateOf(COLON_GRAPH, Tenant, [LinkFor("r", COLON_GRAPH["r"].relationships[k])])
    ensures Offered(COLON_GRAPH, Tenant, "r", c)
  {
    var links := [LinkFor("r", COLON_GRAPH["r"].relationships[k])];
    assert Describes(COLON_GRAPH["r"].relationships[k], "r", links[0]);
    assert ProvenHop(COLON_GRAPH, "r", links[0]);
    assert OfferedBy(COLON_GRAPH, Tenant, "r", links, c);
  }

  lemma ListedUnderOneKey(g: ScopeGraph, kind: ScopeKind, root: string, collation: (string, string) -> bool,
                          c: ScopePath, d: ScopePath)
    requires root in g && TotalOrder(collation) && SameText(c, d) && !SameNames(c, d)
    ensures
      var listed := Candidates(g, kind, root, collation);
      !ListedByNames(listed, c) || !ListedByNames(listed, d)
  {
    CandidatesAreExact(g, kind, root, collation);
  }

  /** Two paths to two ancestors are offered, and one of them is not listed. */
  lemma ColonsHideAPath(collation: (string, string) -> bool) returns (c: ScopePath, d: ScopePath)
    requires TotalOrder(collation)
    ensures Offered(COLON_GRAPH, Tenant, "r", c) && c.pathId == "a" && c.ancestor == "b:c" && c.column == "t"
    ensures Offered(COLON_GRAPH, Tenant, "r", d) && d.pathId == "a:b" && d.ancestor == "c" && d.column == "t"
    ensures
      var listed := Candidates(COLON_GRAPH, Tenant, "r", collation);
      !ListedByNames(listed, c) || !ListedByNames(listed, d)
  {
    c := CandidateOf(COLON_GRAPH, Tenant, [LinkFor("r", COLON_GRAPH["r"].relationships[0])]);
    d := CandidateOf(COLON_GRAPH, Tenant, [LinkFor("r", COLON_GRAPH["r"].relationships[1])]);
    ReferenceOffered(0, c);
    ReferenceOffered(1, d);
    assert "a" + ":" + "b:c" + ":" + "t" == "a:b" + ":" + "c" + ":" + "t";
    ListedUnderOneKey(COLON_GRAPH, Tenant, "r", collation, c, d);
  }
}
