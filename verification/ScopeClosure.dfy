/**
 The scope-dependency worklist: the least closed set of resources a resource needs, or
 nothing exactly when a dependency it can reach is missing.
 */
module ScopeClosure {
  import opened Catalog
  import opened Pack

  type ResourceMap = map<string, Resource>

  function LinkEnds(links: seq<Link>): seq<string> {
    if links == [] then [] else [links[0].source, links[0].target] + LinkEnds(links[1..])
  }

  function ScopeDependencies(scope: Option<ScopePath>): seq<string> {
    if scope.None? then [] else [scope.value.ancestor] + LinkEnds(scope.value.proof.links)
  }

  /** The resources that the scope paths of r pass through, tenant scope first. */
  function Dependencies(r: Resource): seq<string> {
    ScopeDependencies(r.tenantScope) + ScopeDependencies(r.principalScope)
  }

  ghost predicate DependsOn(resources: ResourceMap, id: string, d: string) {
    id in resources && d in Dependencies(resources[id])
  }

  ghost predicate Closed(resources: ResourceMap, s: set<string>) {
    && s <= resources.Keys
    && forall id, d | id in s && DependsOn(resources, id, d) :: d in s
  }

  /** Each entry depends on the next one. */
  ghost predicate DependencyPath(resources: ResourceMap, path: seq<string>) {
    path != [] && forall i | 0 <= i < |path| - 1 :: DependsOn(resources, path[i], path[i + 1])
  }

  ghost predicate LeadsTo(resources: ResourceMap, root: string, d: string, path: seq<string>) {
    DependencyPath(resources, path) && path[0] == root && path[|path| - 1] == d
  }

  ghost predicate Reachable(resources: ResourceMap, root: string, d: string) {
    exists path :: LeadsTo(resources, root, d, path)
  }

  lemma ReachableStep(resources: ResourceMap, root: string, mid: string, d: string)
    requires Reachable(resources, root, mid) && DependsOn(resources, mid, d)
    ensures Reachable(resources, root, d)
  {
    var path :| LeadsTo(resources, root, mid, path);
    assert LeadsTo(resources, root, d, path + [d]);
  }

  lemma {:induction false} ClosedContainsPath(resources: ResourceMap, s: set<string>, path: seq<string>, i: nat)
    requires Closed(resources, s) && DependencyPath(resources, path) && path[0] in s && i < |path|
    ensures path[i] in s
  {
    if i > 0 {
      ClosedContainsPath(resources, s, path, i - 1);
      assert DependsOn(resources, path[i - 1], path[i - 1 + 1]);
    }
  }

  lemma ClosedContainsReachable(resources: ResourceMap, root: string, s: set<string>, d: string)
    requires root in s && Closed(resources, s) && Reachable(resources, root, d)
    ensures d in s
  {
    var path :| LeadsTo(resources, root, d, path);
    ClosedContainsPath(resources, s, path, |path| - 1);
  }

  /** s is the smallest closed set that holds root. */
  ghost predicate IsClosure(resources: ResourceMap, root: string, s: set<string>) {
    root in s && Closed(resources, s) && forall t | root in t && Closed(resources, t) :: s <= t
  }

  ghost predicate MissingDependency(resources: ResourceMap, root: string) {
    exists d :: Reachable(resources, root, d) && d !in resources
  }

  lemma ReachableClosedIsClosure(resources: ResourceMap, root: string, s: set<string>)
    requires root in s && Closed(resources, s) && forall d | d in s :: Reachable(resources, root, d)
    ensures IsClosure(resources, root, s)
    ensures !MissingDependency(resources, root)
  {
    forall t | root in t && Closed(resources, t) ensures s <= t {
      forall d | d in s ensures d in t {
        ClosedContainsReachable(resources, root, t, d);
      }
    }
    forall d | Reachable(resources, root, d) ensures d in resources {
      ClosedContainsReachable(resources, root, s, d);
    }
  }

  ghost predicate WorklistHolds(resources: ResourceMap, root: string, closure: set<string>, pending: seq<string>) {
    && closure <= resources.Keys
    && (root in closure || root in pending)
    && (forall d | d in closure || d in pending :: Reachable(resources, root, d))
    && (forall id, d | id in closure && DependsOn(resources, id, d) :: d in closure || d in pending)
  }

  /** Queues the dependencies that are not in the closure yet; fails on one that is not inspected. */
  method QueueDependencies(dependencies: seq<string>, resources: ResourceMap, closed: set<string>, pending: seq<string>)
    returns (queued: Option<seq<string>>)
    ensures queued.None? ==> exists d | d in dependencies :: d !in resources
    ensures queued.Some? ==>
              && (forall d | d in dependencies :: d in closed || d in queued.value)
              && (forall d | d in pending :: d in queued.value)
              && (forall d | d in queued.value :: d in pending || d in dependencies)
  {
    var next := pending;
    var k := 0;
    while k < |dependencies|
      invariant k <= |dependencies|
      invariant forall j | 0 <= j < k :: dependencies[j] in closed || dependencies[j] in next
      invariant forall d | d in pending :: d in next
      invariant forall d | d in next :: d in pending || d in dependencies
    {
      var dependency := dependencies[k];
      if dependency !in resources {
        return None;
      }
      if dependency !in closed {
        next := next + [dependency];
      }
      k := k + 1;
    }
    return Some(next);
  }

  /** The closure of one resource, or None when some reachable dependency is not inspected. */
  method ScopeDependencyClosure(root: string, resources: ResourceMap) returns (closure: Option<set<string>>)
    ensures closure.Some? ==> IsClosure(resources, root, closure.value)
    ensures closure.None? <==> MissingDependency(resources, root)
  {
    var closed: set<string> := {};
    var pending := [root];
    assert LeadsTo(resources, root, root, [root]);
    while pending != []
      invariant WorklistHolds(resources, root, closed, pending)
      decreases resources.Keys - closed, |pending|
    {
      var id := pending[0];
      assert pending == [id] + pending[1..];
      assert Reachable(resources, root, id);
      if id in closed {
        pending := pending[1..];
      } else if id !in resources {
        return None;
      } else {
        var dependencies := Dependencies(resources[id]);
        var queued := QueueDependencies(dependencies, resources, closed + {id}, pending[1..]);
        forall d | d in dependencies ensures Reachable(resources, root, d) {
          ReachableStep(resources, root, id, d);
        }
        if queued.None? {
          return None;
        }
        closed := closed + {id};
        pending := queued.value;
      }
    }
    ReachableClosedIsClosure(resources, root, closed);
    return Some(closed);
  }
}
