// When a run gives up: the worklist over a whole run, and what an empty search means.
module Exhaustion {
  import opened Catalog
  import opened Fallback

  // Fallback edges through models the run has tried and through auth-blocked siblings.
  ghost predicate FollowsFrom(view: View, roots: seq<string>, path: seq<string>) {
    && path != [] && path[0] in roots
    && forall k :: 0 <= k < |path| - 1 ==>
         && (path[k] in view.visited || view.Blocked(path[k])) && path[k] in view.models
         && path[k + 1] in view.models[path[k]].fallbackModelIds
  }

  // Every tried model's fallbacks have been put on the worklist.
  ghost predicate Expanded(view: View, pending: seq<string>) {
    forall v, f :: v in view.visited && v in view.models && f in view.models[v].fallbackModelIds ==> f in pending
  }

  lemma {:induction false} NothingIsLeft(view: View, roots: seq<string>, pending: seq<string>, path: seq<string>)
    requires forall x :: x in roots ==> x in view.visited || x in pending
    requires Expanded(view, pending) && ClosedUnderBlocked(view, pending)
    requires forall x :: x in pending ==> !view.Dispatchable(x)
    requires FollowsFrom(view, roots, path)
    ensures path[|path| - 1] in view.visited || path[|path| - 1] in pending
    ensures !view.Dispatchable(path[|path| - 1])
    decreases |path|
  {
    if |path| > 1 {
      var front := path[..|path| - 1];
      assert FollowsFrom(view, roots, front);
      NothingIsLeft(view, roots, pending, front);
      assert path[|path| - 1] in view.models[front[|front| - 1]].fallbackModelIds;
    }
  }

  // No dispatchable model is left anywhere the run could have gone.
  ghost predicate NoneLeft(view: View, roots: seq<string>) {
    forall path :: FollowsFrom(view, roots, path) ==> !view.Dispatchable(path[|path| - 1])
  }

  // The worklist holds the automatic fallbacks and the fallbacks of every model tried so far.
  ghost predicate Worked(view: View, pending: seq<string>, start: string, autoFallbacks: seq<string>) {
    start in view.visited && Expanded(view, pending) && forall x :: x in autoFallbacks ==> x in pending
  }

  lemma AllAreTried(view: View, start: string, autoFallbacks: seq<string>, pending: seq<string>)
    requires Worked(view, pending, start, autoFallbacks) && ClosedUnderBlocked(view, pending)
    requires forall x :: x in pending ==> !view.Dispatchable(x)
    ensures NoneLeft(view, [start] + autoFallbacks)
  {
    var roots := [start] + autoFallbacks;
    forall path | FollowsFrom(view, roots, path) ensures !view.Dispatchable(path[|path| - 1]) {
      NothingIsLeft(view, roots, pending, path);
    }
  }

  lemma WorkedAfterSearch(
    before: View, pending: seq<string>, after: View, pending': seq<string>, binding: Binding, start: string,
    autoFallbacks: seq<string>)
    requires after.models == before.models && after.visited == before.visited + [binding.modelId]
    requires binding.modelId in before.models && before.models[binding.modelId] == binding
    requires if before.visited == [] then binding.modelId == start else Worked(before, pending, start, autoFallbacks)
    requires CarriesOver(pending, binding.fallbackModelIds + autoFallbacks, pending')
    ensures Worked(after, pending', start, autoFallbacks)
  {
    var ids := binding.fallbackModelIds + autoFallbacks;
    forall v, f | v in after.visited && v in after.models && f in after.models[v].fallbackModelIds
      ensures f in pending'
    {
      if v == binding.modelId {
        assert f in ids;
      }
    }
    assert forall x :: x in autoFallbacks ==> x in ids;
  }

  // ---- within reach ----

  // The model can be dispatched and lies at the end of such a path.
  ghost predicate InReach(view: View, roots: seq<string>, id: string) {
    view.Dispatchable(id) && Connected(view, roots, id)
  }

  ghost predicate Connected(view: View, roots: seq<string>, id: string) {
    exists path :: FollowsFrom(view, roots, path) && path[|path| - 1] == id
  }

  ghost predicate AnyInReach(view: View, roots: seq<string>) {
    exists id :: InReach(view, roots, id)
  }

  ghost predicate AllConnected(view: View, roots: seq<string>, ids: seq<string>) {
    forall x :: x in ids ==> Connected(view, roots, x)
  }

  lemma RootsAreConnected(view: View, roots: seq<string>)
    ensures AllConnected(view, roots, roots)
  {
    forall x | x in roots ensures Connected(view, roots, x) {
      assert FollowsFrom(view, roots, [x]) && [x][|[x]| - 1] == x;
    }
  }

  lemma ConnectedStep(view: View, roots: seq<string>, id: string, next: string)
    requires Connected(view, roots, id) && (id in view.visited || view.Blocked(id)) && id in view.models
    requires next in view.models[id].fallbackModelIds
    ensures Connected(view, roots, next)
  {
    var path :| FollowsFrom(view, roots, path) && path[|path| - 1] == id;
    var longer := path + [next];
    assert FollowsFrom(view, roots, longer) && longer[|longer| - 1] == next;
  }

  // What a run learns later takes no path away.
  lemma StillConnected(view: View, later: View, roots: seq<string>, ids: seq<string>)
    requires later.models == view.models && later.request == view.request
    requires view.visited <= later.visited && view.authFailed <= later.authFailed
    requires AllConnected(view, roots, ids)
    ensures AllConnected(later, roots, ids)
  {
    hide SupportsRequest;
    forall x | x in ids ensures Connected(later, roots, x) {
      var path :| FollowsFrom(view, roots, path) && path[|path| - 1] == x;
      assert FollowsFrom(later, roots, path);
    }
  }

  // What a scan reaches from connected ids is connected.
  lemma {:induction false} ReachedIsConnected(view: View, roots: seq<string>, start: seq<string>, path: seq<string>)
    requires AllConnected(view, roots, start) && Leads(view, start, path)
    ensures Connected(view, roots, path[|path| - 1])
    decreases |path|
  {
    hide Connected, SupportsRequest;
    if |path| > 1 {
      var front := path[..|path| - 1];
      assert Leads(view, start, front);
      ReachedIsConnected(view, roots, start, front);
      ConnectedStep(view, roots, front[|front| - 1], path[|path| - 1]);
    }
  }

  lemma AllReachedAreConnected(view: View, roots: seq<string>, start: seq<string>, list: seq<string>)
    requires AllConnected(view, roots, start) && AllReachable(view, start, list)
    ensures AllConnected(view, roots, list)
  {
    hide Connected, SupportsRequest;
    forall x | x in list ensures Connected(view, roots, x) {
      assert Reachable(view, start, x);
      var path :| Leads(view, start, path) && path[|path| - 1] == x;
      ReachedIsConnected(view, roots, start, path);
    }
  }

  // The fallbacks of a tried model that is connected itself, and the automatic ones.
  lemma NewIdsAreConnected(
    view: View, start: string, autoFallbacks: seq<string>, pending: seq<string>, binding: Binding)
    requires binding.modelId in view.visited && binding.modelId in view.models
    requires view.models[binding.modelId] == binding
    requires AllConnected(view, [start] + autoFallbacks, pending + [binding.modelId])
    ensures
      AllConnected(view, [start] + autoFallbacks, pending + (binding.fallbackModelIds + autoFallbacks))
  {
    hide Connected;
    var roots := [start] + autoFallbacks;
    RootsAreConnected(view, roots);
    assert forall x :: x in autoFallbacks ==> x in roots;
    assert binding.modelId in pending + [binding.modelId];
    forall x | x in binding.fallbackModelIds ensures Connected(view, roots, x) {
      ConnectedStep(view, roots, binding.modelId, x);
    }
    assert forall x :: x in pending ==> x in pending + [binding.modelId];
  }

  lemma NothingInReach(view: View, roots: seq<string>)
    ensures NoneLeft(view, roots) <==> !AnyInReach(view, roots)
  {
    forall id | NoneLeft(view, roots) ensures !InReach(view, roots, id) {
      if path :| FollowsFrom(view, roots, path) && path[|path| - 1] == id {
        assert !view.Dispatchable(path[|path| - 1]);
      }
    }
    forall path | !AnyInReach(view, roots) && FollowsFrom(view, roots, path)
      ensures !view.Dispatchable(path[|path| - 1])
    {
      assert !InReach(view, roots, path[|path| - 1]);
    }
  }
}
