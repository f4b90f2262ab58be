/** Start order of the service manager: the dependency multigraph and its layering.

    `services` maps a service name to the dependency list it declares, which may repeat
    names, name the service itself, or name services that are not in the process. A
    service that declares none has the empty list.
 */
module DependencyOrder {
  import opened Common

  datatype Name = Name(text: string)
  type Services = map<Name, seq<Name>>

  datatype OrderResult = Ordered(groups: seq<seq<Name>>) | CyclicDependency

  // ---------------------------------------------------------------- specification

  predicate DependsOn(services: Services, a: Name, b: Name) {
    a in services && b in services && b in services[a]
  }

  /** Each element of `p` depends on the next one. */
  ghost predicate Chain(services: Services, p: seq<Name>) {
    && |p| > 0
    && p[0] in services
    && forall i, j :: 0 <= i && j == i + 1 && j < |p| ==> DependsOn(services, p[i], p[j])
  }

  ghost predicate ChainFrom(services: Services, n: Name, p: seq<Name>) {
    Chain(services, p) && p[0] == n
  }

  ghost predicate Cycle(services: Services, p: seq<Name>) {
    Chain(services, p) && |p| > 1 && p[0] == p[|p| - 1]
  }

  ghost predicate Cyclic(services: Services) {
    exists p :: Cycle(services, p)
  }

  /** The longest dependency chain that starts at `n` has exactly `k` edges. */
  ghost predicate Depth(services: Services, n: Name, k: nat) {
    && (exists p :: ChainFrom(services, n, p) && |p| == k + 1)
    && (forall p :: ChainFrom(services, n, p) ==> |p| <= k + 1)
  }

  /** Group `k` lists, once each, exactly the services of depth `k`; no group is empty and
      every service is in one. */
  ghost predicate Layered(services: Services, groups: seq<seq<Name>>) {
    && (forall k :: 0 <= k < |groups| ==> groups[k] != [] && NoDuplicates(groups[k]))
    && (forall k, n :: 0 <= k < |groups| ==>
          (n in groups[k] <==> n in services && Depth(services, n, k)))
    && (forall n {:trigger Placed(groups, n)} :: n in services ==> Placed(groups, n))
  }

  ghost predicate Placed(groups: seq<seq<Name>>, n: Name) {
    exists k :: 0 <= k < |groups| && n in groups[k]
  }

  // ---------------------------------------------------------------- counting edges

  /** How many positions of `deps` name a member of `live`. */
  function Open(deps: seq<Name>, live: set<Name>): nat {
    if deps == [] then 0
    else Open(deps[..|deps| - 1], live) + if deps[|deps| - 1] in live then 1 else 0
  }

  /** How many times `x` occurs in `s`. */
  function Times(s: seq<Name>, x: Name): nat {
    if s == [] then 0
    else Times(s[..|s| - 1], x) + if s[|s| - 1] == x then 1 else 0
  }

  lemma TimesAppend(s: seq<Name>, y: Name, x: Name)
    ensures Times(s + [y], x) == Times(s, x) + if x == y then 1 else 0
  {
  }

  lemma {:induction false} TimesPrefix(s: seq<Name>, k: nat)
    requires k < |s|
    ensures Times(s[..k], s[k]) < Times(s, s[k])
    decreases |s|
  {
    var front := s[..|s| - 1];
    if k < |s| - 1 {
      TimesPrefix(front, k);
      assert front[..k] == s[..k];
    }
  }

  lemma {:induction false} OpenPositive(deps: seq<Name>, live: set<Name>)
    ensures Open(deps, live) > 0 <==> exists d :: d in deps && d in live
  {
    if deps != [] {
      var front, last := deps[..|deps| - 1], deps[|deps| - 1];
      assert deps == front + [last];
      OpenPositive(front, live);
    }
  }

  /** Closing one name takes away one unit per occurrence. */
  lemma {:induction false} OpenRemove(deps: seq<Name>, live: set<Name>, d: Name)
    requires d in live
    ensures Open(deps, live) == Open(deps, live - {d}) + Times(deps, d)
  {
    if deps != [] {
      var front, last := deps[..|deps| - 1], deps[|deps| - 1];
      assert deps == front + [last];
      OpenRemove(front, live, d);
    }
  }

  function Get(dependents: map<Name, seq<Name>>, d: Name): seq<Name> {
    if d in dependents then dependents[d] else []
  }

  /** `dependents` lists each service once per occurrence of the dependency in the lists
      `read` so far. */
  ghost predicate Edges(services: Services, read: Services, dependents: map<Name, seq<Name>>) {
    && read.Keys == services.Keys
    && (forall d, n {:trigger Times(Get(dependents, d), n)} :: d in services && n in services ==>
          Times(Get(dependents, d), n) == Times(read[n], d))
    && (forall d, n {:trigger n in Get(dependents, d)} :: d in services && n in Get(dependents, d) ==> n in services)
  }

  /** Together with the degrees, which count the open dependencies of each service. */
  ghost predicate GraphOf(services: Services, read: Services, inDegree: map<Name, int>,
                          dependents: map<Name, seq<Name>>) {
    && inDegree.Keys == services.Keys == read.Keys
    && (forall n {:trigger inDegree[n]} :: n in services ==> inDegree[n] == Open(read[n], services.Keys))
    && Edges(services, read, dependents)
  }

  lemma PrefixStep<T>(s: seq<T>, i: nat)
    requires i < |s|
    ensures s[..i + 1] == s[..i] + [s[i]]
  {
  }

  lemma OpenAppend(deps: seq<Name>, live: set<Name>, d: Name)
    ensures Open(deps + [d], live) == Open(deps, live) + if d in live then 1 else 0
  {
  }

  function AddDependent(dependents: map<Name, seq<Name>>, d: Name, n: Name): map<Name, seq<Name>> {
    dependents[d := Get(dependents, d) + [n]]
  }

  lemma AddOneEdge(services: Services, read: Services, dependents: map<Name, seq<Name>>, name: Name, d: Name)
    requires Edges(services, read, dependents) && name in services
    ensures Edges(services, read[name := read[name] + [d]],
                  if d in services then AddDependent(dependents, d, name) else dependents)
  {
    var read' := read[name := read[name] + [d]];
    var dependents' := if d in services then AddDependent(dependents, d, name) else dependents;
    forall e, n | e in services && n in services
      ensures Times(Get(dependents', e), n) == Times(read'[n], e)
    {
      assert Times(Get(dependents, e), n) == Times(read[n], e);
      TimesAppend(read[name], d, e);
      TimesAppend(Get(dependents, d), name, n);
    }
    forall e, n | e in services && n in Get(dependents', e)
      ensures n in services
    {
      assert n in Get(dependents, e) || n == name;
    }
  }

  lemma ReadOneDependency(services: Services, read: Services, inDegree: map<Name, int>,
                          dependents: map<Name, seq<Name>>, name: Name, d: Name)
    requires GraphOf(services, read, inDegree, dependents) && name in services
    ensures d in services ==>
      GraphOf(services, read[name := read[name] + [d]], inDegree[name := inDegree[name] + 1],
              AddDependent(dependents, d, name))
    ensures d !in services ==> GraphOf(services, read[name := read[name] + [d]], inDegree, dependents)
  {
    OpenAppend(read[name], services.Keys, d);
    AddOneEdge(services, read, dependents, name, d);
  }

  /** The lists read once all services outside `todo` are done. */
  ghost function ReadOutside(services: Services, todo: set<Name>): Services {
    map n | n in services :: if n in todo then [] else services[n]
  }

  lemma NothingRead(services: Services)
    ensures GraphOf(services, ReadOutside(services, services.Keys), map n | n in services :: 0, map[])
  {
  }

  lemma ReadAll(services: Services)
    ensures ReadOutside(services, {}) == services
  {
  }

  lemma ReadNext(services: Services, todo: set<Name>, name: Name)
    requires name in todo && todo <= services.Keys
    ensures ReadOutside(services, todo)[name := services[name]] == ReadOutside(services, todo - {name})
  {
  }

  /** The inner loop: counts the dependencies that one service declares, skipping those not
      in the process. */
  method ReadDependencies(services: Services, name: Name, inDegree0: map<Name, int>, dependents0: map<Name, seq<Name>>,
                          ghost read: Services)
    returns (inDegree: map<Name, int>, dependents: map<Name, seq<Name>>)
    requires GraphOf(services, read, inDegree0, dependents0) && name in services && read[name] == []
    ensures GraphOf(services, read[name := services[name]], inDegree, dependents)
  {
    inDegree, dependents := inDegree0, dependents0;
    var deps := services[name];
    ghost var soFar := read;
    for i := 0 to |deps|
      invariant GraphOf(services, soFar, inDegree, dependents)
      invariant soFar == read[name := deps[..i]]
    {
      PrefixStep(deps, i);
      ReadOneDependency(services, soFar, inDegree, dependents, name, deps[i]);
      soFar := soFar[name := soFar[name] + [deps[i]]];
      if deps[i] in services {
        inDegree := inDegree[name := inDegree[name] + 1];
        dependents := AddDependent(dependents, deps[i], name);
      }
    }
    assert deps[..|deps|] == deps;
  }

  method BuildDepGraph(services: Services)
    returns (inDegree: map<Name, int>, dependents: map<Name, seq<Name>>)
    ensures GraphOf(services, services, inDegree, dependents)
  {
    inDegree := map n | n in services :: 0;
    dependents := map[];
    NothingRead(services);
    var todo := services.Keys;
    while todo != {}
      invariant todo <= services.Keys
      invariant GraphOf(services, ReadOutside(services, todo), inDegree, dependents)
      decreases todo
    {
      var name :| name in todo;
      ReadNext(services, todo, name);
      inDegree, dependents := ReadDependencies(services, name, inDegree, dependents, ReadOutside(services, todo));
      todo := todo - {name};
    }
    ReadAll(services);
  }

  // ---------------------------------------------------------------- ranks and depth

  /** A rank that sits right above the highest ranked dependency. */
  ghost predicate Ranked(services: Services, rank: map<Name, nat>) {
    && rank.Keys <= services.Keys
    && (forall n, d :: n in rank && DependsOn(services, n, d) ==> d in rank && rank[d] < rank[n])
    && (forall n {:trigger DependsAtRank(services, rank, n)} :: n in rank && rank[n] > 0 ==>
          DependsAtRank(services, rank, n))
  }

  ghost predicate DependsAtRank(services: Services, rank: map<Name, nat>, n: Name) {
    n in rank && exists d :: DependsOn(services, n, d) && d in rank && rank[d] + 1 == rank[n]
  }

  ghost predicate DependsInto(services: Services, n: Name, live: set<Name>) {
    exists d :: DependsOn(services, n, d) && d in live
  }

  lemma ChainTail(services: Services, p: seq<Name>)
    requires Chain(services, p) && |p| > 1
    ensures DependsOn(services, p[0], p[1]) && Chain(services, p[1..])
  {
  }

  lemma {:induction false} ChainDescends(services: Services, rank: map<Name, nat>, p: seq<Name>)
    requires Ranked(services, rank) && Chain(services, p) && p[0] in rank
    ensures p[|p| - 1] in rank && rank[p[|p| - 1]] + |p| - 1 <= rank[p[0]]
  {
    if |p| > 1 {
      ChainTail(services, p);
      ChainDescends(services, rank, p[1..]);
    }
  }

  lemma {:induction false} ChainOfRank(services: Services, rank: map<Name, nat>, n: Name) returns (p: seq<Name>)
    requires Ranked(services, rank) && n in rank
    ensures ChainFrom(services, n, p) && |p| == rank[n] + 1
    decreases rank[n]
  {
    if rank[n] == 0 {
      p := [n];
    } else {
      assert DependsAtRank(services, rank, n);
      var d :| DependsOn(services, n, d) && d in rank && rank[d] + 1 == rank[n];
      var q := ChainOfRank(services, rank, d);
      p := [n] + q;
    }
  }

  lemma RankIsDepth(services: Services, rank: map<Name, nat>, n: Name)
    requires Ranked(services, rank) && n in rank
    ensures Depth(services, n, rank[n])
  {
    var p := ChainOfRank(services, rank, n);
    forall q | ChainFrom(services, n, q)
      ensures |q| <= rank[n] + 1
    {
      ChainDescends(services, rank, q);
    }
  }

  lemma DepthUnique(services: Services, n: Name, j: nat, k: nat)
    requires Depth(services, n, j) && Depth(services, n, k)
    ensures j == k
  {
  }

  lemma FullRankIsAcyclic(services: Services, rank: map<Name, nat>)
    requires Ranked(services, rank) && rank.Keys == services.Keys
    ensures !Cyclic(services)
  {
    forall p | Cycle(services, p)
      ensures false
    {
      ChainDescends(services, rank, p);
    }
  }

  // ---------------------------------------------------------------- left-over services are cyclic

  lemma {:induction false} DistinctFits(p: seq<Name>, live: set<Name>)
    requires NoDuplicates(p) && forall x :: x in p ==> x in live
    ensures |p| <= |live|
  {
    if p != [] {
      var front, last := p[..|p| - 1], p[|p| - 1];
      DistinctFits(front, live - {last});
    }
  }

  /** A walk inside a set in which every service has a dependency must close: pigeonhole. */
  lemma {:induction false} WalkCloses(services: Services, live: set<Name>, p: seq<Name>)
    requires live <= services.Keys
    requires forall n {:trigger DependsInto(services, n, live)} :: n in live ==> DependsInto(services, n, live)
    requires Chain(services, p) && NoDuplicates(p) && forall x :: x in p ==> x in live
    ensures Cyclic(services)
    decreases |live| - |p|
  {
    DistinctFits(p, live);
    var last := p[|p| - 1];
    assert last in p;
    assert DependsInto(services, last, live);
    var d :| DependsOn(services, last, d) && d in live;
    var q := p + [d];
    assert Chain(services, q);
    if d in p {
      var i :| 0 <= i < |p| && p[i] == d;
      var c := q[i..];
      assert Cycle(services, c);
    } else {
      DistinctFits(q, live);
      WalkCloses(services, live, q);
    }
  }

  // ---------------------------------------------------------------- the sort

  /** Group `k` lists, once each, the services of rank `k`; no group is empty. */
  ghost predicate GroupsOfRank(groups: seq<seq<Name>>, rank: map<Name, nat>) {
    && (forall n :: n in rank ==> rank[n] < |groups|)
    && (forall k :: 0 <= k < |groups| ==> groups[k] != [] && NoDuplicates(groups[k]))
    && (forall k, n :: 0 <= k < |groups| ==> (n in groups[k] <==> n in rank && rank[n] == k))
  }

  /** What the outer loop keeps: `rank` is the layering built so far. */
  ghost predicate Progress(services: Services, groups: seq<seq<Name>>, rank: map<Name, nat>) {
    Ranked(services, rank) && GroupsOfRank(groups, rank)
  }

  ghost predicate Degrees(services: Services, inDegree: map<Name, int>, live: set<Name>) {
    && inDegree.Keys == services.Keys
    && forall n {:trigger inDegree[n]} :: n in services ==> inDegree[n] == Open(services[n], live)
  }

  lemma LayeredFromProgress(services: Services, groups: seq<seq<Name>>, rank: map<Name, nat>)
    requires Progress(services, groups, rank) && rank.Keys == services.Keys
    ensures Layered(services, groups) && !Cyclic(services)
  {
    FullRankIsAcyclic(services, rank);
    forall k, n | 0 <= k < |groups|
      ensures n in groups[k] <==> n in services && Depth(services, n, k)
    {
      if n in services {
        RankIsDepth(services, rank, n);
        if Depth(services, n, k) { DepthUnique(services, n, k, rank[n]); }
      }
    }
    forall n | n in services
      ensures Placed(groups, n)
    {
      assert n in groups[rank[n]];
    }
  }

  lemma StuckMeansCyclic(services: Services, inDegree: map<Name, int>, live: set<Name>)
    requires Degrees(services, inDegree, live) && live <= services.Keys && live != {}
    requires forall n :: n in live ==> inDegree[n] != 0
    ensures Cyclic(services)
  {
    forall n | n in live
      ensures DependsInto(services, n, live)
    {
      OpenPositive(services[n], live);
      var d :| d in services[n] && d in live;
      assert DependsOn(services, n, d);
    }
    var n :| n in live;
    WalkCloses(services, live, [n]);
  }

  function Members(s: seq<Name>): set<Name> {
    set n | n in s
  }

  /** Every queued service depends on one of the last group. */
  ghost predicate FollowsLast(services: Services, groups: seq<seq<Name>>, queue: seq<Name>) {
    |groups| > 0 ==>
      forall n {:trigger DependsInto(services, n, Members(groups[|groups| - 1]))} :: n in queue ==>
        DependsInto(services, n, Members(groups[|groups| - 1]))
  }

  /** The ranks once the queue has rank `k`. */
  ghost function Assign(services: Services, rank: map<Name, nat>, queue: seq<Name>, k: nat): map<Name, nat> {
    map n | n in services && (n in rank || n in queue) :: if n in rank then rank[n] else k
  }

  /** `last` holds services of the rank right below `k`, and each queued service depends on one. */
  ghost predicate RestsOn(services: Services, rank: map<Name, nat>, queue: seq<Name>, last: set<Name>, k: nat) {
    && (forall n :: n in last ==> n in rank && rank[n] + 1 == k)
    && (forall n {:trigger DependsInto(services, n, last)} :: n in queue ==> DependsInto(services, n, last))
  }

  lemma DependsAtAssigned(services: Services, rank: map<Name, nat>, queue: seq<Name>, last: set<Name>, k: nat, n: Name)
    requires Ranked(services, rank) && (k > 0 ==> RestsOn(services, rank, queue, last, k))
    requires n in Assign(services, rank, queue, k) && Assign(services, rank, queue, k)[n] > 0
    ensures DependsAtRank(services, Assign(services, rank, queue, k), n)
  {
    var ranks := Assign(services, rank, queue, k);
    if n in rank {
      assert DependsAtRank(services, rank, n);
      var d :| DependsOn(services, n, d) && d in rank && rank[d] + 1 == rank[n];
      assert d in ranks && ranks[d] + 1 == ranks[n];
    } else {
      assert DependsInto(services, n, last);
      var d :| DependsOn(services, n, d) && d in last;
      assert d in ranks && ranks[d] + 1 == ranks[n];
    }
  }

  /** Giving the whole queue the next rank keeps the ranking. */
  lemma AssignKeepsRanked(services: Services, rank: map<Name, nat>, queue: seq<Name>, last: set<Name>, k: nat)
    requires Ranked(services, rank) && (k > 0 ==> RestsOn(services, rank, queue, last, k))
    requires forall n :: n in rank ==> rank[n] < k
    requires forall n, d :: n in queue && DependsOn(services, n, d) ==> d in rank
    ensures Ranked(services, Assign(services, rank, queue, k))
  {
    var ranks := Assign(services, rank, queue, k);
    hide RestsOn, DependsAtRank;
    forall n | n in ranks && ranks[n] > 0
      ensures DependsAtRank(services, ranks, n)
    {
      DependsAtAssigned(services, rank, queue, last, k, n);
    }
  }

  lemma AssignKeepsGroups(services: Services, groups: seq<seq<Name>>, rank: map<Name, nat>, queue: seq<Name>)
    requires GroupsOfRank(groups, rank) && rank.Keys <= services.Keys
    requires queue != [] && NoDuplicates(queue)
    requires forall n :: n in queue ==> n in services && n !in rank
    ensures GroupsOfRank(groups + [queue], Assign(services, rank, queue, |groups|))
  {
    hide NoDuplicates;
    var ranks, gs := Assign(services, rank, queue, |groups|), groups + [queue];
    forall k, n | 0 <= k < |gs|
      ensures n in gs[k] <==> n in ranks && ranks[n] == k
    {
      if k < |groups| { assert gs[k] == groups[k]; }
    }
  }

  /** Launching the whole queue as one more group keeps the ranking. */
  lemma ExtendRank(services: Services, groups: seq<seq<Name>>, rank: map<Name, nat>, queue: seq<Name>)
    requires Progress(services, groups, rank)
    requires queue != [] && NoDuplicates(queue)
    requires forall n :: n in queue ==> n in services && n !in rank
    requires forall n, d :: n in queue && DependsOn(services, n, d) ==> d in rank
    requires FollowsLast(services, groups, queue)
    ensures Progress(services, groups + [queue], Assign(services, rank, queue, |groups|))
  {
    AssignKeepsGroups(services, groups, rank, queue);
    var last := if |groups| > 0 then Members(groups[|groups| - 1]) else {};
    LastIsBelow(services, groups, rank, queue);
    AssignKeepsRanked(services, rank, queue, last, |groups|);
    hide Ranked, Assign, FollowsLast, RestsOn, NoDuplicates;
  }

  lemma LastIsBelow(services: Services, groups: seq<seq<Name>>, rank: map<Name, nat>, queue: seq<Name>)
    requires GroupsOfRank(groups, rank) && FollowsLast(services, groups, queue)
    ensures |groups| > 0 ==> RestsOn(services, rank, queue, Members(groups[|groups| - 1]), |groups|)
  {
    hide NoDuplicates, DependsInto;
  }

  /** The live set once the first `j` queue entries are closed. */
  function Closing(live: set<Name>, queue: seq<Name>, j: nat): set<Name>
    requires j <= |queue|
  {
    live - Members(queue[..j])
  }

  ghost predicate Decremented(services: Services, inDegree: map<Name, int>, live: set<Name>, closed: seq<Name>) {
    && inDegree.Keys == services.Keys
    && forall n {:trigger inDegree[n]} :: n in services ==>
         inDegree[n] == Open(services[n], live) - Times(closed, n)
  }

  /** A service about to be decremented still has an open dependency. */
  lemma DecrementIsPositive(services: Services, inDegree: map<Name, int>, live: set<Name>, dependents: seq<Name>,
                            k: nat, q: Name)
    requires k < |dependents| && q in live && dependents[k] in services
    requires Times(dependents, dependents[k]) == Times(services[dependents[k]], q)
    requires Decremented(services, inDegree, live, dependents[..k])
    ensures inDegree[dependents[k]] > 0
  {
    var n := dependents[k];
    OpenRemove(services[n], live, q);
    TimesPrefix(dependents, k);
  }

  lemma CloseOne(services: Services, inDegree: map<Name, int>, live: set<Name>, dependents: seq<Name>, q: Name)
    requires q in live
    requires forall n :: n in services ==> Times(dependents, n) == Times(services[n], q)
    requires Decremented(services, inDegree, live, dependents)
    ensures Degrees(services, inDegree, live - {q})
  {
    forall n | n in services
      ensures inDegree[n] == Open(services[n], live - {q})
    {
      OpenRemove(services[n], live, q);
    }
  }

  /** `next` collects what has become free among the live services outside the queue, and
      nothing outside the live services or inside the queue is ever decremented again. */
  ghost predicate Collects(services: Services, inDegree: map<Name, int>, live: set<Name>, queue: seq<Name>,
                           next: seq<Name>) {
    && live <= services.Keys && inDegree.Keys == services.Keys
    && NoDuplicates(next)
    && (forall n :: n in next <==> n in live && n !in queue && inDegree[n] == 0)
    && (forall n :: n in services && (n !in live || n in queue) ==> inDegree[n] == 0)
  }

  function Decrement(inDegree: map<Name, int>, n: Name): map<Name, int>
    requires n in inDegree
  {
    inDegree[n := inDegree[n] - 1]
  }

  lemma CloseOneEdge(services: Services, inDegree: map<Name, int>, dependents: map<Name, seq<Name>>, live: set<Name>,
                     queue: seq<Name>, next: seq<Name>, now: set<Name>, q: Name, k: nat)
    requires Edges(services, services, dependents) && q in now && q in services
    requires k < |Get(dependents, q)|
    requires Decremented(services, inDegree, now, Get(dependents, q)[..k])
    requires Collects(services, inDegree, live, queue, next)
    ensures var n := Get(dependents, q)[k];
            n in services
            && var inDegree' := Decrement(inDegree, n);
            Decremented(services, inDegree', now, Get(dependents, q)[..k + 1])
            && Collects(services, inDegree', live, queue, if inDegree'[n] == 0 then next + [n] else next)
  {
    var deps := Get(dependents, q);
    assert deps[k] in deps;
    PrefixStep(deps, k);
    DecrementIsPositive(services, inDegree, now, deps, k, q);
  }

  /** One pass over the queue: every edge into it is closed and the services this frees are
      collected. */
  method DrainQueue(services: Services, inDegree: map<Name, int>, dependents: map<Name, seq<Name>>,
                    queue: seq<Name>, ghost live: set<Name>)
    returns (inDegree': map<Name, int>, nextQueue: seq<Name>)
    requires Edges(services, services, dependents) && Degrees(services, inDegree, live)
    requires NoDuplicates(queue) && Collects(services, inDegree, live, queue, [])
    requires forall n :: n in queue ==> n in live
    ensures Degrees(services, inDegree', Closing(live, queue, |queue|))
    ensures Collects(services, inDegree', live, queue, nextQueue)
  {
    inDegree' := inDegree;
    nextQueue := [];
    assert Closing(live, queue, 0) == live;
    for j := 0 to |queue|
      invariant Degrees(services, inDegree', Closing(live, queue, j))
      invariant Collects(services, inDegree', live, queue, nextQueue)
    {
      var q := queue[j];
      ghost var now := Closing(live, queue, j);
      assert q in now;
      var deps := Get(dependents, q);
      for k := 0 to |deps|
        invariant Decremented(services, inDegree', now, deps[..k])
        invariant Collects(services, inDegree', live, queue, nextQueue)
      {
        CloseOneEdge(services, inDegree', dependents, live, queue, nextQueue, now, q, k);
        inDegree' := Decrement(inDegree', deps[k]);
        if inDegree'[deps[k]] == 0 {
          nextQueue := nextQueue + [deps[k]];
        }
      }
      assert deps[..|deps|] == deps;
      CloseOne(services, inDegree', now, deps, q);
      PrefixStep(queue, j);
      assert Closing(live, queue, j + 1) == now - {q};
    }
  }

  lemma FreedByQueue(services: Services, live: set<Name>, queue: seq<Name>, n: Name)
    requires n in services && Open(services[n], live) > 0
    requires Open(services[n], Closing(live, queue, |queue|)) == 0
    requires live <= services.Keys
    ensures DependsInto(services, n, Members(queue))
  {
    OpenPositive(services[n], live);
    OpenPositive(services[n], Closing(live, queue, |queue|));
    var d :| d in services[n] && d in live;
    assert DependsOn(services, n, d) && d in queue[..|queue|];
  }

  lemma FreeDependsOnDone(services: Services, live: set<Name>, n: Name)
    requires n in services && Open(services[n], live) == 0
    ensures forall d :: DependsOn(services, n, d) ==> d !in live
  {
    OpenPositive(services[n], live);
  }

  /** The services whose degree is zero, in the order the map happens to give them. */
  method InitialQueue(inDegree: map<Name, int>) returns (queue: seq<Name>)
    ensures NoDuplicates(queue) && forall n :: n in queue <==> n in inDegree && inDegree[n] == 0
  {
    queue := [];
    var todo := inDegree.Keys;
    while todo != {}
      invariant todo <= inDegree.Keys && NoDuplicates(queue)
      invariant forall n :: n in queue <==> n in inDegree && n !in todo && inDegree[n] == 0
      decreases todo
    {
      var name :| name in todo;
      todo := todo - {name};
      if inDegree[name] == 0 { queue := queue + [name]; }
    }
  }

  lemma CountProcessed(rank: map<Name, nat>, rank': map<Name, nat>, queue: seq<Name>)
    requires NoDuplicates(queue) && forall n :: n in queue ==> n !in rank
    requires rank'.Keys == rank.Keys + Members(queue)
    ensures |rank'| == |rank| + |queue|
  {
    SetSize(queue);
    assert |rank'.Keys| == |rank.Keys| + |Members(queue)|;
  }

  lemma {:induction false} SetSize(queue: seq<Name>)
    requires NoDuplicates(queue)
    ensures |Members(queue)| == |queue|
  {
    if queue != [] {
      var front, last := queue[..|queue| - 1], queue[|queue| - 1];
      SetSize(front);
      assert Members(queue) == Members(front) + {last};
    }
  }

  /** The loop invariant of the sort: `rank` holds the services already grouped, and the
      queue is exactly what is free among the rest. */
  ghost predicate Sorting(services: Services, inDegree: map<Name, int>, groups: seq<seq<Name>>, queue: seq<Name>,
                          rank: map<Name, nat>, live: set<Name>) {
    && live == services.Keys - rank.Keys
    && Progress(services, groups, rank)
    && Degrees(services, inDegree, live)
    && FollowsLast(services, groups, queue)
    && NoDuplicates(queue)
    && (forall n :: n in queue ==> n in live)
    && Collects(services, inDegree, live, queue, [])
  }

  lemma QueueDependsOnDone(services: Services, inDegree: map<Name, int>, groups: seq<seq<Name>>, queue: seq<Name>,
                           rank: map<Name, nat>, live: set<Name>, n: Name, d: Name)
    requires Sorting(services, inDegree, groups, queue, rank, live)
    requires n in queue && DependsOn(services, n, d)
    ensures d in rank
  {
    FreeDependsOnDone(services, live, n);
  }

  lemma CloseTheQueue(services: Services, queue: seq<Name>, rank: map<Name, nat>, live: set<Name>, k: nat)
    requires live == services.Keys - rank.Keys && rank.Keys <= services.Keys
    requires queue != [] && NoDuplicates(queue) && forall n :: n in queue ==> n in live
    ensures |Assign(services, rank, queue, k)| == |rank| + |queue|
    ensures Closing(live, queue, |queue|) == services.Keys - Assign(services, rank, queue, k).Keys
    ensures Closing(live, queue, |queue|) < live
  {
    CountProcessed(rank, Assign(services, rank, queue, k), queue);
    assert queue[..|queue|] == queue;
    assert queue[0] in live && queue[0] !in Closing(live, queue, |queue|);
  }

  lemma GroupTheQueue(services: Services, inDegree: map<Name, int>, groups: seq<seq<Name>>, queue: seq<Name>,
                      rank: map<Name, nat>, live: set<Name>)
    requires Sorting(services, inDegree, groups, queue, rank, live) && queue != []
    ensures Progress(services, groups + [queue], Assign(services, rank, queue, |groups|))
    ensures |Assign(services, rank, queue, |groups|)| == |rank| + |queue|
    ensures Closing(live, queue, |queue|) == services.Keys - Assign(services, rank, queue, |groups|).Keys
    ensures Closing(live, queue, |queue|) < live
  {
    forall n, d | n in queue && DependsOn(services, n, d)
      ensures d in rank
    {
      QueueDependsOnDone(services, inDegree, groups, queue, rank, live, n, d);
    }
    ExtendRank(services, groups, rank, queue);
    CloseTheQueue(services, queue, rank, live, |groups|);
  }

  lemma NextRound(services: Services, before: map<Name, int>, inDegree: map<Name, int>, groups: seq<seq<Name>>,
                  queue: seq<Name>, next: seq<Name>, rank: map<Name, nat>, live: set<Name>)
    requires Sorting(services, before, groups, queue, rank, live) && queue != []
    requires Degrees(services, inDegree, Closing(live, queue, |queue|))
    requires Collects(services, inDegree, live, queue, next)
    ensures Sorting(services, inDegree, groups + [queue], next, Assign(services, rank, queue, |groups|),
                    Closing(live, queue, |queue|))
  {
    GroupTheQueue(services, before, groups, queue, rank, live);
    assert queue[..|queue|] == queue;
    forall n | n in next
      ensures DependsInto(services, n, Members(queue))
    {
      FreedByQueue(services, live, queue, n);
    }
  }

  /** Destructive layering. It fails exactly on a cyclic dependency relation, and otherwise
      layers by longest chain. */
  method TopoSort(services: Services, inDegree0: map<Name, int>, dependents: map<Name, seq<Name>>)
    returns (r: OrderResult)
    requires GraphOf(services, services, inDegree0, dependents)
    ensures r.CyclicDependency? <==> Cyclic(services)
    ensures r.Ordered? ==> Layered(services, r.groups)
  {
    var inDegree := inDegree0;
    var groups: seq<seq<Name>> := [];
    var processed := 0;
    var queue := InitialQueue(inDegree);
    ghost var rank: map<Name, nat> := map[];
    ghost var live := services.Keys;
    assert live == services.Keys - rank.Keys;
    while |queue| > 0
      invariant Sorting(services, inDegree, groups, queue, rank, live)
      invariant processed == |rank|
      decreases live
    {
      GroupTheQueue(services, inDegree, groups, queue, rank, live);
      ghost var before := inDegree;
      var nextQueue: seq<Name>;
      inDegree, nextQueue := DrainQueue(services, inDegree, dependents, queue, live);
      NextRound(services, before, inDegree, groups, queue, nextQueue, rank, live);
      rank, live := Assign(services, rank, queue, |groups|), Closing(live, queue, |queue|);
      groups := groups + [queue];
      processed := processed + |queue|;
      queue := nextQueue;
    }
    if processed != |services| {
      assert live != {} by {
        assert rank.Keys != services.Keys;
      }
      StuckMeansCyclic(services, inDegree, live);
      r := CyclicDependency;
    } else {
      SubsetOfSameSize(rank.Keys, services.Keys);
      LayeredFromProgress(services, groups, rank);
      r := Ordered(groups);
    }
  }

  lemma SubsetOfSameSize(a: set<Name>, b: set<Name>)
    requires a <= b && |a| == |b|
    ensures a == b
  {
    assert |b - a| == |b| - |a|;
  }

  method ResolveOrder(services: Services) returns (r: OrderResult)
    ensures r.CyclicDependency? <==> Cyclic(services)
    ensures r.Ordered? ==> Layered(services, r.groups)
  {
    var inDegree, dependents := BuildDepGraph(services);
    r := TopoSort(services, inDegree, dependents);
  }

  // ---------------------------------------------------------------- what a layering gives

  lemma DependencyIsShallower(services: Services, n: Name, d: Name, j: nat, k: nat)
    requires DependsOn(services, n, d) && Depth(services, n, k) && Depth(services, d, j)
    ensures j < k
  {
    var p :| ChainFrom(services, d, p) && |p| == j + 1;
    var q := [n] + p;
    assert ChainFrom(services, n, q);
  }

  /** Every dependency starts in a strictly earlier group. */
  lemma DependenciesStartEarlier(services: Services, groups: seq<seq<Name>>, n: Name, d: Name, k: nat)
    requires Layered(services, groups) && k < |groups| && n in groups[k] && DependsOn(services, n, d)
    ensures exists j :: 0 <= j < k && d in groups[j]
  {
    assert Placed(groups, d);
    var j :| 0 <= j < |groups| && d in groups[j];
    DependencyIsShallower(services, n, d, j, k);
  }

  ghost predicate ValidStages(services: Services, stage: map<Name, nat>) {
    && stage.Keys == services.Keys
    && forall n, d :: DependsOn(services, n, d) ==> stage[d] < stage[n]
  }

  lemma {:induction false} StagesCoverChain(services: Services, stage: map<Name, nat>, p: seq<Name>)
    requires ValidStages(services, stage) && Chain(services, p)
    ensures stage[p[0]] >= |p| - 1
  {
    if |p| > 1 {
      ChainTail(services, p);
      StagesCoverChain(services, stage, p[1..]);
    }
  }

  /** No assignment of stages that respects the dependencies starts any service earlier, so
      none uses fewer groups. */
  lemma LayeringIsEarliest(services: Services, groups: seq<seq<Name>>, stage: map<Name, nat>, n: Name, k: nat)
    requires Layered(services, groups) && ValidStages(services, stage)
    requires k < |groups| && n in groups[k]
    ensures k <= stage[n]
    ensures exists m :: m in services && stage[m] >= |groups| - 1
  {
    assert Depth(services, n, k);
    var p :| ChainFrom(services, n, p) && |p| == k + 1;
    StagesCoverChain(services, stage, p);
    var last := groups[|groups| - 1];
    var m := last[0];
    assert m in last;
    assert Depth(services, m, |groups| - 1);
    var q :| ChainFrom(services, m, q) && |q| == |groups|;
    StagesCoverChain(services, stage, q);
  }

  lemma DeeperGroupsExist(services: Services, g: seq<seq<Name>>, h: seq<seq<Name>>)
    requires Layered(services, g) && Layered(services, h)
    ensures |g| <= |h|
  {
    if |g| > 0 {
      var n := g[|g| - 1][0];
      assert n in g[|g| - 1];
      assert Placed(h, n);
      var k :| 0 <= k < |h| && n in h[k];
      DepthUnique(services, n, |g| - 1, k);
    }
  }

  /** Map iteration order can only permute a group: two runs agree on the number of groups
      and on what each one holds. */
  lemma LayeringIsUnique(services: Services, g: seq<seq<Name>>, h: seq<seq<Name>>)
    requires Layered(services, g) && Layered(services, h)
    ensures |g| == |h|
    ensures forall k :: 0 <= k < |g| ==> multiset(g[k]) == multiset(h[k])
  {
    DeeperGroupsExist(services, g, h);
    DeeperGroupsExist(services, h, g);
    forall k | 0 <= k < |g|
      ensures multiset(g[k]) == multiset(h[k])
    {
      forall n
        ensures n in g[k] <==> n in h[k]
      {
        assert n in g[k] <==> n in services && Depth(services, n, k);
      }
      SameMembersSameMultiset(g[k], h[k]);
    }
  }

  lemma {:induction false} CountsAtMostOne(s: seq<Name>, x: Name)
    requires NoDuplicates(s)
    ensures multiset(s)[x] == if x in s then 1 else 0
  {
    if s != [] {
      var front, last := s[..|s| - 1], s[|s| - 1];
      assert s == front + [last];
      CountsAtMostOne(front, x);
    }
  }

  lemma SameMembersSameMultiset(s: seq<Name>, t: seq<Name>)
    requires NoDuplicates(s) && NoDuplicates(t) && forall n :: n in s <==> n in t
    ensures multiset(s) == multiset(t)
  {
    forall x
      ensures multiset(s)[x] == multiset(t)[x]
    {
      CountsAtMostOne(s, x);
      CountsAtMostOne(t, x);
    }
  }
}
