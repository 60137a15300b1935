/** The desktop pool of tunnel instances, shared by all web origins, and each origin's browser copy of its
    part. Handlers run one at a time. */
module Pool {
  import opened Bytes

  datatype Instance = Instance(title: string, remote: string, local: string, scope: string)

  /** What a page sees of an instance. */
  datatype Entry = Entry(title: string, remote: string, local: string)

  type Instances = seq<Instance>

  function EntryOf(i: Instance): Entry {
    Entry(i.title, i.remote, i.local)
  }

  /** An origin's own instances, in pool order. */
  function InScope(origin: string): Instance -> seq<Entry> {
    (i: Instance) => if i.scope == origin then [EntryOf(i)] else []
  }

  function View(pool: Instances, origin: string): seq<Entry> {
    FlatMap(InScope(origin), pool)
  }

  datatype LaunchError = BindFailed | Taken

  datatype Launch = Launched(pool: Instances, instance: Instance) | Rejected(error: LaunchError)

  predicate LocalTaken(pool: Instances, local: string) {
    exists k :: 0 <= k < |pool| && pool[k].local == local
  }

  /** Position of the first instance with this remote and scope, or the length of the pool. */
  function PairIndex(pool: Instances, remote: string, scope: string): (k: nat)
    ensures k <= |pool|
    ensures k < |pool| ==> pool[k].remote == remote && pool[k].scope == scope
    ensures forall j :: 0 <= j < k ==> !(pool[j].remote == remote && pool[j].scope == scope)
  {
    FirstIndex(pool, (i: Instance) => i.remote == remote && i.scope == scope)
  }

  /** `bound` is the address the listener got, if it could be bound. */
  function Launching(pool: Instances, title: string, remote: string, scope: string, bound: Option<string>): Launch {
    if bound.None? then Rejected(BindFailed)
    else if LocalTaken(pool, bound.value) then Rejected(Taken)
    else
      var k := PairIndex(pool, remote, scope);
      if k < |pool| then Launched(pool[k := pool[k].(title := title)], pool[k].(title := title))
      else Launched(pool + [Instance(title, remote, bound.value, scope)], Instance(title, remote, bound.value, scope))
  }

  function Keep(keep: Instance -> bool): Instance -> seq<Instance> {
    i => if keep(i) then [i] else []
  }

  function Retain(pool: Instances, keep: Instance -> bool): Instances {
    FlatMap(Keep(keep), pool)
  }

  function NotAt(local: string): Instance -> bool {
    (i: Instance) => i.local != local
  }

  function NotOf(scope: string): Instance -> bool {
    (i: Instance) => i.scope != scope
  }

  /** Position of the first instance at this address, or the length of the pool. */
  function LocalIndex(pool: Instances, local: string): (k: nat)
    ensures k <= |pool|
    ensures k < |pool| ==> pool[k].local == local
    ensures forall j :: 0 <= j < k ==> pool[j].local != local
  {
    FirstIndex(pool, (i: Instance) => i.local == local)
  }

  /** A page may close an address only when the first instance there is its own. */
  predicate MayClose(pool: Instances, origin: string, local: string) {
    LocalIndex(pool, local) < |pool| && pool[LocalIndex(pool, local)].scope == origin
  }

  // ---------- the daemon as the handlers change it ----------

  datatype Scope = Scope(host: string, state: string)

  class DaemonState {
    var instances: Instances
    var scopes: seq<Scope>

    constructor ()
      ensures instances == [] && scopes == []
    {
      instances, scopes := [], [];
    }

    method LaunchInstance(title: string, remote: string, scope: string, bound: Option<string>) returns (r: Launch)
      modifies this`instances
      ensures r == Launching(old(instances), title, remote, scope, bound)
      ensures instances == if r.Launched? then r.pool else old(instances)
    {
      if bound.None? {
        return Rejected(BindFailed);
      }
      if exists k :: 0 <= k < |instances| && instances[k].local == bound.value {
        return Rejected(Taken);
      }
      var k := PairIndex(instances, remote, scope);
      if k < |instances| {
        instances := instances[k := instances[k].(title := title)];
        return Launched(instances, instances[k]);
      }
      instances := instances + [Instance(title, remote, bound.value, scope)];
      r := Launched(instances, instances[|instances| - 1]);
    }

    method RemoveInstance(local: string) returns (removed: bool)
      modifies this`instances
      ensures instances == Retain(old(instances), NotAt(local))
      ensures removed == LocalTaken(old(instances), local)
    {
      var before := |instances|;
      RetainShrinksIff(instances, NotAt(local));
      instances := Retain(instances, NotAt(local));
      removed := |instances| != before;
    }

    /** The page's own part, in pool order. */
    method GetInstances(origin: string) returns (list: seq<Entry>)
      ensures list == View(instances, origin)
    {
      list := [];
      for k := 0 to |instances|
        invariant list == View(instances[..k], origin)
      {
        assert instances[..k + 1] == instances[..k] + [instances[k]];
        ViewSnoc(instances[..k], instances[k], origin);
        if instances[k].scope == origin {
          list := list + [EntryOf(instances[k])];
        }
      }
      assert instances[..|instances|] == instances;
    }

    method CheckClose(origin: string, local: string) returns (ok: bool)
      ensures ok == MayClose(instances, origin, local)
    {
      var k := LocalIndex(instances, local);
      if k == |instances| {
        return false;
      }
      if instances[k].scope != origin {
        return false;
      }
      ok := true;
    }

    /** The lock is released after the check; `meanwhile` is what other handlers have made of the pool by the
        time it is taken again for the removal. */
    method CloseInstance(origin: string, local: string, meanwhile: Instances) returns (ok: bool)
      modifies this`instances
      ensures ok == MayClose(old(instances), origin, local)
      ensures instances == if ok then Retain(meanwhile, NotAt(local)) else old(instances)
    {
      ok := CheckClose(origin, local);
      if ok {
        instances := meanwhile;
        var _ := RemoveInstance(local);
      }
    }

    method RequestControl(origin: string)
      modifies this`scopes
      ensures scopes == Requested(old(scopes), origin)
    {
      if ScopeIndex(scopes, origin) < |scopes| {
        return;
      }
      scopes := scopes + [Scope(origin, "pending")];
    }

    method AllowScope(host: string)
      modifies this`scopes
      ensures scopes == Allowed(old(scopes), host)
    {
      var k := ScopeIndex(scopes, host);
      if k < |scopes| {
        scopes := scopes[k := scopes[k].(state := "allowed")];
      }
    }

    /** A scope goes, and then, under another lock, the instances it has by that time. */
    method RemoveScope(host: string, meanwhile: Instances)
      modifies this
      ensures scopes == Removed(old(scopes), host)
      ensures instances == if ScopeIndex(old(scopes), host) < |old(scopes)| then Retain(meanwhile, NotOf(host))
                           else old(instances)
    {
      var k := ScopeIndex(scopes, host);
      if k == |scopes| {
        return;
      }
      scopes := scopes[..k] + scopes[k + 1..];
      instances := meanwhile;
      instances := Retain(instances, NotOf(host));
    }
  }

  function ScopeIndex(scopes: seq<Scope>, host: string): (k: nat)
    ensures k <= |scopes|
    ensures k < |scopes| ==> scopes[k].host == host
    ensures forall j :: 0 <= j < k ==> scopes[j].host != host
  {
    FirstIndex(scopes, (s: Scope) => s.host == host)
  }

  function Requested(scopes: seq<Scope>, host: string): seq<Scope> {
    if ScopeIndex(scopes, host) < |scopes| then scopes else scopes + [Scope(host, "pending")]
  }

  function Allowed(scopes: seq<Scope>, host: string): seq<Scope> {
    var k := ScopeIndex(scopes, host);
    if k < |scopes| then scopes[k := Scope(host, "allowed")] else scopes
  }

  function Removed(scopes: seq<Scope>, host: string): seq<Scope> {
    var k := ScopeIndex(scopes, host);
    if k < |scopes| then scopes[..k] + scopes[k + 1..] else scopes
  }

  /** The browser client of one origin, talking to a daemon that answers. */
  class Wsrx {
    const origin: string
    var instances: seq<Entry>

    constructor (origin: string)
      ensures this.origin == origin && instances == []
    {
      this.origin := origin;
      instances := [];
    }

    method Sync(daemon: DaemonState)
      modifies this
      ensures instances == View(daemon.instances, origin)
    {
      instances := daemon.GetInstances(origin);
    }

    /** A remote that is already cached is answered from the cache. */
    method Add(daemon: DaemonState, title: string, remote: string, bound: Option<string>)
      modifies this, daemon`instances
      ensures (daemon.instances, instances)
           == AfterAdd(old(daemon.instances), old(instances), origin, title, remote, bound, true)
    {
      if exists k :: 0 <= k < |instances| && instances[k].remote == remote {
        return;
      }
      var r := daemon.LaunchInstance(title, remote, origin, bound);
      if r.Launched? {
        instances := instances + [EntryOf(r.instance)];
      }
    }

    method Delete(daemon: DaemonState, local: string, meanwhile: Instances)
      modifies this, daemon`instances
      ensures (daemon.instances, instances)
           == AfterDelete(old(daemon.instances), meanwhile, old(instances), origin, local, true)
    {
      var ok := daemon.CloseInstance(origin, local, meanwhile);
      if ok {
        instances := Without(instances, local);
      }
    }
  }

  // ---------- one client request and its answer ----------

  predicate Cached(cache: seq<Entry>, remote: string) {
    exists k :: 0 <= k < |cache| && cache[k].remote == remote
  }

  function NotLocal(local: string): Entry -> seq<Entry> {
    (e: Entry) => if e.local != local then [e] else []
  }

  function Without(cache: seq<Entry>, local: string): seq<Entry> {
    FlatMap(NotLocal(local), cache)
  }

  /** `answered` is whether the response reaches the page. */
  function AfterAdd(pool: Instances, cache: seq<Entry>, origin: string, title: string, remote: string,
                    bound: Option<string>, answered: bool): (Instances, seq<Entry>)
  {
    if Cached(cache, remote) then (pool, cache)
    else
      match Launching(pool, title, remote, origin, bound)
      case Rejected(_) => (pool, cache)
      case Launched(pool', instance) => (pool', if answered then cache + [EntryOf(instance)] else cache)
  }

  /** `meanwhile` is the pool at the removal. */
  function AfterDelete(pool: Instances, meanwhile: Instances, cache: seq<Entry>, origin: string, local: string,
                       answered: bool): (Instances, seq<Entry>)
  {
    if MayClose(pool, origin, local) then
      (Retain(meanwhile, NotAt(local)), if answered then Without(cache, local) else cache)
    else (pool, cache)
  }

  // ---------- runs ----------

  /** `caches` holds each page's copy; `stale` the pages whose copy may be out of date, because an answer
      was lost or somebody else changed the scope, and that have not synchronised since; `closing` the close
      requests, as origin and address, that have passed their check and not yet removed anything. */
  datatype System = System(
    pool: Instances, caches: map<string, seq<Entry>>, stale: set<string>, closing: multiset<(string, string)>)

  datatype Step =
    | Add(origin: string, title: string, remote: string, bound: Option<string>, answered: bool)
    | CheckClose(origin: string, local: string)
    | FinishClose(origin: string, local: string, answered: bool)
    | Sync(origin: string)
    | OwnerRemoves(local: string)   // from the desktop window
    | ScopeRemoved(host: string)
    | OwnerLaunches(title: string, remote: string, scope: string, bound: Option<string>)

  function CacheOf(s: System, origin: string): seq<Entry> {
    if origin in s.caches then s.caches[origin] else []
  }

  function Update(s: System, origin: string, result: (Instances, seq<Entry>), answered: bool): System {
    s.(pool := result.0, caches := s.caches[origin := result.1],
       stale := if answered then s.stale else s.stale + {origin})
  }

  function ScopesAt(pool: Instances, local: string): set<string> {
    set k | 0 <= k < |pool| && pool[k].local == local :: pool[k].scope
  }

  function Next(s: System, step: Step): System {
    match step
    case Add(origin, title, remote, bound, answered) =>
      Update(s, origin, AfterAdd(s.pool, CacheOf(s, origin), origin, title, remote, bound, answered), answered)
    case CheckClose(origin, local) =>
      if MayClose(s.pool, origin, local) then s.(closing := s.closing + multiset{(origin, local)}) else s
    case FinishClose(origin, local, answered) =>
      if (origin, local) !in s.closing then s
      else
        System(Retain(s.pool, NotAt(local)),
               s.caches[origin := if answered then Without(CacheOf(s, origin), local) else CacheOf(s, origin)],
               s.stale + (ScopesAt(s.pool, local) - {origin}) + (if answered then {} else {origin}),
               s.closing - multiset{(origin, local)})
    case Sync(origin) => s.(caches := s.caches[origin := View(s.pool, origin)], stale := s.stale - {origin})
    case OwnerRemoves(local) =>
      s.(pool := Retain(s.pool, NotAt(local)), stale := s.stale + ScopesAt(s.pool, local))
    case ScopeRemoved(host) => s.(pool := Retain(s.pool, NotOf(host)), stale := s.stale + {host})
    case OwnerLaunches(title, remote, scope, bound) =>
      match Launching(s.pool, title, remote, scope, bound)
      case Rejected(_) => s
      case Launched(pool, _) => s.(pool := pool, stale := s.stale + {scope})
  }

  function Exec(steps: seq<Step>): System {
    if steps == [] then System([], map[], {}, multiset{}) else Next(Exec(steps[..|steps| - 1]), steps[|steps| - 1])
  }

  // ---------- invariants of the pool ----------

  ghost predicate UniqueLocals(pool: Instances) {
    forall i, j :: 0 <= i < j < |pool| ==> pool[i].local != pool[j].local
  }

  ghost predicate UniquePairs(pool: Instances) {
    forall i, j :: 0 <= i < j < |pool| ==> pool[i].remote != pool[j].remote || pool[i].scope != pool[j].scope
  }

  ghost predicate PoolInv(pool: Instances) {
    UniqueLocals(pool) && UniquePairs(pool)
  }

  lemma {:induction false} RetainIsSublist(pool: Instances, keep: Instance -> bool)
    ensures forall i :: i in Retain(pool, keep) <==> i in pool && keep(i)
    ensures PoolInv(pool) ==> PoolInv(Retain(pool, keep))
  {
    if pool != [] {
      var init, last := pool[..|pool| - 1], pool[|pool| - 1];
      RetainIsSublist(init, keep);
      assert pool == init + [last];
      if PoolInv(pool) && keep(last) {
        var kept := Retain(init, keep);
        forall k | 0 <= k < |kept|
          ensures kept[k].local != last.local && !(kept[k].remote == last.remote && kept[k].scope == last.scope)
        {
          assert kept[k] in init;
          var n :| 0 <= n < |init| && init[n] == kept[k];
          assert pool[n] == init[n] && pool[|pool| - 1] == last;
        }
        assert Retain(pool, keep) == kept + [last];
      }
    }
  }

  lemma {:induction false} RetainShrinksIff(pool: Instances, keep: Instance -> bool)
    ensures |Retain(pool, keep)| <= |pool|
    ensures |Retain(pool, keep)| < |pool| <==> exists k :: 0 <= k < |pool| && !keep(pool[k])
  {
    if pool != [] {
      var init, last := pool[..|pool| - 1], pool[|pool| - 1];
      RetainShrinksIff(init, keep);
      if exists k :: 0 <= k < |init| && !keep(init[k]) {
        var k :| 0 <= k < |init| && !keep(init[k]);
        assert !keep(pool[k]);
      }
    }
  }

  lemma LaunchKeepsPool(pool: Instances, title: string, remote: string, scope: string, bound: Option<string>)
    requires PoolInv(pool)
    ensures var r := Launching(pool, title, remote, scope, bound); r.Launched? ==> PoolInv(r.pool)
  {
  }

  // ---------- views ----------

  lemma ViewSnoc(pool: Instances, i: Instance, origin: string)
    ensures View(pool + [i], origin) == View(pool, origin) + InScope(origin)(i)
  {
  }

  lemma {:induction false} ViewOfUpdate(pool: Instances, k: nat, i: Instance, origin: string)
    requires k < |pool| && pool[k].scope == i.scope != origin
    ensures View(pool[k := i], origin) == View(pool, origin)
  {
    var last := |pool| - 1;
    if k < last {
      ViewOfUpdate(pool[..last], k, i, origin);
      assert pool[k := i][..last] == pool[..last][k := i];
    } else {
      assert pool[k := i][..last] == pool[..last];
    }
  }

  /** An origin's launch, whatever its outcome, leaves every other origin's list alone. */
  lemma LaunchIsolated(pool: Instances, title: string, remote: string, scope: string, bound: Option<string>, other: string)
    requires other != scope
    ensures var r := Launching(pool, title, remote, scope, bound);
            r.Launched? ==> View(r.pool, other) == View(pool, other)
  {
    var k := PairIndex(pool, remote, scope);
    if bound.Some? && !LocalTaken(pool, bound.value) {
      if k < |pool| {
        ViewOfUpdate(pool, k, pool[k].(title := title), other);
      } else {
        ViewSnoc(pool, Instance(title, remote, bound.value, scope), other);
      }
    }
  }

  /** Removing an address changes an origin's list exactly when one of its instances is there. */
  lemma {:induction false} RemovalVisibleIff(pool: Instances, local: string, origin: string)
    ensures View(Retain(pool, NotAt(local)), origin) == Without(View(pool, origin), local)
    ensures View(Retain(pool, NotAt(local)), origin) == View(pool, origin) <==> origin !in ScopesAt(pool, local)
  {
    ViewAfterRemoval(pool, local, origin);
    WithoutChangesIff(View(pool, origin), local);
    if origin in ScopesAt(pool, local) {
      var k :| 0 <= k < |pool| && pool[k].local == local && pool[k].scope == origin;
      ViewHas(pool, k);
    }
    if exists n :: 0 <= n < |View(pool, origin)| && View(pool, origin)[n].local == local {
      var n :| 0 <= n < |View(pool, origin)| && View(pool, origin)[n].local == local;
      ViewComesFrom(pool, origin, n);
    }
  }

  lemma {:induction false} ViewAfterRemoval(pool: Instances, local: string, origin: string)
    ensures View(Retain(pool, NotAt(local)), origin) == Without(View(pool, origin), local)
  {
    if pool != [] {
      var init, last := pool[..|pool| - 1], pool[|pool| - 1];
      ViewAfterRemoval(init, local, origin);
      FlatMapAppend(InScope(origin), Retain(init, NotAt(local)), Keep(NotAt(local))(last));
      FlatMapAppend(NotLocal(local), View(init, origin), InScope(origin)(last));
      FlatMapOne(InScope(origin), last);
      FlatMapOne(NotLocal(local), EntryOf(last));
    }
  }

  lemma {:induction false} WithoutKeepsAll(cache: seq<Entry>, local: string)
    requires forall e :: e in cache ==> e.local != local
    ensures Without(cache, local) == cache
  {
    if cache != [] {
      WithoutKeepsAll(cache[..|cache| - 1], local);
      assert cache == cache[..|cache| - 1] + [cache[|cache| - 1]];
    }
  }

  lemma WithoutChangesIff(cache: seq<Entry>, local: string)
    ensures Without(cache, local) == cache <==> !exists n :: 0 <= n < |cache| && cache[n].local == local
  {
    if n :| 0 <= n < |cache| && cache[n].local == local {
      WithoutLeavesNone(cache, local);
      assert cache[n] in cache && cache[n] !in Without(cache, local);
    } else {
      WithoutKeepsAll(cache, local);
    }
  }

  lemma {:induction false} ViewHas(pool: Instances, k: nat)
    requires k < |pool|
    ensures EntryOf(pool[k]) in View(pool, pool[k].scope)
  {
    if k < |pool| - 1 {
      ViewHas(pool[..|pool| - 1], k);
    }
  }

  lemma {:induction false} ViewComesFrom(pool: Instances, origin: string, n: nat)
    requires n < |View(pool, origin)|
    ensures exists k :: 0 <= k < |pool| && pool[k].scope == origin && EntryOf(pool[k]) == View(pool, origin)[n]
  {
    if pool != [] {
      var init, last := pool[..|pool| - 1], pool[|pool| - 1];
      if n < |View(init, origin)| {
        ViewComesFrom(init, origin, n);
        var k :| 0 <= k < |init| && init[k].scope == origin && EntryOf(init[k]) == View(init, origin)[n];
        assert pool[k] == init[k];
      } else {
        assert pool[|pool| - 1].scope == origin;
      }
    }
  }

  predicate Shows(e: Entry, i: Instance) {
    e.title == i.title && e.remote == i.remote && e.local == i.local
  }

  /** `list` is what the instances at these positions look like: the origin's, each once, in pool order. */
  ghost predicate Lists(pool: Instances, origin: string, positions: seq<nat>, list: seq<Entry>) {
    && |positions| == |list|
    && (forall n :: 0 <= n < |list| ==> positions[n] < |pool| && pool[positions[n]].scope == origin
                                        && Shows(list[n], pool[positions[n]]))
    && (forall n, m :: 0 <= n < m < |list| ==> positions[n] < positions[m])
    && (forall k :: 0 <= k < |pool| && pool[k].scope == origin ==> k in positions)
  }

  lemma ListsOneMore(pool: Instances, i: Instance, origin: string, positions: seq<nat>, list: seq<Entry>)
    requires Lists(pool, origin, positions, list)
    ensures i.scope == origin ==> Lists(pool + [i], origin, positions + [|pool|], list + [EntryOf(i)])
    ensures i.scope != origin ==> Lists(pool + [i], origin, positions, list)
  {
    var more, positions' := pool + [i], positions + [|pool|];
    forall k | 0 <= k < |more| && more[k].scope == origin
      ensures k in positions'
      ensures i.scope != origin ==> k in positions
    {
      assert k < |pool| ==> more[k] == pool[k] && k in positions;
      assert positions'[|positions|] == |pool|;
    }
  }

  /** A page is listed all of its instances and nothing else, each once, in pool order. */
  lemma {:induction false} ViewIsExact(pool: Instances, origin: string) returns (positions: seq<nat>)
    ensures Lists(pool, origin, positions, View(pool, origin))
  {
    if pool == [] {
      positions := [];
    } else {
      var init, i := pool[..|pool| - 1], pool[|pool| - 1];
      positions := ViewIsExact(init, origin);
      ListsOneMore(init, i, origin, positions, View(init, origin));
      assert pool == init + [i];
      ViewSnoc(init, i, origin);
      if i.scope == origin {
        positions := positions + [|init|];
      }
    }
  }

  lemma {:induction false} ViewAfterScopeRemoval(pool: Instances, host: string, origin: string)
    ensures View(Retain(pool, NotOf(host)), origin) == if origin == host then [] else View(pool, origin)
  {
    if pool != [] {
      var init, last := pool[..|pool| - 1], pool[|pool| - 1];
      ViewAfterScopeRemoval(init, host, origin);
      FlatMapAppend(InScope(origin), Retain(init, NotOf(host)), Keep(NotOf(host))(last));
      FlatMapOne(InScope(origin), last);
    }
  }

  /** With unique addresses, a page that may close an address is alone there. */
  lemma OnlyCallerThere(pool: Instances, origin: string, local: string)
    requires UniqueLocals(pool) && MayClose(pool, origin, local)
    ensures ScopesAt(pool, local) == {origin}
  {
  }

  // ---------- agreement of copies and pool ----------

  ghost predicate InSync(s: System) {
    && PoolInv(s.pool)
    && forall origin :: origin !in s.stale ==> CacheOf(s, origin) == View(s.pool, origin)
  }

  /** With the copy up to date, a launch that gets as far as the daemon always adds a new instance. */
  lemma AddMatches(pool: Instances, origin: string, title: string, remote: string, bound: Option<string>)
    ensures var (pool', cache') := AfterAdd(pool, View(pool, origin), origin, title, remote, bound, true);
            cache' == View(pool', origin)
  {
    var k := PairIndex(pool, remote, origin);
    if k < |pool| {
      ViewHas(pool, k);
      var view := View(pool, origin);
      var n :| 0 <= n < |view| && view[n] == EntryOf(pool[k]);
      assert Cached(view, remote);
    } else if bound.Some? {
      ViewSnoc(pool, Instance(title, remote, bound.value, origin), origin);
    }
  }

  lemma AddKeepsSync(s: System, step: Step)
    requires InSync(s) && step.Add?
    ensures InSync(Next(s, step))
  {
    var Add(origin, title, remote, bound, answered) := step;
    var s' := Next(s, step);
    LaunchKeepsPool(s.pool, title, remote, origin, bound);
    forall other | other !in s'.stale
      ensures CacheOf(s', other) == View(s'.pool, other)
    {
      if other == origin {
        AddMatches(s.pool, origin, title, remote, bound);
      } else {
        LaunchIsolated(s.pool, title, remote, origin, bound, other);
      }
    }
  }

  lemma CloseKeepsCopy(s: System, step: Step, other: string)
    requires InSync(s) && step.FinishClose? && (step.origin, step.local) in s.closing
    requires other !in Next(s, step).stale
    ensures CacheOf(Next(s, step), other) == View(Retain(s.pool, NotAt(step.local)), other)
  {
    RemovalVisibleIff(s.pool, step.local, other);
    assert CacheOf(s, other) == View(s.pool, other);
  }

  lemma CloseKeepsSync(s: System, step: Step)
    requires InSync(s) && step.FinishClose?
    ensures InSync(Next(s, step))
  {
    if (step.origin, step.local) in s.closing {
      RetainIsSublist(s.pool, NotAt(step.local));
      forall other | other !in Next(s, step).stale
        ensures CacheOf(Next(s, step), other) == View(Next(s, step).pool, other)
      {
        CloseKeepsCopy(s, step, other);
      }
    }
  }

  lemma OwnerKeepsSync(s: System, step: Step)
    requires InSync(s) && (step.OwnerRemoves? || step.ScopeRemoved? || step.OwnerLaunches?)
    ensures InSync(Next(s, step))
  {
    var s' := Next(s, step);
    match step {
      case OwnerRemoves(local) => RetainIsSublist(s.pool, NotAt(local));
      case ScopeRemoved(host) => RetainIsSublist(s.pool, NotOf(host));
      case OwnerLaunches(title, remote, scope, bound) => LaunchKeepsPool(s.pool, title, remote, scope, bound);
    }
    forall other | other !in s'.stale
      ensures CacheOf(s', other) == View(s'.pool, other)
    {
      match step {
        case OwnerRemoves(local) => RemovalVisibleIff(s.pool, local, other);
        case ScopeRemoved(host) => ViewAfterScopeRemoval(s.pool, host, other);
        case OwnerLaunches(title, remote, scope, bound) =>
          if other != scope {
            LaunchIsolated(s.pool, title, remote, scope, bound, other);
          }
      }
    }
  }

  lemma {:induction false} RunsStayInSync(steps: seq<Step>)
    ensures InSync(Exec(steps))
  {
    if steps != [] {
      var s, step := Exec(steps[..|steps| - 1]), steps[|steps| - 1];
      RunsStayInSync(steps[..|steps| - 1]);
      match step
      case Add(_, _, _, _, _) => AddKeepsSync(s, step);
      case CheckClose(_, _) =>
      case FinishClose(_, _, _) => CloseKeepsSync(s, step);
      case Sync(_) =>
      case OwnerRemoves(_) => OwnerKeepsSync(s, step);
      case ScopeRemoved(_) => OwnerKeepsSync(s, step);
      case OwnerLaunches(_, _, _, _) => OwnerKeepsSync(s, step);
    }
  }

  // ---------- results ----------

  /** Over any run: addresses and (remote, scope) pairs stay unique, and a page whose answers all arrived
      and whose scope nobody else changed since its last sync holds exactly its part of the pool, in order. */
  lemma BrowserCopyIsExact(steps: seq<Step>, origin: string)
    ensures var s := Exec(steps);
            && UniqueLocals(s.pool) && UniquePairs(s.pool)
            && (origin !in s.stale ==> CacheOf(s, origin) == View(s.pool, origin))
            && CacheOf(Next(s, Sync(origin)), origin) == View(s.pool, origin)
  {
    RunsStayInSync(steps);
  }

  /** A launch fails exactly when its listener cannot be bound or the address is taken, and then changes
      nothing. Otherwise a pair that is not in the pool yet joins it, at the end and at the bound address, and
      the page is listed that. */
  lemma LaunchOutcome(pool: Instances, title: string, remote: string, scope: string, bound: Option<string>)
    ensures var r := Launching(pool, title, remote, scope, bound);
            && (r == Rejected(BindFailed) <==> bound.None?)
            && (r == Rejected(Taken) <==> bound.Some? && exists i :: i in pool && i.local == bound.value)
            && (r.Launched? && !(exists i :: i in pool && i.remote == remote && i.scope == scope) ==>
                  && r.pool == pool + [Instance(title, remote, bound.value, scope)]
                  && View(r.pool, scope) == View(pool, scope) + [Entry(title, remote, bound.value)])
  {
    var k := PairIndex(pool, remote, scope);
    if bound.Some? {
      ViewSnoc(pool, Instance(title, remote, bound.value, scope), scope);
      if exists i :: i in pool && i.local == bound.value {
        var i :| i in pool && i.local == bound.value;
        var n :| 0 <= n < |pool| && pool[n] == i;
      }
    }
    assert k < |pool| ==> pool[k] in pool;
  }

  /** After an add that is answered, an exact copy is exact again, and ends with the new instance unless the
      remote was cached or the launch failed. */
  lemma AnsweredAddIsExact(pool: Instances, origin: string, title: string, remote: string, bound: Option<string>)
    ensures var view := View(pool, origin);
            var (pool', cache') := AfterAdd(pool, view, origin, title, remote, bound, true);
            && cache' == View(pool', origin)
            && cache' == if Cached(view, remote) || bound.None? || LocalTaken(pool, bound.value) then view
                         else view + [Entry(title, remote, bound.value)]
  {
    AddMatches(pool, origin, title, remote, bound);
    var k := PairIndex(pool, remote, origin);
    if k < |pool| {
      ViewHas(pool, k);
      var view := View(pool, origin);
      var n :| 0 <= n < |view| && view[n] == EntryOf(pool[k]);
      assert Cached(view, remote);
    }
  }

  /** After a delete that is answered, an exact copy is exact again, and without the address if the page was
      allowed to close it. */
  lemma AnsweredDeleteIsExact(pool: Instances, origin: string, local: string)
    ensures var (pool', cache') := AfterDelete(pool, pool, View(pool, origin), origin, local, true);
            && cache' == View(pool', origin)
            && (MayClose(pool, origin, local) ==> forall e :: e in cache' ==> e.local != local)
  {
    RemovalVisibleIff(pool, local, origin);
    WithoutLeavesNone(View(pool, origin), local);
  }

  lemma {:induction false} WithoutLeavesNone(cache: seq<Entry>, local: string)
    ensures forall e :: e in Without(cache, local) <==> e in cache && e.local != local
  {
    if cache != [] {
      WithoutLeavesNone(cache[..|cache| - 1], local);
      assert cache == cache[..|cache| - 1] + [cache[|cache| - 1]];
    }
  }

  /** The two steps of a close, with anything in between, are the client's delete: `between` is the system at
      the removal, in which the request is still open. */
  lemma CloseStepsAreDelete(s: System, between: System, origin: string, local: string, answered: bool)
    requires MayClose(s.pool, origin, local) && (origin, local) in between.closing
    ensures (origin, local) in Next(s, CheckClose(origin, local)).closing
    ensures var e := Next(between, FinishClose(origin, local, answered));
            (e.pool, CacheOf(e, origin))
            == AfterDelete(s.pool, between.pool, CacheOf(between, origin), origin, local, answered)
  {
  }

  /** And a close whose check fails never removes anything. */
  lemma FailedCheckIsDelete(s: System, origin: string, local: string, answered: bool)
    requires !MayClose(s.pool, origin, local)
    ensures Next(s, CheckClose(origin, local)) == s
    ensures AfterDelete(s.pool, s.pool, CacheOf(s, origin), origin, local, answered) == (s.pool, CacheOf(s, origin))
  {
  }

  /** Launching a pair that is already in the pool gives back its address and adds nothing. */
  lemma RelaunchReturnsSameLocal(pool: Instances, i: nat, title: string, bound: Option<string>)
    requires PoolInv(pool) && i < |pool|
    requires bound.Some? && !LocalTaken(pool, bound.value)
    ensures var r := Launching(pool, title, pool[i].remote, pool[i].scope, bound);
            && r.Launched? && r.instance == pool[i].(title := title)
            && r.pool == pool[i := pool[i].(title := title)]
  {
  }

  /** No page's launch changes what another page gets listed, and neither does the check of a close. */
  lemma OriginsAreIsolated(steps: seq<Step>, step: Step, other: string)
    requires (step.Add? || step.CheckClose?) && other != step.origin
    ensures View(Next(Exec(steps), step).pool, other) == View(Exec(steps).pool, other)
  {
    if step.Add? {
      LaunchIsolated(Exec(steps).pool, step.title, step.remote, step.origin, step.bound, other);
    }
  }

  /** What an answer that gets lost leaves behind, for a copy that was exact: nothing wrong exactly when the
      request was never sent or turned down. */
  lemma LostAnswerStaleIff(pool: Instances, origin: string, title: string, remote: string, bound: Option<string>)
    ensures var (pool', cache') := AfterAdd(pool, View(pool, origin), origin, title, remote, bound, false);
            cache' == View(pool', origin)
            <==> Cached(View(pool, origin), remote) || bound.None? || LocalTaken(pool, bound.value)
  {
    var k := PairIndex(pool, remote, origin);
    if k < |pool| {
      ViewHas(pool, k);
      var view := View(pool, origin);
      var n :| 0 <= n < |view| && view[n] == EntryOf(pool[k]);
      assert Cached(view, remote);
    } else if bound.Some? && !LocalTaken(pool, bound.value) {
      ViewSnoc(pool, Instance(title, remote, bound.value, origin), origin);
    }
  }

  lemma LostDeleteStaleIff(pool: Instances, origin: string, local: string)
    ensures var (pool', cache') := AfterDelete(pool, pool, View(pool, origin), origin, local, false);
            cache' == View(pool', origin) <==> !MayClose(pool, origin, local)
  {
    RemovalVisibleIff(pool, local, origin);
    if MayClose(pool, origin, local) {
      assert pool[LocalIndex(pool, local)].scope in ScopesAt(pool, local);
    }
  }

  // ---------- a close whose removal comes later than its check ----------

  /** The removal changes no other page's list exactly when the check would still pass, or nothing is at the
      address any more. */
  lemma RemovalSafeIff(steps: seq<Step>, origin: string, local: string)
    ensures var pool := Exec(steps).pool;
            (forall other :: other != origin ==> View(Retain(pool, NotAt(local)), other) == View(pool, other))
            <==> LocalIndex(pool, local) == |pool| || MayClose(pool, origin, local)
  {
    RunsStayInSync(steps);
    var pool := Exec(steps).pool;
    var k := LocalIndex(pool, local);
    forall other
      ensures View(Retain(pool, NotAt(local)), other) == View(pool, other) <==> other !in ScopesAt(pool, local)
    {
      RemovalVisibleIff(pool, local, other);
    }
    if k < |pool| {
      OnlyCallerThere(pool, pool[k].scope, local);
      assert pool[k].scope in ScopesAt(pool, local);
    } else {
      assert ScopesAt(pool, local) == {};
    }
  }

  /** What can take the caller's instance away between check and removal. */
  predicate TakesAway(step: Step, origin: string, local: string) {
    || step == OwnerRemoves(local)
    || step == ScopeRemoved(origin)
    || (step.FinishClose? && step.local == local)
  }

  ghost predicate Owns(pool: Instances, origin: string, local: string) {
    exists i :: i in pool && i.local == local && i.scope == origin
  }

  lemma OwnsIffMayClose(pool: Instances, origin: string, local: string)
    requires UniqueLocals(pool)
    ensures Owns(pool, origin, local) <==> MayClose(pool, origin, local)
  {
    var k := LocalIndex(pool, local);
    assert k < |pool| ==> pool[k] in pool;
    if Owns(pool, origin, local) {
      var i :| i in pool && i.local == local && i.scope == origin;
      var n :| 0 <= n < |pool| && pool[n] == i;
      assert n == k;
    }
  }

  lemma LaunchKeepsOwner(pool: Instances, title: string, remote: string, scope: string, bound: Option<string>,
                         origin: string, local: string)
    requires Owns(pool, origin, local)
    ensures var r := Launching(pool, title, remote, scope, bound); r.Launched? ==> Owns(r.pool, origin, local)
  {
    var i :| i in pool && i.local == local && i.scope == origin;
    var n :| 0 <= n < |pool| && pool[n] == i;
    var r := Launching(pool, title, remote, scope, bound);
    if r.Launched? {
      assert r.pool[n].local == local && r.pool[n].scope == origin && r.pool[n] in r.pool;
    }
  }

  lemma RetainKeepsOwner(pool: Instances, keep: Instance -> bool, origin: string, local: string)
    requires Owns(pool, origin, local)
    requires forall i :: i in pool && i.local == local && i.scope == origin ==> keep(i)
    ensures Owns(Retain(pool, keep), origin, local)
  {
    RetainIsSublist(pool, keep);
  }

  lemma StepKeepsOwner(s: System, step: Step, origin: string, local: string)
    requires Owns(s.pool, origin, local) && !TakesAway(step, origin, local)
    ensures Owns(Next(s, step).pool, origin, local)
  {
    match step
    case Add(o, title, remote, bound, _) => LaunchKeepsOwner(s.pool, title, remote, o, bound, origin, local);
    case OwnerLaunches(title, remote, scope, bound) =>
      LaunchKeepsOwner(s.pool, title, remote, scope, bound, origin, local);
    case FinishClose(_, l, _) => RetainKeepsOwner(s.pool, NotAt(l), origin, local);
    case OwnerRemoves(l) => RetainKeepsOwner(s.pool, NotAt(l), origin, local);
    case ScopeRemoved(host) => RetainKeepsOwner(s.pool, NotOf(host), origin, local);
    case CheckClose(_, _) =>
    case Sync(_) =>
  }

  lemma {:induction false} OwnerUntilRemoval(steps: seq<Step>, later: seq<Step>, origin: string, local: string)
    requires Owns(Exec(steps).pool, origin, local)
    requires forall step :: step in later ==> !TakesAway(step, origin, local)
    ensures Owns(Exec(steps + later).pool, origin, local)
  {
    if later == [] {
      assert steps + later == steps;
    } else {
      var init, last := later[..|later| - 1], later[|later| - 1];
      OwnerUntilRemoval(steps, init, origin, local);
      Assoc(steps, init, [last]);
      assert later == init + [last];
      OwnerOneMore(steps + init, last, origin, local);
    }
  }

  lemma OwnerOneMore(steps: seq<Step>, step: Step, origin: string, local: string)
    requires Owns(Exec(steps).pool, origin, local) && !TakesAway(step, origin, local)
    ensures Owns(Exec(steps + [step]).pool, origin, local)
  {
    ExecPush(steps, step);
    StepKeepsOwner(Exec(steps), step, origin, local);
  }

  /** So a close is safe for every other page, whatever else happens between its check and its removal, unless
      the owner, the removal of the caller's scope or another close takes the caller's instance away. */
  lemma DelayedCloseSafe(steps: seq<Step>, later: seq<Step>, origin: string, local: string, other: string)
    requires other != origin && MayClose(Exec(steps).pool, origin, local)
    requires forall step :: step in later ==> !TakesAway(step, origin, local)
    ensures var pool := Exec(steps + later).pool;
            View(Retain(pool, NotAt(local)), other) == View(pool, other)
  {
    RunsStayInSync(steps);
    RunsStayInSync(steps + later);
    OwnsIffMayClose(Exec(steps).pool, origin, local);
    OwnerUntilRemoval(steps, later, origin, local);
    OwnsIffMayClose(Exec(steps + later).pool, origin, local);
    RemovalSafeIff(steps + later, origin, local);
  }

  lemma LaunchIntoEmpty(s: System, origin: string, remote: string, local: string)
    requires s.pool == [] && origin !in s.caches
    ensures var s' := Next(s, Add(origin, "", remote, Some(local), true));
            && s'.pool == [Instance("", remote, local, origin)]
            && s'.closing == s.closing && s'.caches.Keys == s.caches.Keys + {origin}
  {
  }

  lemma CheckOwn(s: System, i: Instance)
    requires s.pool == [i]
    ensures Next(s, CheckClose(i.scope, i.local)) == s.(closing := s.closing + multiset{(i.scope, i.local)})
  {
    assert LocalIndex(s.pool, i.local) == 0;
  }

  lemma RemoveOnly(s: System, i: Instance, origin: string)
    requires s.pool == [i]
    ensures var s' := Next(s, OwnerRemoves(i.local)); s'.pool == [] && s'.closing == s.closing && s'.caches == s.caches
    ensures (origin, i.local) in s.closing ==> Next(s, FinishClose(origin, i.local, true)).pool == []
  {
    FlatMapOne(Keep(NotAt(i.local)), i);
  }

  lemma ExecPush(steps: seq<Step>, step: Step)
    ensures Exec(steps + [step]) == Next(Exec(steps), step)
  {
    assert (steps + [step])[..|steps|] == steps;
  }

  /** The hazard is real: after page a's check the owner closes the address, and page b's next launch gets
      it. */
  function Hazard(): seq<Step> {
    [Add("a", "", "r", Some("p"), true)] + [CheckClose("a", "p")] + [OwnerRemoves("p")]
    + [Add("b", "", "r", Some("p"), true)]
  }

  lemma DelayedCloseHitsAnother()
    ensures var s := Exec(Hazard());
            View(s.pool, "b") != [] && View(Next(s, FinishClose("a", "p", true)).pool, "b") == []
  {
    var one: seq<Step> := [Add("a", "", "r", Some("p"), true)];
    var two := one + [CheckClose("a", "p")];
    var three := two + [OwnerRemoves("p")];
    var mine, theirs := Instance("", "r", "p", "a"), Instance("", "r", "p", "b");
    assert [] + one == one;
    ExecPush([], one[0]);
    ExecPush(one, CheckClose("a", "p"));
    ExecPush(two, OwnerRemoves("p"));
    ExecPush(three, Add("b", "", "r", Some("p"), true));
    LaunchIntoEmpty(Exec([]), "a", "r", "p");
    CheckOwn(Exec(one), mine);
    RemoveOnly(Exec(two), mine, "a");
    LaunchIntoEmpty(Exec(three), "b", "r", "p");
    RemoveOnly(Exec(Hazard()), theirs, "a");
    ViewSnoc([], theirs, "b");
  }

  // ---------- the status a site is told ----------

  datatype ScopeStep = Request(host: string) | Allow(host: string) | Remove(host: string)

  function ExecScopes(loaded: seq<Scope>, steps: seq<ScopeStep>): seq<Scope> {
    if steps == [] then loaded
    else
      var before := ExecScopes(loaded, steps[..|steps| - 1]);
      match steps[|steps| - 1]
      case Request(host) => Requested(before, host)
      case Allow(host) => Allowed(before, host)
      case Remove(host) => Removed(before, host)
  }

  /** What the status handler reads for a host. */
  function Status(scopes: seq<Scope>, host: string): Option<string> {
    var k := ScopeIndex(scopes, host);
    if k < |scopes| then Some(scopes[k].state) else None
  }

  ghost predicate UniqueHosts(scopes: seq<Scope>) {
    forall i, j :: 0 <= i < j < |scopes| ==> scopes[i].host != scopes[j].host
  }

  /** One host's standing, looking at its own steps only. */
  function Standing(first: Option<string>, steps: seq<ScopeStep>, host: string): Option<string> {
    if steps == [] then first
    else
      var before := Standing(first, steps[..|steps| - 1], host);
      var step := steps[|steps| - 1];
      if step.host != host then before
      else if step.Remove? then None
      else if step.Allow? then (if before.Some? then Some("allowed") else None)
      else if before.Some? then before
      else Some("pending")
  }

  /** The first entry of a host is the only one, wherever it is. */
  lemma StatusAt(scopes: seq<Scope>, k: nat)
    requires UniqueHosts(scopes) && k < |scopes|
    ensures Status(scopes, scopes[k].host) == Some(scopes[k].state)
  {
  }

  lemma RequestedStatus(scopes: seq<Scope>, host: string, other: string)
    requires UniqueHosts(scopes)
    ensures var after := Requested(scopes, host);
            UniqueHosts(after)
            && Status(after, other) == if other == host && Status(scopes, host).None? then Some("pending")
                                       else Status(scopes, other)
  {
    var after := Requested(scopes, host);
    if after != scopes {
      var k := ScopeIndex(scopes, other);
      if k < |scopes| {
        assert after[k] == scopes[k];
        StatusAt(after, k);
      } else if other == host {
        StatusAt(after, |scopes|);
      }
    }
  }

  lemma AllowedStatus(scopes: seq<Scope>, host: string, other: string)
    requires UniqueHosts(scopes)
    ensures var after := Allowed(scopes, host);
            UniqueHosts(after)
            && Status(after, other) == if other == host && Status(scopes, host).Some? then Some("allowed")
                                       else Status(scopes, other)
  {
    var after := Allowed(scopes, host);
    var k := ScopeIndex(scopes, other);
    if k < |scopes| {
      StatusAt(after, k);
    }
  }

  lemma RemovedStatus(scopes: seq<Scope>, host: string, other: string)
    requires UniqueHosts(scopes)
    ensures var after := Removed(scopes, host);
            UniqueHosts(after) && Status(after, other) == if other == host then None else Status(scopes, other)
  {
    var after := Removed(scopes, host);
    var gone, k := ScopeIndex(scopes, host), ScopeIndex(scopes, other);
    if gone < |scopes| && k < |scopes| && other != host {
      var m := if k < gone then k else k - 1;
      assert after[m] == scopes[k];
      StatusAt(after, m);
    }
  }

  /** Hosts never repeat, and every host's entry is what its own requests, approvals and removals made of
      it: no other host's steps move it. */
  lemma {:induction false} ScopesAreIndependent(loaded: seq<Scope>, steps: seq<ScopeStep>, host: string)
    requires UniqueHosts(loaded)
    ensures UniqueHosts(ExecScopes(loaded, steps))
    ensures Status(ExecScopes(loaded, steps), host) == Standing(Status(loaded, host), steps, host)
  {
    if steps != [] {
      var init, step := steps[..|steps| - 1], steps[|steps| - 1];
      ScopesAreIndependent(loaded, init, host);
      var before := ExecScopes(loaded, init);
      match step
      case Request(h) => RequestedStatus(before, h, host);
      case Allow(h) => AllowedStatus(before, h, host);
      case Remove(h) => RemovedStatus(before, h, host);
    }
  }

  ghost predicate Approved(steps: seq<ScopeStep>, host: string) {
    exists i, j :: 0 <= i < j < |steps| && steps[i] == Request(host) && steps[j] == Allow(host)
                   && forall k :: i < k < |steps| ==> steps[k] != Remove(host)
  }

  /** A site that was unknown at the start is told "allowed" exactly when it asked, the owner approved it
      later, and the owner has not removed it since it asked. This is about the reported status: the pool
      handlers never look at it, and the cross-origin rule lets every listed site through, pending or not. */
  lemma AllowedIffApproved(loaded: seq<Scope>, steps: seq<ScopeStep>, host: string)
    requires UniqueHosts(loaded) && Status(loaded, host).None?
    ensures Status(ExecScopes(loaded, steps), host) == Some("allowed") <==> Approved(steps, host)
  {
    ScopesAreIndependent(loaded, steps, host);
    StandingIff(steps, host);
  }

  ghost predicate Asked(steps: seq<ScopeStep>, host: string) {
    exists i :: 0 <= i < |steps| && steps[i] == Request(host) && forall k :: i < k < |steps| ==> steps[k] != Remove(host)
  }

  lemma {:induction false} StandingIff(steps: seq<ScopeStep>, host: string)
    ensures Standing(None, steps, host).Some? <==> Asked(steps, host)
    ensures Standing(None, steps, host) == Some("allowed") <==> Approved(steps, host)
  {
    if steps != [] {
      var init, step := steps[..|steps| - 1], steps[|steps| - 1];
      StandingIff(init, host);
      assert steps == init + [step];
      AskedSnoc(init, step, host);
      ApprovedSnoc(init, step, host);
    }
  }

  lemma AskedSnoc(init: seq<ScopeStep>, step: ScopeStep, host: string)
    ensures Asked(init + [step], host) <==> step == Request(host) || (Asked(init, host) && step != Remove(host))
  {
    var steps := init + [step];
    assert steps[|init|] == step;
    if Asked(steps, host) {
      var i :| 0 <= i < |steps| && steps[i] == Request(host) && forall k :: i < k < |steps| ==> steps[k] != Remove(host);
      if i < |init| {
        assert init[i] == Request(host);
        assert forall k :: i < k < |init| ==> init[k] == steps[k];
      }
    }
    if Asked(init, host) && step != Remove(host) {
      var i :| 0 <= i < |init| && init[i] == Request(host) && forall k :: i < k < |init| ==> init[k] != Remove(host);
      assert steps[i] == Request(host);
    }
  }

  lemma ApprovedSnoc(init: seq<ScopeStep>, step: ScopeStep, host: string)
    ensures Approved(init + [step], host)
       <==> step != Remove(host) && (Approved(init, host) || (step == Allow(host) && Asked(init, host)))
  {
    var steps := init + [step];
    if Approved(steps, host) {
      var i, j :| 0 <= i < j < |steps| && steps[i] == Request(host) && steps[j] == Allow(host)
                  && forall k :: i < k < |steps| ==> steps[k] != Remove(host);
      assert steps[|init|] == step && init[i] == Request(host);
      assert forall k :: i < k < |init| ==> init[k] == steps[k];
      if j < |init| {
        assert init[j] == Allow(host);
      }
    }
    if step != Remove(host) && Approved(init, host) {
      var i, j :| 0 <= i < j < |init| && init[i] == Request(host) && init[j] == Allow(host)
                  && forall k :: i < k < |init| ==> init[k] != Remove(host);
      assert steps[i] == Request(host) && steps[j] == Allow(host);
    }
    if step == Allow(host) && Asked(init, host) {
      var i :| 0 <= i < |init| && init[i] == Request(host) && forall k :: i < k < |init| ==> init[k] != Remove(host);
      assert steps[i] == Request(host) && steps[|init|] == Allow(host);
    }
  }
}
