/** The catalog cache: single-flight loading, last good bundle, status. */
module CatalogCache {
  import opened Prelude
  import opened CatalogBundle

  datatype Freshness = EMPTY | READY | DEGRADED

  datatype Status = Status(freshness: Freshness, activeVersion: Option<string>, lastError: Option<string>)

  datatype RefreshResult = RefreshResult(version: string, activated: bool, cacheHit: bool, error: Option<string>)

  /** Events are numbered; `signalled` holds the ones that have been set. */
  datatype Cache = Cache(
    active: Option<Bundle>,
    status: Status,
    loading: map<string, nat>,
    signalled: set<nat>,
    nextEvent: nat)

  const EmptyCache: Cache := Cache(None, Status(EMPTY, None, None), map[], {}, 0)

  /** What the first critical section of `refresh` decides. */
  datatype Entry = Hit(result: RefreshResult) | Load(event: nat) | Wait(event: nat)

  datatype Outcome = Fetched(bundle: Bundle) | Raised(error: string)

  function ActiveVersion(active: Option<Bundle>): Option<string> {
    match active
    case None => None
    case Some(b) => Some(b.version)
  }

  // ---------------------------------------------------------------- critical sections, as functions

  function Enter(c: Cache, version: string): (Cache, Entry) {
    if ActiveVersion(c.active) == Some(version) then
      (c.(status := Status(READY, Some(version), None)), Hit(RefreshResult(version, false, true, None)))
    else if version in c.loading then (c, Wait(c.loading[version]))
    else (c.(loading := c.loading[version := c.nextEvent], nextEvent := c.nextEvent + 1), Load(c.nextEvent))
  }

  function AfterWait(c: Cache, version: string): RefreshResult {
    if ActiveVersion(c.active) == Some(version) then RefreshResult(version, false, true, None)
    else RefreshResult(version, false, false,
      Some(match c.status.lastError
           case None => "Catalog " + version + " was not activated"
           case Some(e) => if e == "" then "Catalog " + version + " was not activated" else e))
  }

  /** Keep the last good bundle and say what went wrong. */
  function RecordError(c: Cache, error: string): Cache {
    c.(status := Status(if c.active.Some? then DEGRADED else EMPTY, ActiveVersion(c.active), Some(error)))
  }

  /** The load counts only if it brought the version that was asked for. */
  function Verdict(version: string, outcome: Outcome): Outcome {
    match outcome
    case Fetched(b) => if b.version == version then outcome else Raised("Loaded catalog version " + b.version + ", expected " + version)
    case Raised(_) => outcome
  }

  function Release(c: Cache, version: string, event: nat): Cache {
    c.(loading := map v | v in c.loading && v != version :: c.loading[v], signalled := c.signalled + {event})
  }

  function Finish(c: Cache, version: string, event: nat, outcome: Outcome): (Cache, RefreshResult) {
    match Verdict(version, outcome)
    case Raised(error) => (Release(RecordError(c, error), version, event), RefreshResult(version, false, false, Some(error)))
    case Fetched(b) =>
      (Release(c.(active := Some(b), status := Status(READY, Some(b.version), None)), version, event),
       RefreshResult(version, true, false, None))
  }

  class CatalogCache {
    var active: Option<Bundle>
    var status: Status
    var loading: map<string, nat>
    var signalled: set<nat>
    var nextEvent: nat

    constructor ()
      ensures View() == EmptyCache
    {
      active, status, loading, signalled, nextEvent := None, Status(EMPTY, None, None), map[], {}, 0;
    }

    function View(): Cache
      reads this
    {
      Cache(active, status, loading, signalled, nextEvent)
    }

    /** None stands for CatalogUnavailable. */
    method Get() returns (bundle: Option<Bundle>)
      ensures bundle == active
    {
      return active;
    }

    method BeginRefresh(version: string) returns (entry: Entry)
      modifies this
      ensures (View(), entry) == Enter(old(View()), version)
    {
      if active.Some? && active.value.version == version {
        status := Status(READY, Some(version), None);
        return Hit(RefreshResult(version, false, true, None));
      }
      if version in loading { return Wait(loading[version]); }
      loading := loading[version := nextEvent];
      nextEvent := nextEvent + 1;
      return Load(nextEvent - 1);
    }

    method ResultAfterWait(version: string) returns (r: RefreshResult)
      ensures r == AfterWait(View(), version)
    {
      if active.Some? && active.value.version == version {
        return RefreshResult(version, false, true, None);
      }
      var error := OrEmpty(status.lastError);
      if error == "" { error := "Catalog " + version + " was not activated"; }
      return RefreshResult(version, false, false, Some(error));
    }

    method RecordSourceError(error: string)
      modifies this
      ensures View() == RecordError(old(View()), error)
    {
      status := Status(if active.Some? then DEGRADED else EMPTY, ActiveVersion(active), Some(error));
    }

    method FinishRefresh(version: string, event: nat, outcome: Outcome) returns (r: RefreshResult)
      modifies this
      ensures (View(), r) == Finish(old(View()), version, event, outcome)
    {
      var verdict := Verdict(version, outcome);
      match verdict {
        case Raised(error) =>
          RecordSourceError(error);
          r := RefreshResult(version, false, false, Some(error));
        case Fetched(bundle) =>
          active := Some(bundle);
          status := Status(READY, Some(bundle.version), None);
          r := RefreshResult(version, true, false, None);
      }
      loading := map v | v in loading && v != version :: loading[v];
      signalled := signalled + {event};
    }

    /** `refresh` on a thread that meets no other: the loader's path from end to end. */
    method Refresh(version: string, outcome: Outcome) returns (r: RefreshResult)
      requires version !in loading
      modifies this
      ensures version !in loading
      ensures ActiveVersion(old(active)) == Some(version) ==> r.cacheHit && active == old(active)
      ensures ActiveVersion(old(active)) != Some(version) ==>
        r.activated == Verdict(version, outcome).Fetched? && active == if r.activated then Some(outcome.bundle) else old(active)
      ensures r.error.Some? <==> !r.activated && !r.cacheHit
      ensures r.error.Some? ==> status.freshness != READY && status.lastError == r.error
      ensures r.error.None? ==> status == Status(READY, Some(version), None)
    {
      var entry := BeginRefresh(version);
      match entry {
        case Hit(result) => r := result;
        case Wait(_) => assert false; r := RefreshResult(version, false, false, None);
        case Load(event) => r := FinishRefresh(version, event, outcome);
      }
    }
  }

  // ---------------------------------------------------------------- threads

  datatype Pc =
    | Entering
    | Loading(event: nat)
    | Publishing(event: nat, outcome: Outcome)
    | Waiting(event: nat)
    | Returned(result: RefreshResult)

  datatype Thread = Thread(version: string, pc: Pc)

  /** `published` records the versions activated so far, oldest first. */
  datatype World = World(cache: Cache, threads: seq<Thread>, published: seq<string>)

  const Start: World := World(EmptyCache, [], [])

  datatype Action =
    | CallRefresh(version: string)
    | EnterLock(i: nat)
    | LoadReturns(i: nat, outcome: Outcome)
    | Publish(i: nat)
    | WakeUp(i: nat)
    | SourceError(error: string)

  predicate Enabled(w: World, a: Action) {
    match a
    case CallRefresh(_) => true
    case SourceError(_) => true
    case EnterLock(i) => i < |w.threads| && w.threads[i].pc.Entering?
    case LoadReturns(i, _) => i < |w.threads| && w.threads[i].pc.Loading?
    case Publish(i) => i < |w.threads| && w.threads[i].pc.Publishing?
    case WakeUp(i) => i < |w.threads| && w.threads[i].pc.Waiting? && w.threads[i].pc.event in w.cache.signalled
  }

  function At(w: World, i: nat, pc: Pc): World
    requires i < |w.threads|
  {
    w.(threads := w.threads[i := w.threads[i].(pc := pc)])
  }

  function Step(w: World, a: Action): World {
    if !Enabled(w, a) then w
    else
      match a
      case CallRefresh(v) => w.(threads := w.threads + [Thread(v, Entering)])
      case SourceError(e) => w.(cache := RecordError(w.cache, e))
      case EnterLock(i) =>
        var (cache, entry) := Enter(w.cache, w.threads[i].version);
        At(w.(cache := cache), i,
           match entry case Hit(r) => Returned(r) case Load(e) => Loading(e) case Wait(e) => Waiting(e))
      case LoadReturns(i, outcome) => At(w, i, Publishing(w.threads[i].pc.event, outcome))
      case Publish(i) =>
        var v := w.threads[i].version;
        var (cache, r) := Finish(w.cache, v, w.threads[i].pc.event, w.threads[i].pc.outcome);
        At(w.(cache := cache, published := if r.activated then w.published + [v] else w.published), i, Returned(r))
      case WakeUp(i) => At(w, i, Returned(AfterWait(w.cache, w.threads[i].version)))
  }

  function Execute(actions: seq<Action>): World {
    if actions == [] then Start else Step(Execute(actions[..|actions| - 1]), actions[|actions| - 1])
  }

  // ---------------------------------------------------------------- the invariant

  /** The status always tells the truth about the bundle that is served. */
  ghost predicate HonestStatus(c: Cache) {
    && (c.status.freshness == EMPTY <==> c.active.None?)
    && c.status.activeVersion == ActiveVersion(c.active)
    && (c.status.freshness == READY ==> c.status.lastError.None?)
    && (c.status.freshness == DEGRADED ==> c.status.lastError.Some?)
  }

  /** This thread is the one loading under event e. */
  predicate Owns(t: Thread, e: nat) {
    (t.pc.Loading? || t.pc.Publishing?) && t.pc.event == e
  }

  predicate Owner(t: Thread) {
    t.pc.Loading? || t.pc.Publishing?
  }

  /** A loader's event is the one registered for its version. */
  ghost predicate OwnersRegistered(w: World) {
    forall i :: 0 <= i < |w.threads| && Owner(w.threads[i]) ==>
      w.threads[i].version in w.cache.loading && w.cache.loading[w.threads[i].version] == w.threads[i].pc.event
  }

  ghost predicate Registered(w: World, e: nat) {
    exists i :: 0 <= i < |w.threads| && Owns(w.threads[i], e)
  }

  /** A registered event has a live loader. */
  ghost predicate LoadersLive(w: World) {
    forall v :: v in w.cache.loading ==> w.cache.loading[v] < w.cache.nextEvent && Registered(w, w.cache.loading[v])
  }

  ghost predicate EventsApart(w: World) {
    forall v, u :: v in w.cache.loading && u in w.cache.loading && v != u ==> w.cache.loading[v] != w.cache.loading[u]
  }

  ghost predicate OwnersApart(w: World) {
    forall i, j :: 0 <= i < j < |w.threads| && Owner(w.threads[i]) && Owner(w.threads[j]) ==>
      w.threads[i].pc.event != w.threads[j].pc.event
  }

  /** A waiter's event has been set, or is the one registered for its version. */
  ghost predicate WaitersServed(w: World) {
    forall i :: 0 <= i < |w.threads| && w.threads[i].pc.Waiting? ==>
      || w.threads[i].pc.event in w.cache.signalled
      || (w.threads[i].version in w.cache.loading && w.cache.loading[w.threads[i].version] == w.threads[i].pc.event)
  }

  ghost predicate FlightInv(w: World) {
    OwnersRegistered(w) && LoadersLive(w) && EventsApart(w) && OwnersApart(w) && WaitersServed(w)
  }

  /** How many threads reported that they activated a bundle. */
  function Activators(threads: seq<Thread>): nat {
    if threads == [] then 0
    else
      var last := threads[|threads| - 1];
      Activators(threads[..|threads| - 1]) + if last.pc.Returned? && last.pc.result.activated then 1 else 0
  }

  ghost predicate CountInv(w: World) {
    && |w.published| == Activators(w.threads)
    && ActiveVersion(w.cache.active) == if w.published == [] then None else Some(w.published[|w.published| - 1])
  }

  ghost predicate Inv(w: World) {
    HonestStatus(w.cache) && FlightInv(w) && CountInv(w)
  }

  lemma {:induction false} ActivatorsUpdate(threads: seq<Thread>, i: nat, t: Thread)
    requires i < |threads|
    requires !(threads[i].pc.Returned? && threads[i].pc.result.activated)
    ensures Activators(threads[i := t]) == Activators(threads) + if t.pc.Returned? && t.pc.result.activated then 1 else 0
    decreases |threads|
  {
    var n := |threads| - 1;
    if i < n {
      ActivatorsUpdate(threads[..n], i, t);
      assert threads[i := t][..n] == threads[..n][i := t];
    } else {
      assert threads[i := t][..n] == threads[..n];
    }
  }

  lemma CallKeepsInv(w: World, v: string)
    requires Inv(w)
    ensures Inv(Step(w, CallRefresh(v)))
  {
    var t := Thread(v, Entering);
    assert (w.threads + [t])[..|w.threads|] == w.threads;
    var w' := Step(w, CallRefresh(v));
    forall u | u in w'.cache.loading ensures Registered(w', w'.cache.loading[u]) {
      var i :| 0 <= i < |w.threads| && Owns(w.threads[i], w.cache.loading[u]);
      assert Owns(w'.threads[i], w.cache.loading[u]);
    }
  }

  /** The cache may only forget nothing: same registrations, no fewer signals. */
  predicate SameFlights(c: Cache, d: Cache) {
    c.loading == d.loading && c.nextEvent == d.nextEvent && c.signalled <= d.signalled
  }

  /** A thread that neither becomes nor stops being an owner disturbs no flight. */
  lemma QuietStepKeepsFlight(w: World, i: nat, pc: Pc, cache: Cache)
    requires i < |w.threads| && FlightInv(w) && SameFlights(w.cache, cache)
    requires Owner(w.threads[i]) == (pc.Loading? || pc.Publishing?)
    requires Owner(w.threads[i]) ==> pc.event == w.threads[i].pc.event
    requires pc.Waiting? ==> w.threads[i].version in cache.loading && cache.loading[w.threads[i].version] == pc.event
    ensures FlightInv(At(w.(cache := cache), i, pc))
  {
    var w' := At(w.(cache := cache), i, pc);
    forall v | v in w'.cache.loading ensures Registered(w', w'.cache.loading[v]) {
      var k :| 0 <= k < |w.threads| && Owns(w.threads[k], w.cache.loading[v]);
      assert Owns(w'.threads[k], w.cache.loading[v]);
    }
  }

  /** The cache once a flight for version v is registered. */
  function NewFlight(c: Cache, v: string): Cache {
    c.(loading := c.loading[v := c.nextEvent], nextEvent := c.nextEvent + 1)
  }

  lemma NewFlightApart(w: World, i: nat)
    requires i < |w.threads| && OwnersRegistered(w) && LoadersLive(w) && OwnersApart(w) && w.threads[i].pc.Entering?
    ensures OwnersApart(At(w.(cache := NewFlight(w.cache, w.threads[i].version)), i, Loading(w.cache.nextEvent)))
  {
    var e := w.cache.nextEvent;
    var w' := At(w.(cache := NewFlight(w.cache, w.threads[i].version)), i, Loading(e));
    forall k, l | 0 <= k < l < |w'.threads| && Owner(w'.threads[k]) && Owner(w'.threads[l])
      ensures w'.threads[k].pc.event != w'.threads[l].pc.event
    {
      assert k != i ==> w.threads[k].pc.event < e;
      assert l != i ==> w.threads[l].pc.event < e;
    }
  }

  lemma NewFlightKept(w: World, i: nat)
    requires i < |w.threads| && FlightInv(w) && w.threads[i].pc.Entering? && w.threads[i].version !in w.cache.loading
    ensures FlightInv(At(w.(cache := NewFlight(w.cache, w.threads[i].version)), i, Loading(w.cache.nextEvent)))
  {
    hide OwnersApart;
    var v, e := w.threads[i].version, w.cache.nextEvent;
    var w' := At(w.(cache := NewFlight(w.cache, v)), i, Loading(e));
    assert w'.threads[i] == Thread(v, Loading(e));
    NewFlightApart(w, i);
    forall u | u in w'.cache.loading ensures Registered(w', w'.cache.loading[u]) {
      if u == v {
        assert Owns(w'.threads[i], e);
      } else {
        var k :| 0 <= k < |w.threads| && Owns(w.threads[k], w.cache.loading[u]);
        assert Owns(w'.threads[k], w.cache.loading[u]);
      }
    }
  }

  lemma EnterKeepsInv(w: World, i: nat)
    requires Inv(w) && Enabled(w, EnterLock(i))
    ensures Inv(Step(w, EnterLock(i)))
  {
    hide FlightInv, Activators;
    var w' := Step(w, EnterLock(i));
    var v := w.threads[i].version;
    ActivatorsUpdate(w.threads, i, w'.threads[i]);
    if ActiveVersion(w.cache.active) != Some(v) && v !in w.cache.loading {
      NewFlightKept(w, i);
    } else {
      QuietStepKeepsFlight(w, i, w'.threads[i].pc, w'.cache);
    }
  }

  lemma LoadReturnsKeepsInv(w: World, i: nat, outcome: Outcome)
    requires Inv(w) && Enabled(w, LoadReturns(i, outcome))
    ensures Inv(Step(w, LoadReturns(i, outcome)))
  {
    var pc := Publishing(w.threads[i].pc.event, outcome);
    ActivatorsUpdate(w.threads, i, w.threads[i].(pc := pc));
    QuietStepKeepsFlight(w, i, pc, w.cache);
    assert w.(cache := w.cache) == w;
  }

  lemma WakeUpKeepsInv(w: World, i: nat)
    requires Inv(w) && Enabled(w, WakeUp(i))
    ensures Inv(Step(w, WakeUp(i)))
  {
    var w' := Step(w, WakeUp(i));
    ActivatorsUpdate(w.threads, i, w'.threads[i]);
    QuietStepKeepsFlight(w, i, w'.threads[i].pc, w.cache);
    assert w.(cache := w.cache) == w;
  }

  /** Nobody else owns the flight of version v. */
  lemma OnlyOwner(w: World, i: nat, k: nat)
    requires i < |w.threads| && k < |w.threads| && k != i && FlightInv(w) && Owner(w.threads[i]) && Owner(w.threads[k])
    ensures w.threads[k].version != w.threads[i].version
  {
  }

  /** The owner leaves: its registration goes and its event is set. */
  lemma EndFlightKept(w: World, i: nat, pc: Pc, cache: Cache)
    requires i < |w.threads| && FlightInv(w) && Owner(w.threads[i]) && pc.Returned?
    requires cache.nextEvent == w.cache.nextEvent && cache.signalled == w.cache.signalled + {w.threads[i].pc.event}
    requires cache.loading.Keys == w.cache.loading.Keys - {w.threads[i].version}
    requires forall u :: u in cache.loading ==> cache.loading[u] == w.cache.loading[u]
    ensures FlightInv(At(w.(cache := cache), i, pc))
  {
    var w' := At(w.(cache := cache), i, pc);
    var v := w.threads[i].version;
    assert LoadersLive(w') by {
      forall u | u in cache.loading ensures Registered(w', cache.loading[u]) {
        var k :| 0 <= k < |w.threads| && Owns(w.threads[k], w.cache.loading[u]);
        assert w.cache.loading[u] != w.cache.loading[v];
        assert Owns(w'.threads[k], cache.loading[u]);
      }
    }
    assert OwnersRegistered(w') by {
      forall k | 0 <= k < |w'.threads| && Owner(w'.threads[k]) ensures w.threads[k].version != v { OnlyOwner(w, i, k); }
    }
  }

  lemma FinishEffect(c: Cache, version: string, event: nat, outcome: Outcome)
    requires HonestStatus(c)
    ensures var (d, r) := Finish(c, version, event, outcome);
      && HonestStatus(d)
      && d.nextEvent == c.nextEvent && d.signalled == c.signalled + {event}
      && d.loading.Keys == c.loading.Keys - {version}
      && (forall u :: u in d.loading ==> d.loading[u] == c.loading[u])
      && ActiveVersion(d.active) == (if r.activated then Some(version) else ActiveVersion(c.active))
  {
  }

  lemma PublishKeepsInv(w: World, i: nat)
    requires Inv(w) && Enabled(w, Publish(i))
    ensures Inv(Step(w, Publish(i)))
  {
    var t := w.threads[i];
    var (cache, r) := Finish(w.cache, t.version, t.pc.event, t.pc.outcome);
    FinishEffect(w.cache, t.version, t.pc.event, t.pc.outcome);
    ActivatorsUpdate(w.threads, i, t.(pc := Returned(r)));
    EndFlightKept(w, i, Returned(r), cache);
    var w' := Step(w, Publish(i));
    assert w'.threads == w.threads[i := t.(pc := Returned(r))];
    assert FlightInv(w') by { assert w' == At(w.(cache := cache), i, Returned(r)).(published := w'.published); }
  }

  lemma StepKeepsInv(w: World, a: Action)
    requires Inv(w)
    ensures Inv(Step(w, a))
  {
    if Enabled(w, a) {
      match a
      case CallRefresh(v) => CallKeepsInv(w, v);
      case SourceError(_) =>
      case EnterLock(i) => EnterKeepsInv(w, i);
      case LoadReturns(i, outcome) => LoadReturnsKeepsInv(w, i, outcome);
      case Publish(i) => PublishKeepsInv(w, i);
      case WakeUp(i) => WakeUpKeepsInv(w, i);
    }
  }

  lemma {:induction false} ReachableInv(actions: seq<Action>)
    ensures Inv(Execute(actions))
    decreases |actions|
  {
    if actions != [] {
      ReachableInv(actions[..|actions| - 1]);
      StepKeepsInv(Execute(actions[..|actions| - 1]), actions[|actions| - 1]);
    }
  }

  // ---------------------------------------------------------------- what callers can rely on

  /** Single flight: in no interleaving are two threads inside the loader for one version. */
  lemma SingleFlight(actions: seq<Action>, i: nat, j: nat)
    requires var w := Execute(actions);
      i < j < |w.threads| && Owner(w.threads[i]) && Owner(w.threads[j])
    ensures Execute(actions).threads[i].version != Execute(actions).threads[j].version
  {
    ReachableInv(actions);
  }

  /** No lost wake-up: an unsignalled waiter always has a live loader that will signal its event. */
  lemma WaiterHasLoader(actions: seq<Action>, i: nat)
    requires var w := Execute(actions);
      i < |w.threads| && w.threads[i].pc.Waiting? && w.threads[i].pc.event !in w.cache.signalled
    ensures var w := Execute(actions);
      exists k :: 0 <= k < |w.threads| && Owns(w.threads[k], w.threads[i].pc.event) && w.threads[k].version == w.threads[i].version
  {
    ReachableInv(actions);
    var w := Execute(actions);
    var v := w.threads[i].version;
    var k :| 0 <= k < |w.threads| && Owns(w.threads[k], w.cache.loading[v]);
    assert w.threads[k].version == v;
  }

  /** An action that moves thread i forward. */
  predicate Moves(a: Action, i: nat) {
    match a
    case EnterLock(k) => k == i
    case LoadReturns(k, _) => k == i
    case Publish(k) => k == i
    case WakeUp(k) => k == i
    case _ => false
  }

  /** Progress: as long as some refresh is in flight, some thread can take a step. */
  lemma SomeThreadCanStep(actions: seq<Action>, i: nat)
    requires i < |Execute(actions).threads| && !Execute(actions).threads[i].pc.Returned?
    ensures exists a, k :: Moves(a, k) && Enabled(Execute(actions), a)
  {
    var w := Execute(actions);
    match w.threads[i].pc
    case Entering => assert Moves(EnterLock(i), i) && Enabled(w, EnterLock(i));
    case Loading(_) => assert Moves(LoadReturns(i, Raised("")), i) && Enabled(w, LoadReturns(i, Raised("")));
    case Publishing(_, _) => assert Moves(Publish(i), i) && Enabled(w, Publish(i));
    case Waiting(e) =>
      if e in w.cache.signalled {
        assert Moves(WakeUp(i), i) && Enabled(w, WakeUp(i));
      } else {
        WaiterHasLoader(actions, i);
        var k :| 0 <= k < |w.threads| && Owns(w.threads[k], e);
        if w.threads[k].pc.Loading? {
          assert Moves(LoadReturns(k, Raised("")), k) && Enabled(w, LoadReturns(k, Raised("")));
        } else {
          assert Moves(Publish(k), k) && Enabled(w, Publish(k));
        }
      }
  }

  /** How many steps a thread may still need. */
  function Remaining(pc: Pc): nat {
    match pc
    case Entering => 3
    case Loading(_) => 2
    case Publishing(_, _) => 1
    case Waiting(_) => 1
    case Returned(_) => 0
  }

  function Work(threads: seq<Thread>): nat {
    if threads == [] then 0 else Work(threads[..|threads| - 1]) + Remaining(threads[|threads| - 1].pc)
  }

  lemma {:induction false} WorkUpdate(threads: seq<Thread>, i: nat, t: Thread)
    requires i < |threads|
    ensures Work(threads[i := t]) == Work(threads) - Remaining(threads[i].pc) + Remaining(t.pc)
    decreases |threads|
  {
    var n := |threads| - 1;
    if i < n {
      WorkUpdate(threads[..n], i, t);
      assert threads[i := t][..n] == threads[..n][i := t];
    } else {
      assert threads[i := t][..n] == threads[..n];
    }
  }

  /** How many actions of the run moved a thread, and how many calls it contains. */
  function Moved(actions: seq<Action>): nat {
    if actions == [] then 0
    else
      var init, a := actions[..|actions| - 1], actions[|actions| - 1];
      Moved(init) + if Enabled(Execute(init), a) && !a.CallRefresh? && !a.SourceError? then 1 else 0
  }

  function Calls(actions: seq<Action>): nat {
    if actions == [] then 0 else Calls(actions[..|actions| - 1]) + if actions[|actions| - 1].CallRefresh? then 1 else 0
  }

  /** Every refresh ends: a run with n calls contains at most 3n thread steps, so with progress all calls return. */
  lemma {:induction false} EveryRefreshEnds(actions: seq<Action>)
    ensures Moved(actions) + Work(Execute(actions).threads) <= 3 * Calls(actions)
    decreases |actions|
  {
    if actions != [] {
      var init, a := actions[..|actions| - 1], actions[|actions| - 1];
      EveryRefreshEnds(init);
      var w, w' := Execute(init), Execute(actions);
      MovesShrinkWork(w, a);
    }
  }

  lemma MovesShrinkWork(w: World, a: Action)
    ensures Work(Step(w, a).threads) <= Work(w.threads) + (if a.CallRefresh? then 3 else 0)
      - (if Enabled(w, a) && !a.CallRefresh? && !a.SourceError? then 1 else 0)
  {
    var w' := Step(w, a);
    match a
    case CallRefresh(v) => assert w'.threads[..|w.threads|] == w.threads;
    case SourceError(_) =>
    case EnterLock(i) => if Enabled(w, a) { WorkUpdate(w.threads, i, w'.threads[i]); }
    case LoadReturns(i, _) => if Enabled(w, a) { WorkUpdate(w.threads, i, w'.threads[i]); }
    case Publish(i) => if Enabled(w, a) { WorkUpdate(w.threads, i, w'.threads[i]); }
    case WakeUp(i) => if Enabled(w, a) { WorkUpdate(w.threads, i, w'.threads[i]); }
  }

  /** The thread reports that it activated the version it was called for. */
  predicate Reports(t: Thread) {
    t.pc.Returned? && t.pc.result == RefreshResult(t.version, true, false, None)
  }

  /** The action publishes a thread's load, and the load brought the version asked for. */
  predicate Brings(w: World, a: Action) {
    && a.Publish? && Enabled(w, a)
    && w.threads[a.i].pc.outcome.Fetched? && w.threads[a.i].pc.outcome.bundle.version == w.threads[a.i].version
  }

  /**
   * Last good status, in every interleaving: the status is honest and an active bundle is never lost.
   * The bundle served changes, or a bundle is recorded as published, exactly when a thread that is about
   * to publish has fetched the version it asked for; that thread then reports the activation, its bundle is the one
   * served from that step on, and no other step makes any thread report an activation.
   */
  lemma LastGoodStatus(actions: seq<Action>, a: Action)
    ensures var w, w' := Execute(actions), Step(Execute(actions), a);
      && HonestStatus(w.cache)
      && (w.cache.active.Some? ==> w'.cache.active.Some?)
      && Activators(w.threads) == |w.published|
      && (Brings(w, a) ==>
            && w'.cache.active == Some(w.threads[a.i].pc.outcome.bundle)
            && w'.published == w.published + [w.threads[a.i].version]
            && Reports(w'.threads[a.i]))
      && (!Brings(w, a) ==> w'.cache.active == w.cache.active && w'.published == w.published)
      && (forall i :: 0 <= i < |w'.threads| && Reports(w'.threads[i]) ==>
            (i < |w.threads| && Reports(w.threads[i])) || (Brings(w, a) && i == a.i))
  {
    hide FlightInv, Activators, Execute;
    ReachableInv(actions);
  }

  // ---------------------------------------------------------------- every report is true

  /** While a thread is in the loader its version is not the active one. */
  ghost predicate OwnersStale(w: World) {
    forall i :: 0 <= i < |w.threads| && Owner(w.threads[i]) ==> ActiveVersion(w.cache.active) != Some(w.threads[i].version)
  }

  lemma StepKeepsStale(w: World, a: Action)
    requires Inv(w) && OwnersStale(w)
    ensures OwnersStale(Step(w, a))
  {
    hide LoadersLive, EventsApart, WaitersServed, CountInv, HonestStatus;
    if a.Publish? && Enabled(w, a) {
      forall k | 0 <= k < |w.threads| && k != a.i && Owner(w.threads[k]) ensures w.threads[k].version != w.threads[a.i].version {
        OnlyOwner(w, a.i, k);
      }
    }
  }

  lemma {:induction false} StaleRuns(actions: seq<Action>)
    ensures OwnersStale(Execute(actions))
    decreases |actions|
  {
    hide Step, Inv, OwnersStale;
    if actions == [] {
      assert OwnersStale(Start) by { NoOwners(); }
    } else {
      StaleRuns(actions[..|actions| - 1]);
      ReachableInv(actions[..|actions| - 1]);
      StepKeepsStale(Execute(actions[..|actions| - 1]), actions[|actions| - 1]);
    }
  }

  lemma NoOwners()
    ensures OwnersStale(Start)
  {
  }

  /** The step makes thread i return. */
  predicate Returns(w: World, a: Action, i: nat) {
    var v := Step(w, a);
    i < |v.threads| && v.threads[i].pc.Returned? && (i < |w.threads| ==> !w.threads[i].pc.Returned?)
  }

  /** The text that a waiter reports when the status holds no error of its own. */
  function NotActivated(version: string): string {
    "Catalog " + version + " was not activated"
  }

  /**
   * Every report is true, in every interleaving: at the step that makes a call return, it reports no error exactly when the
   * version it was called for is the active one; it reports an activation exactly when it has just published that version
   * itself, and a hit otherwise. An error is the last one in the status, or says that nothing was activated if there is none.
   */
  lemma ReturnsTellTruth(actions: seq<Action>, a: Action, i: nat)
    requires Returns(Execute(actions), a, i)
    ensures var w := Step(Execute(actions), a);
      var t, r := w.threads[i], w.threads[i].pc.result;
      var last := w.cache.status.lastError;
      && r.version == t.version
      && (r.error.None? <==> ActiveVersion(w.cache.active) == Some(t.version))
      && (r.activated <==> r.error.None? && a.Publish?)
      && (r.cacheHit <==> r.error.None? && !a.Publish?)
      && (a.WakeUp? && r.error.Some? ==> r.error == if last.None? || last == Some("") then Some(NotActivated(t.version)) else last)
      && (a.Publish? && r.error.Some? ==> r.error == last && !w.cache.status.freshness.READY?)
      && (!a.WakeUp? && r.error.None? ==> w.cache.status == Status(READY, Some(t.version), None))
  {
    hide Execute, FlightInv, CountInv, HonestStatus;
    StaleRuns(actions);
  }
}
