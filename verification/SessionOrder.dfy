/** With one refresher a conversation never goes back to an older catalog. */
module SessionOrder {
  import opened Prelude
  import opened Catalog
  import opened CatalogBundle
  import opened Dialogue
  import opened DialogueProofs
  import opened Payload
  import opened StateStore
  import opened FullSystem
  import Publication
  import Cache = CatalogCache
  import Refresh = CatalogRefresh
  import Turns = TurnProtocol

  // ---------------------------------------------------------------- publication order

  /** Version u is v, or was published before it. */
  ghost predicate UpTo(history: seq<string>, u: string, v: string) {
    u == v || Refresh.Precedes(history, u, v)
  }

  lemma UpToTransitive(history: seq<string>, u: string, v: string, w: string)
    requires Distinct(history) && UpTo(history, u, v) && UpTo(history, v, w)
    ensures UpTo(history, u, w)
  {
    if u != v && v != w {
      var i, j :| 0 <= i < j < |history| && history[i] == u && history[j] == v;
      var k, l :| 0 <= k < l < |history| && history[k] == v && history[l] == w;
      assert j == k;
    }
  }

  // ---------------------------------------------------------------- the activated versions move forward

  lemma PublishedGrows(c: Cache.World, a: Cache.Action)
    ensures var d := Cache.Step(c, a);
      d.published == c.published || (exists v :: d.published == c.published + [v])
  {
  }

  /** One step of publisher or cache: the history is extended and the bundle served is replaced by newer ones only. */
  ghost predicate Forward(w: Refresh.World, v: Refresh.World) {
    && w.history <= v.history && Distinct(v.history)
    && (w.cache.cache.active.Some? ==>
          v.cache.cache.active.Some? && UpTo(v.history, w.cache.cache.active.value.version, v.cache.cache.active.value.version))
  }

  lemma CatalogStepForward(lang: Language, actions: seq<Refresh.Action>, c: Refresh.Action)
    requires Refresh.OneRefresher(lang, actions + [c])
    ensures Forward(Refresh.Execute(lang, actions), Refresh.Step(lang, Refresh.Execute(lang, actions), c))
  {
    hide Publication.Publish, Publication.DbInv, Refresh.FromDb, Cache.FlightInv, Cache.HonestStatus, Cache.Step, Refresh.Execute;
    var all := actions + [c];
    assert all[..|all| - 1] == actions && all[|all| - 1] == c;
    ExecuteNext(lang, actions, c);
    var w, v := Refresh.Execute(lang, actions), Refresh.Execute(lang, all);
    Refresh.ReachableInv(lang, actions);
    Refresh.ReachableInv(lang, all);
    Refresh.SerialRuns(lang, all);
    var a := Refresh.CacheAction(lang, w, c);
    if !c.PublishCatalog? && a.Some? && w.cache.cache.active.Some? {
      PublishedGrows(w.cache, a.value);
      ActiveForward(v.history, w.cache, v.cache);
    }
  }

  lemma ExecuteNext(lang: Language, actions: seq<Refresh.Action>, c: Refresh.Action)
    ensures Refresh.Execute(lang, actions + [c]) == Refresh.Step(lang, Refresh.Execute(lang, actions), c)
  {
    hide Refresh.Step;
    assert (actions + [c])[..|actions|] == actions;
  }

  lemma ActiveForward(history: seq<string>, c: Cache.World, d: Cache.World)
    requires Cache.CountInv(c) && Cache.CountInv(d) && Refresh.Forward(history, d.published)
    requires d.published == c.published || (exists v :: d.published == c.published + [v])
    requires c.cache.active.Some?
    ensures d.cache.active.Some? && UpTo(history, c.cache.active.value.version, d.cache.active.value.version)
  {
    hide Cache.Activators;
    var n := |c.published|;
    assert n > 0;
    if d.published != c.published { assert Refresh.Precedes(history, d.published[n - 1], d.published[n]); }
  }

  // ---------------------------------------------------------------- the order of turns

  /** The version is the one served or an earlier one. */
  ghost predicate Seen(w: World, v: string) {
    var active := w.catalog.cache.cache.active;
    active.Some? && UpTo(w.catalog.history, v, active.value.version)
  }

  /** The client has its turn computed from the state that the session is still in. */
  ghost predicate Current(t: Turns.World, i: int) {
    && 0 <= i < |t.clients| && t.clients[i].pc.Computed? && t.clients[i].call.sessionId in t.store.sessions
    && t.clients[i].pc.base.revision == t.store.sessions[t.clients[i].call.sessionId].revision
  }

  ghost predicate TurnsSeen(w: World) {
    && (forall k :: 0 <= k < |w.turns.store.turns| ==> Seen(w, w.turns.store.turns[k].catalogVersion))
    && (forall i :: 0 <= i < |w.turns.clients| && w.turns.clients[i].pc.Computed? ==> Seen(w, w.turns.clients[i].pc.commit.catalogVersion))
  }

  /** A turn computed from the current state used no older catalog than the answered turns behind that state. */
  ghost predicate CurrentAhead(w: World) {
    forall i, k ::
      (Current(w.turns, i) && 0 <= k < |w.turns.store.turns| && Turns.Answered(w.turns.store.turns[k]) &&
       w.turns.store.turns[k].sessionId == w.turns.clients[i].call.sessionId) ==>
        UpTo(w.catalog.history, w.turns.store.turns[k].catalogVersion, w.turns.clients[i].pc.commit.catalogVersion)
  }

  ghost predicate InOrder(history: seq<string>, turns: seq<StoredTurn>) {
    forall k, l :: 0 <= k < l < |turns| && turns[k].sessionId == turns[l].sessionId && Turns.Answered(turns[k]) ==>
      UpTo(history, turns[k].catalogVersion, turns[l].catalogVersion)
  }

  ghost predicate Ordered(w: World) {
    TurnsSeen(w) && CurrentAhead(w) && InOrder(w.catalog.history, w.turns.store.turns)
  }

  // ---------------------------------------------------------------- steps of publisher and cache

  lemma LongerHistory(history: seq<string>, longer: seq<string>, u: string, v: string)
    requires history <= longer && UpTo(history, u, v)
    ensures UpTo(longer, u, v)
  {
    if u != v {
      var i, j :| 0 <= i < j < |history| && history[i] == u && history[j] == v;
      assert longer[i] == u && longer[j] == v;
    }
  }

  lemma CatalogKeepsOrder(w: World, catalog: Refresh.World)
    requires Ordered(w) && Forward(w.catalog, catalog)
    ensures Ordered(World(w.turns, catalog))
  {
    hide UpTo;
    var v := World(w.turns, catalog);
    forall u, x | UpTo(w.catalog.history, u, x) ensures UpTo(catalog.history, u, x) {
      LongerHistory(w.catalog.history, catalog.history, u, x);
    }
    forall u | Seen(w, u) ensures Seen(v, u) {
      UpToTransitive(catalog.history, u, w.catalog.cache.cache.active.value.version, catalog.cache.cache.active.value.version);
    }
  }

  // ---------------------------------------------------------------- steps of clients

  /** No turn is stored or computed, and no session that a computed turn is for changes. */
  ghost predicate Quiet(t: Turns.World, u: Turns.World) {
    && u.store.turns == t.store.turns
    && (forall sid :: sid in t.store.sessions ==> sid in u.store.sessions && u.store.sessions[sid] == t.store.sessions[sid])
    && (forall i :: 0 <= i < |u.clients| && u.clients[i].pc.Computed? ==>
          i < |t.clients| && t.clients[i] == u.clients[i] && t.clients[i].call.sessionId in t.store.sessions)
  }

  lemma QuietKeepsOrder(w: World, u: Turns.World)
    requires Ordered(w) && Quiet(w.turns, u)
    ensures Ordered(World(u, w.catalog))
  {
    hide UpTo;
    forall i | Current(u, i) ensures Current(w.turns, i) { }
  }

  lemma OtherStepsQuiet(t: Turns.World, a: Turns.Action)
    requires Turns.Inv(AnyInput, t) && !a.RunEngine? && !a.CommitStep?
    ensures Quiet(t, Turns.Step(AnyInput, t, a))
  {
    hide Turns.StoreInv, StateFrom, StatePayload, FindTurn, Turns.AfterStateRead, Turns.PackagedFrom;
    ComputedHasSession(t);
    if a.ReadState? && a.i < |t.clients| { ReadComputesNothing(t.store, t.clients[a.i].call); }
  }

  lemma ReadComputesNothing(store: Store, c: Call)
    ensures !Turns.AfterStateRead(store, c).Computed?
  {
  }

  lemma ComputedHasSession(t: Turns.World)
    requires Turns.Inv(AnyInput, t)
    ensures forall i :: 0 <= i < |t.clients| && t.clients[i].pc.Computed? ==> t.clients[i].call.sessionId in t.store.sessions
  {
    hide Turns.StoreInv, Turns.PackagedFrom;
    forall i | 0 <= i < |t.clients| && t.clients[i].pc.Computed? ensures t.clients[i].call.sessionId in t.store.sessions {
      assert Turns.ClientInv(AnyInput, t.store, t.clients[i]);
    }
  }

  /** The engine runs on the bundle that is served, so no turn stored so far used a newer one. */
  lemma RunKeepsOrder(w: World, i: nat, input: EngineInput)
    requires Ordered(w) && Served(w, Turns.RunEngine(i, input))
    ensures Ordered(World(Turns.Step(AnyInput, w.turns, Turns.RunEngine(i, input)), w.catalog))
  {
    hide UpTo, Turns.Answered;
    var t, u := w.turns, Turns.Step(AnyInput, w.turns, Turns.RunEngine(i, input));
    if i < |t.clients| && t.clients[i].pc.Loaded? && GoodInput(input) {
      var commit := u.clients[i].pc.commit;
      assert commit.catalogVersion == input.bundle.version by { PackagedVersion(t.clients[i].call, t.clients[i].pc.state, input); }
      assert UpTo(w.catalog.history, commit.catalogVersion, commit.catalogVersion) by { SameVersion(w.catalog.history, commit.catalogVersion); }
      forall j | j != i && Current(u, j) ensures Current(t, j) { }
    } else {
      assert u == t;
    }
  }

  lemma PackagedVersion(c: Call, s: TurnState, input: EngineInput)
    requires GoodInput(input)
    ensures Package(c, Run(c, s, input), input.trace).catalogVersion == input.bundle.version
  {
    hide Handle, StatePayload, ResultPayload;
    TurnAccounting(input.lx, input.bundle, Request(c.requestId, c.text, s), input.reply);
  }

  lemma SameVersion(history: seq<string>, v: string)
    ensures UpTo(history, v, v)
  {
  }

  // ---------------------------------------------------------------- commits

  /** A commit that stores a turn: the client's state is current, and an answered turn makes it and all others outdated. */
  ghost predicate Stores(t: Turns.World, u: Turns.World, i: nat, row: StoredTurn) {
    && Current(t, i)
    && row.sessionId == t.clients[i].call.sessionId && row.catalogVersion == t.clients[i].pc.commit.catalogVersion
    && u.store.turns == t.store.turns + [row]
    && u.store.sessions.Keys == t.store.sessions.Keys
    && (forall sid :: sid in t.store.sessions ==>
          u.store.sessions[sid].revision == t.store.sessions[sid].revision + if sid == row.sessionId && Turns.Answered(row) then 1 else 0)
    && |u.clients| == |t.clients| && !u.clients[i].pc.Computed?
    && (forall j :: 0 <= j < |t.clients| && j != i ==> u.clients[j] == t.clients[j])
  }

  lemma InsertStores(t: Turns.World, i: nat, input: EngineInput, reply: Reply)
    requires i < |t.clients| && t.clients[i].pc.Computed?
    requires var c, s := t.clients[i].call, t.clients[i].pc.base;
      Turns.Inserting(AnyInput, t.store, c, s, input) && t.clients[i].pc.commit == Package(c, Run(c, s, input), input.trace)
    ensures var c, s := t.clients[i].call, t.clients[i].pc.base;
      var u := Turns.At(t.(store := Turns.AfterInsert(t.store, c, s, input)), i, Turns.Returned(reply));
      Stores(t, u, i, Turns.TurnRow(s, c.requestId, c.text, input))
  {
    hide Handle, StatePayload, StateFrom, ResultPayload, Turns.Answered;
    var c, s := t.clients[i].call, t.clients[i].pc.base;
    Turns.PackageParts(c, s, input);
    Turns.TurnRowParts(s, c.requestId, c.text, input);
  }

  /** A commit stores the turn that the client computed, or changes nothing but the client. */
  lemma CommitStoresOrNot(t: Turns.World, i: nat)
    requires Turns.Inv(AnyInput, t)
    ensures var u := Turns.Step(AnyInput, t, Turns.CommitStep(i)); Quiet(t, u) || exists row :: Stores(t, u, i, row)
  {
    hide Turns.StoreInv, Committed, StatePayload, StateFrom, Handle, Package, Turns.TurnRow, Turns.AfterInsert, Stores, Run, FindTurn;
    ComputedHasSession(t);
    if i < |t.clients| && t.clients[i].pc.Computed? {
      var c, s := t.clients[i].call, t.clients[i].pc.base;
      assert Turns.ClientInv(AnyInput, t.store, t.clients[i]);
      var input :| GoodInput(input) && t.clients[i].pc.commit == Package(c, Run(c, s, input), input.trace);
      Turns.CommitOutcome(AnyInput, t.store, c, s, input);
      Turns.CommitStepIs(AnyInput, t, i);
      var outcome := Committed(t.store, t.clients[i].pc.commit);
      if outcome.0 != t.store { InsertStores(t, i, input, outcome.1); }
    }
  }

  lemma StoreKeepsOrder(w: World, u: Turns.World, i: nat, row: StoredTurn)
    requires Ordered(w) && Turns.Inv(AnyInput, w.turns) && Stores(w.turns, u, i, row)
    ensures Ordered(World(u, w.catalog))
  {
    hide UpTo, Turns.Answered, Seen, CurrentAhead, InOrder, TurnsSeen, Turns.Inv;
    StoreKeepsSeen(w, u, i, row);
    StoreKeepsCurrent(w, u, i, row);
    AppendInOrder(w, i, row);
  }

  lemma StoreKeepsSeen(w: World, u: Turns.World, i: nat, row: StoredTurn)
    requires TurnsSeen(w) && Stores(w.turns, u, i, row)
    ensures TurnsSeen(World(u, w.catalog))
  {
    hide UpTo, Turns.Answered;
    var t, v := w.turns, World(u, w.catalog);
    forall x | Seen(w, x) ensures Seen(v, x) { }
    var turns, n := u.store.turns, |t.store.turns|;
    assert turns[n] == row && forall k :: 0 <= k < n ==> turns[k] == t.store.turns[k];
  }

  lemma AppendInOrder(w: World, i: nat, row: StoredTurn)
    requires Ordered(w) && Current(w.turns, i)
    requires row.sessionId == w.turns.clients[i].call.sessionId && row.catalogVersion == w.turns.clients[i].pc.commit.catalogVersion
    ensures InOrder(w.catalog.history, w.turns.store.turns + [row])
  {
    hide UpTo, Turns.Answered, Seen;
  }

  /** Whoever still has the current state has it from before, so the new turn was not answered or is of another session. */
  lemma StoreKeepsCurrent(w: World, u: Turns.World, i: nat, row: StoredTurn)
    requires Ordered(w) && Turns.Inv(AnyInput, w.turns) && Stores(w.turns, u, i, row)
    ensures CurrentAhead(World(u, w.catalog))
  {
    hide UpTo, Turns.Answered, Seen, Turns.StoreInv;
    var t := w.turns;
    forall j, k | Current(u, j) && 0 <= k < |u.store.turns| && Turns.Answered(u.store.turns[k]) &&
                  u.store.turns[k].sessionId == u.clients[j].call.sessionId
      ensures UpTo(w.catalog.history, u.store.turns[k].catalogVersion, u.clients[j].pc.commit.catalogVersion)
    {
      assert j != i && u.clients[j] == t.clients[j];
      BaseNotNewer(t, j);
      assert Current(t, j);
      assert k < |t.store.turns|;
      assert u.store.turns[k] == t.store.turns[k];
    }
  }

  lemma BaseNotNewer(t: Turns.World, j: nat)
    requires Turns.Inv(AnyInput, t) && j < |t.clients| && t.clients[j].pc.Computed?
    ensures var sid := t.clients[j].call.sessionId;
      sid in t.store.sessions && t.clients[j].pc.base.revision <= t.store.sessions[sid].revision
  {
    hide Turns.StoreInv, Turns.PackagedFrom;
    assert Turns.ClientInv(AnyInput, t.store, t.clients[j]);
  }

  // ---------------------------------------------------------------- whole runs

  lemma {:induction false} TurnsInv(lang: Language, actions: seq<Action>)
    ensures Turns.Inv(AnyInput, Execute(lang, actions).turns)
    decreases |actions|
  {
    hide Turns.Inv, Turns.Step, Refresh.Step;
    if actions == [] {
      Turns.ReachableInv(AnyInput, []);
    } else {
      var init, a := actions[..|actions| - 1], actions[|actions| - 1];
      TurnsInv(lang, init);
      if a.TurnAction? { Turns.StepKeepsInv(AnyInput, Execute(lang, init).turns, a.t); }
    }
  }

  lemma TurnKeepsOrder(w: World, a: Turns.Action)
    requires Ordered(w) && Turns.Inv(AnyInput, w.turns) && Served(w, a)
    ensures Ordered(World(Turns.Step(AnyInput, w.turns, a), w.catalog))
  {
    hide Ordered, Turns.Inv, Turns.Step, Quiet, Stores;
    match a
    case RunEngine(i, input) => RunKeepsOrder(w, i, input);
    case CommitStep(i) =>
      var u := Turns.Step(AnyInput, w.turns, a);
      CommitStoresOrNot(w.turns, i);
      if Quiet(w.turns, u) {
        QuietKeepsOrder(w, u);
      } else {
        var row :| Stores(w.turns, u, i, row);
        StoreKeepsOrder(w, u, i, row);
      }
    case _ =>
      OtherStepsQuiet(w.turns, a);
      QuietKeepsOrder(w, Turns.Step(AnyInput, w.turns, a));
  }

  lemma {:induction false} OrderedRuns(lang: Language, actions: seq<Action>)
    requires Refresh.OneRefresher(lang, CatalogPart(actions))
    ensures Ordered(Execute(lang, actions))
    decreases |actions|
  {
    hide Ordered, Turns.Inv, Turns.Step, Refresh.Step, Refresh.Execute, Forward;
    if actions == [] {
      StartOrdered();
    } else {
      var init, a := actions[..|actions| - 1], actions[|actions| - 1];
      var w := Execute(lang, init);
      InitOneRefresher(lang, actions);
      OrderedRuns(lang, init);
      if a.CatalogAction? {
        CatalogRuns(lang, init);
        assert CatalogPart(actions) == CatalogPart(init) + [a.c];
        CatalogStepForward(lang, CatalogPart(init), a.c);
        CatalogKeepsOrder(w, Refresh.Step(lang, w.catalog, a.c));
      } else if Served(w, a.t) {
        TurnsInv(lang, init);
        TurnKeepsOrder(w, a.t);
      }
    }
  }

  lemma StartOrdered()
    ensures Ordered(Start)
  {
  }

  lemma InitOneRefresher(lang: Language, actions: seq<Action>)
    requires actions != [] && Refresh.OneRefresher(lang, CatalogPart(actions))
    ensures Refresh.OneRefresher(lang, CatalogPart(actions[..|actions| - 1]))
  {
    hide Refresh.Execute, Refresh.Idle;
    var init, a := actions[..|actions| - 1], actions[|actions| - 1];
    if a.CatalogAction? {
      var part := CatalogPart(actions);
      assert part[..|part| - 1] == CatalogPart(init);
    } else {
      assert CatalogPart(actions) == CatalogPart(init);
    }
  }

  /**
   * A conversation never goes back: with one refresher, whatever is published and however clients
   * race, a turn stored after an answered turn of its session used the same catalog or a later one.
   */
  lemma ConversationMovesForward(lang: Language, actions: seq<Action>, k: nat, l: nat)
    requires Refresh.OneRefresher(lang, CatalogPart(actions))
    requires var turns := Execute(lang, actions).turns.store.turns;
      k < l < |turns| && turns[k].sessionId == turns[l].sessionId && Turns.Answered(turns[k])
    ensures var w := Execute(lang, actions);
      UpTo(w.catalog.history, w.turns.store.turns[k].catalogVersion, w.turns.store.turns[l].catalogVersion)
  {
    hide Execute;
    OrderedRuns(lang, actions);
  }
}
