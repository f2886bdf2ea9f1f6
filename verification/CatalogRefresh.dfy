/**
 * Publisher and cache together: the start refreshes the version configured or else the active one,
 * and publications go on while refreshers read the active version, load and activate.
 */
module CatalogRefresh {
  import opened Prelude
  import opened Catalog
  import opened CatalogBundle
  import Publication
  import PublicationProofs
  import Cache = CatalogCache

  /** `history` lists the published versions, oldest first. */
  datatype World = World(db: Publication.Db, cache: Cache.World, history: seq<string>)

  datatype Action =
    | PublishCatalog(payload: Document, sha: string)
    | RefreshConfigured(version: string)
    | ReadPointer
    | PointerUnreadable(error: string)
    | Load(i: nat, failure: Option<string>)
    | CacheStep(a: Cache.Action)

  const Start: World := World(Publication.EmptyDb, Cache.Start, [])

  /** What `PostgresCatalogSource.load` gives the thread, or the connection error it meets. */
  function LoadOutcome(lang: Language, db: Publication.Db, version: string, failure: Option<string>): Cache.Outcome {
    match failure
    case Some(e) => Cache.Raised(e)
    case None =>
      match Publication.LoadFrom(lang, db, version)
      case None => Cache.Raised(version)
      case Some(b) => Cache.Fetched(b)
  }

  /** The cache action behind an action of the composed system; steps that invent a version or a load do nothing. */
  function CacheAction(lang: Language, w: World, a: Action): Option<Cache.Action> {
    match a
    case PublishCatalog(_, _) => None
    case RefreshConfigured(v) => Some(Cache.CallRefresh(v))
    case ReadPointer =>
      Some(match w.db.pointer
           case None => Cache.SourceError("Catalog source has no active release")
           case Some(v) => Cache.CallRefresh(v))
    case PointerUnreadable(e) => Some(Cache.SourceError(e))
    case Load(i, failure) =>
      if i < |w.cache.threads| then
        Some(Cache.LoadReturns(i, LoadOutcome(lang, w.db, w.cache.threads[i].version, failure)))
      else None
    case CacheStep(c) => if c.EnterLock? || c.Publish? || c.WakeUp? then Some(c) else None
  }

  ghost function Step(lang: Language, w: World, a: Action): World {
    match a
    case PublishCatalog(payload, sha) =>
      var (db, result) := Publication.Publish(lang, w.db, payload, sha);
      w.(db := db, history := match result case None => w.history case Some(p) => w.history + [p.version])
    case _ =>
      match CacheAction(lang, w, a)
      case None => w
      case Some(c) => w.(cache := Cache.Step(w.cache, c))
  }

  ghost function Execute(lang: Language, actions: seq<Action>): World {
    if actions == [] then Start
    else Step(lang, Execute(lang, actions[..|actions| - 1]), actions[|actions| - 1])
  }

  // ---------------------------------------------------------------- the invariant

  /** The bundle is exactly what the release of that version was validated as. */
  ghost predicate FromRelease(lang: Language, db: Publication.Db, b: Bundle) {
    b.version in db.releases && b == BundleOf(lang, db.releases[b.version].document)
  }

  ghost predicate ThreadInv(lang: Language, db: Publication.Db, t: Cache.Thread) {
    t.pc.Publishing? && t.pc.outcome.Fetched? ==>
      FromRelease(lang, db, t.pc.outcome.bundle) && t.pc.outcome.bundle.version == t.version
  }

  ghost predicate HistoryInv(w: World) {
    && Distinct(w.history)
    && (forall v :: v in w.history <==> v in w.db.releases)
    && w.db.pointer == if w.history == [] then None else Some(w.history[|w.history| - 1])
  }

  /** Everything in the cache comes from releases of the database. */
  ghost predicate FromDb(lang: Language, db: Publication.Db, c: Cache.World) {
    && (forall i :: 0 <= i < |c.threads| ==> ThreadInv(lang, db, c.threads[i]))
    && (c.cache.active.Some? ==> FromRelease(lang, db, c.cache.active.value))
    && (forall v :: v in c.published ==> v in db.releases)
  }

  ghost predicate Inv(lang: Language, w: World) {
    && Publication.DbInv(lang, w.db)
    && HistoryInv(w)
    && Cache.Inv(w.cache)
    && FromDb(lang, w.db, w.cache)
  }

  lemma FromDbLater(lang: Language, db: Publication.Db, later: Publication.Db, c: Cache.World)
    requires FromDb(lang, db, c) && PublicationProofs.Later(db, later)
    ensures FromDb(lang, later, c)
  {
    forall i | 0 <= i < |c.threads| ensures ThreadInv(lang, later, c.threads[i]) {
      assert ThreadInv(lang, db, c.threads[i]);
    }
  }

  lemma HistoryAppends(w: World, db: Publication.Db, v: string)
    requires HistoryInv(w) && v !in w.db.releases
    requires db.releases.Keys == w.db.releases.Keys + {v} && db.pointer == Some(v)
    ensures HistoryInv(World(db, w.cache, w.history + [v]))
  {
    assert forall u :: u in w.history + [v] <==> u in w.history || u == v;
    assert forall u :: u in db.releases <==> u in db.releases.Keys;
  }

  /** What a publication attempt means for the rest of the system. */
  lemma PublishEffect(lang: Language, db: Publication.Db, payload: Document, sha: string)
    requires Publication.DbInv(lang, db)
    ensures var (next, result) := Publication.Publish(lang, db, payload, sha);
      match result
      case None => next == db
      case Some(p) =>
        && Publication.DbInv(lang, next) && PublicationProofs.Later(db, next) && p.version !in db.releases
        && next.releases.Keys == db.releases.Keys + {p.version} && next.pointer == Some(p.version)
  {
    hide ValidDocument, Publication.Publish, Publication.RowSet, PublicationProofs.Insertable;
    var doc := Publication.Trimmed(lang, payload);
    PublicationProofs.PublishOutcome(lang, db, payload, sha);
    if Publication.Publish(lang, db, payload, sha).1.Some? {
      PublicationProofs.TrimmedValid(lang, payload);
      PublicationProofs.AfterPublishKeepsInv(lang, db, doc, sha);
      PublicationProofs.AfterPublishLifecycle(lang, db, doc, sha);
      assert Publication.AfterPublish(lang, db, doc, sha).releases.Keys == db.releases.Keys + {doc.version};
    }
  }

  lemma PublishKeepsInv(lang: Language, w: World, payload: Document, sha: string)
    requires Inv(lang, w)
    ensures Inv(lang, Step(lang, w, PublishCatalog(payload, sha)))
  {
    PublishEffect(lang, w.db, payload, sha);
    var (db, result) := Publication.Publish(lang, w.db, payload, sha);
    if result.Some? {
      HistoryAppends(w, db, result.value.version);
      FromDbLater(lang, w.db, db, w.cache);
    }
  }

  /** A load brings the validated release of the version asked for, and fails exactly for a version never published. */
  lemma LoadBrings(lang: Language, db: Publication.Db, version: string, failure: Option<string>)
    requires Publication.DbInv(lang, db)
    ensures Publication.LoadFrom(lang, db, version) ==
      if version in db.releases then Some(BundleOf(lang, db.releases[version].document)) else None
    ensures var o := LoadOutcome(lang, db, version, failure);
      o.Fetched? ==> FromRelease(lang, db, o.bundle) && o.bundle.version == version
  {
  }

  /** Replacing the program counter of one thread, and perhaps the cache record, keeps the cache sourced from the database. */
  lemma ThreadMoveKeeps(lang: Language, db: Publication.Db, c: Cache.World, i: nat, pc: Cache.Pc, d: Cache.World)
    requires FromDb(lang, db, c) && i < |c.threads|
    requires d.threads == c.threads[i := c.threads[i].(pc := pc)]
    requires pc.Publishing? && pc.outcome.Fetched? ==>
      FromRelease(lang, db, pc.outcome.bundle) && pc.outcome.bundle.version == c.threads[i].version
    requires d.cache.active == c.cache.active || (d.cache.active.Some? && FromRelease(lang, db, d.cache.active.value))
    requires || d.published == c.published
             || (d.published == c.published + [c.threads[i].version] && c.threads[i].version in db.releases)
    ensures FromDb(lang, db, d)
  {
    assert ThreadInv(lang, db, c.threads[i]);
  }

  lemma CacheActionKeeps(lang: Language, db: Publication.Db, c: Cache.World, a: Cache.Action)
    requires FromDb(lang, db, c) && Cache.Enabled(c, a)
    requires a.LoadReturns? && a.outcome.Fetched? ==>
      FromRelease(lang, db, a.outcome.bundle) && a.outcome.bundle.version == c.threads[a.i].version
    ensures FromDb(lang, db, Cache.Step(c, a))
  {
    var d := Cache.Step(c, a);
    match a
    case CallRefresh(_) =>
    case SourceError(_) =>
    case EnterLock(i) => ThreadMoveKeeps(lang, db, c, i, d.threads[i].pc, d);
    case LoadReturns(i, _) => ThreadMoveKeeps(lang, db, c, i, d.threads[i].pc, d);
    case Publish(i) =>
      assert ThreadInv(lang, db, c.threads[i]);
      ThreadMoveKeeps(lang, db, c, i, d.threads[i].pc, d);
    case WakeUp(i) => ThreadMoveKeeps(lang, db, c, i, d.threads[i].pc, d);
  }

  /** The action that the composed system hands to the cache brings nothing foreign. */
  lemma CacheActionSourced(lang: Language, w: World, a: Action)
    requires Publication.DbInv(lang, w.db)
    requires CacheAction(lang, w, a).Some? && Cache.Enabled(w.cache, CacheAction(lang, w, a).value)
    ensures var c := CacheAction(lang, w, a).value;
      c.LoadReturns? && c.outcome.Fetched? ==>
        FromRelease(lang, w.db, c.outcome.bundle) && c.outcome.bundle.version == w.cache.threads[c.i].version
  {
    hide Publication.DbInv, FromRelease, LoadOutcome;
    if a.Load? { LoadBrings(lang, w.db, w.cache.threads[a.i].version, a.failure); }
  }

  lemma InvWithCache(lang: Language, w: World, d: Cache.World)
    requires Inv(lang, w) && Cache.Inv(d) && FromDb(lang, w.db, d)
    ensures Inv(lang, w.(cache := d))
  {
    assert HistoryInv(w.(cache := d));
  }

  lemma CacheWorldKept(lang: Language, w: World, a: Action)
    requires Publication.DbInv(lang, w.db) && FromDb(lang, w.db, w.cache) && Cache.Inv(w.cache)
    requires CacheAction(lang, w, a).Some?
    ensures var d := Cache.Step(w.cache, CacheAction(lang, w, a).value); Cache.Inv(d) && FromDb(lang, w.db, d)
  {
    var c := CacheAction(lang, w, a).value;
    Cache.StepKeepsInv(w.cache, c);
    if Cache.Enabled(w.cache, c) {
      CacheActionSourced(lang, w, a);
      CacheActionKeeps(lang, w.db, w.cache, c);
    }
  }

  lemma CacheStepKeepsInv(lang: Language, w: World, a: Action)
    requires Inv(lang, w) && !a.PublishCatalog?
    ensures Inv(lang, Step(lang, w, a))
  {
    var c := CacheAction(lang, w, a);
    if c.Some? {
      CacheWorldKept(lang, w, a);
      InvWithCache(lang, w, Cache.Step(w.cache, c.value));
    }
  }

  lemma {:induction false} ReachableInv(lang: Language, actions: seq<Action>)
    ensures Inv(lang, Execute(lang, actions))
    decreases |actions|
  {
    if actions != [] {
      var init, a := actions[..|actions| - 1], actions[|actions| - 1];
      ReachableInv(lang, init);
      match a
      case PublishCatalog(payload, sha) => PublishKeepsInv(lang, Execute(lang, init), payload, sha);
      case _ => CacheStepKeepsInv(lang, Execute(lang, init), a);
    }
  }

  // ---------------------------------------------------------------- what the composition guarantees

  /** However a run goes on, it keeps every release and its document. */
  lemma {:induction false} LaterRuns(lang: Language, actions: seq<Action>, more: seq<Action>)
    ensures PublicationProofs.Later(Execute(lang, actions).db, Execute(lang, actions + more).db)
    decreases |more|
  {
    hide Inv, Publication.Publish, CacheAction;
    if more == [] {
      assert actions + more == actions;
    } else {
      var init, a := more[..|more| - 1], more[|more| - 1];
      LaterRuns(lang, actions, init);
      assert (actions + more)[..|actions + more| - 1] == actions + init;
      DbLater(lang, actions + init, a);
    }
  }

  lemma DbLater(lang: Language, actions: seq<Action>, a: Action)
    ensures PublicationProofs.Later(Execute(lang, actions).db, Step(lang, Execute(lang, actions), a).db)
  {
    hide Execute, Publication.Publish, Publication.DbInv, CacheAction;
    ReachableInv(lang, actions);
    if a.PublishCatalog? { PublishEffect(lang, Execute(lang, actions).db, a.payload, a.sha); }
  }

  /**
   * A version that is active at some moment can be loaded at any later one, whatever has been
   * published since, and what is loaded is the bundle of the document that was active then.
   */
  lemma PointedVersionStaysLoadable(lang: Language, actions: seq<Action>, more: seq<Action>, v: string)
    requires Execute(lang, actions).db.pointer == Some(v)
    ensures v in Execute(lang, actions).db.releases
    ensures Publication.LoadFrom(lang, Execute(lang, actions + more).db, v) ==
      Some(BundleOf(lang, Execute(lang, actions).db.releases[v].document))
  {
    hide Execute;
    ReachableInv(lang, actions);
    ReachableInv(lang, actions + more);
    LaterRuns(lang, actions, more);
    LoadBrings(lang, Execute(lang, actions + more).db, v, None);
  }

  /** The bundle served to turns is always a validated release, unchanged since its publication. */
  lemma ServedBundleIsPublished(lang: Language, actions: seq<Action>)
    requires Execute(lang, actions).cache.cache.active.Some?
    ensures var w := Execute(lang, actions);
      var b := w.cache.cache.active.value;
      FromRelease(lang, w.db, b) && ValidBundle(b)
  {
    ReachableInv(lang, actions);
    var w := Execute(lang, actions);
    ValidBundleOf(lang, w.db.releases[w.cache.cache.active.value.version].document);
  }

  // ---------------------------------------------------------------- one refresher only moves forward

  ghost predicate Idle(w: World) {
    forall i :: 0 <= i < |w.cache.threads| ==> w.cache.threads[i].pc.Returned?
  }

  /** The configured version is refreshed first if at all, and a new refresh starts only when the previous one has returned. */
  ghost predicate OneRefresher(lang: Language, actions: seq<Action>)
    decreases |actions|
  {
    actions == [] || (
      var init, a := actions[..|actions| - 1], actions[|actions| - 1];
      && OneRefresher(lang, init)
      && (a.ReadPointer? ==> Idle(Execute(lang, init)))
      && (a.RefreshConfigured? ==> Execute(lang, init).cache.threads == []))
  }

  /** Version u was published before version v. */
  ghost predicate Precedes(history: seq<string>, u: string, v: string) {
    exists i, j :: 0 <= i < j < |history| && history[i] == u && history[j] == v
  }

  ghost predicate Forward(history: seq<string>, published: seq<string>) {
    forall k, l :: 0 <= k < l < |published| ==> Precedes(history, published[k], published[l])
  }

  /** The refresh in flight is for a version newer than all activated ones; before it enters it may be the active one. */
  ghost predicate AheadOfActive(history: seq<string>, c: Cache.World, t: Cache.Thread) {
    forall u :: u in c.published ==>
      || Precedes(history, u, t.version)
      || (t.pc.Entering? && u == t.version && Cache.ActiveVersion(c.cache.active) == Some(u))
  }

  ghost predicate SerialInv(history: seq<string>, c: Cache.World) {
    && Forward(history, c.published)
    && (forall i, j :: 0 <= i < j < |c.threads| ==> c.threads[i].pc.Returned? || c.threads[j].pc.Returned?)
    && (forall i :: 0 <= i < |c.threads| && !c.threads[i].pc.Returned? ==> AheadOfActive(history, c, c.threads[i]))
  }

  lemma PrecedesLater(history: seq<string>, v: string, u: string, t: string)
    requires Precedes(history, u, t)
    ensures Precedes(history + [v], u, t)
  {
    var i, j :| 0 <= i < j < |history| && history[i] == u && history[j] == t;
    assert (history + [v])[i] == u && (history + [v])[j] == t;
  }

  lemma HistoryGrows(history: seq<string>, v: string, c: Cache.World)
    requires SerialInv(history, c)
    ensures SerialInv(history + [v], c)
  {
    forall u, t | Precedes(history, u, t) ensures Precedes(history + [v], u, t) {
      PrecedesLater(history, v, u, t);
    }
  }

  /** The active version is the newest: every published one precedes it or is it. */
  lemma PointerIsNewest(w: World, u: string)
    requires HistoryInv(w) && w.db.pointer.Some? && u in w.db.releases
    ensures u == w.db.pointer.value || Precedes(w.history, u, w.db.pointer.value)
  {
    assert u in w.history;
    var i :| 0 <= i < |w.history| && w.history[i] == u;
    if i < |w.history| - 1 { assert Precedes(w.history, u, w.history[|w.history| - 1]); }
  }

  lemma NothingAfterNewest(history: seq<string>, v: string)
    requires Distinct(history) && history != [] && history[|history| - 1] == v
    ensures forall u :: !Precedes(history, v, u)
  {
    forall i | 0 <= i < |history| - 1 ensures history[i] != v {
      assert history[|history| - 1] == v;
    }
  }

  lemma CallKeepsSerial(lang: Language, w: World, v: string)
    requires HistoryInv(w) && Cache.CountInv(w.cache) && SerialInv(w.history, w.cache) && Idle(w)
    requires forall u :: u in w.cache.published ==> u in w.db.releases
    requires w.db.pointer == Some(v)
    ensures SerialInv(w.history, Cache.Step(w.cache, Cache.CallRefresh(v)))
  {
    var c := w.cache;
    var published := c.published;
    NothingAfterNewest(w.history, v);
    forall u | u in published
      ensures Precedes(w.history, u, v) || (u == v && Cache.ActiveVersion(c.cache.active) == Some(u))
    {
      PointerIsNewest(w, u);
      if u == v {
        var k :| 0 <= k < |published| && published[k] == u;
        assert k == |published| - 1;
      }
    }
  }

  /** Before the first refresh nothing has been activated. */
  lemma FirstCallKeepsSerial(history: seq<string>, c: Cache.World, v: string)
    requires c.threads == [] && Cache.CountInv(c)
    ensures SerialInv(history, Cache.Step(c, Cache.CallRefresh(v)))
  {
  }

  /** One thread moves without activating anything. */
  lemma QuietKeepsSerial(history: seq<string>, c: Cache.World, d: Cache.World, i: nat, pc: Cache.Pc)
    requires SerialInv(history, c) && i < |c.threads| && !c.threads[i].pc.Returned?
    requires d.threads == c.threads[i := c.threads[i].(pc := pc)] && d.published == c.published
    requires d.cache.active == c.cache.active && !pc.Entering?
    requires pc.Returned? || !c.threads[i].pc.Entering? || Cache.ActiveVersion(c.cache.active) != Some(c.threads[i].version)
    ensures SerialInv(history, d)
  {
    assert AheadOfActive(history, c, c.threads[i]);
  }

  lemma ActivateKeepsSerial(history: seq<string>, c: Cache.World, d: Cache.World, i: nat, pc: Cache.Pc)
    requires SerialInv(history, c) && i < |c.threads| && c.threads[i].pc.Publishing? && pc.Returned?
    requires d.threads == c.threads[i := c.threads[i].(pc := pc)]
    requires d.published == c.published || d.published == c.published + [c.threads[i].version]
    ensures SerialInv(history, d)
  {
    assert AheadOfActive(history, c, c.threads[i]);
    forall k, l | 0 <= k < l < |d.published| ensures Precedes(history, d.published[k], d.published[l]) {
      if l == |c.published| { assert c.published[k] in c.published; }
    }
  }

  lemma CacheStepKeepsSerial(history: seq<string>, c: Cache.World, a: Cache.Action)
    requires SerialInv(history, c) && Cache.Enabled(c, a) && !a.CallRefresh?
    ensures SerialInv(history, Cache.Step(c, a))
  {
    var d := Cache.Step(c, a);
    match a
    case SourceError(_) =>
    case EnterLock(i) => QuietKeepsSerial(history, c, d, i, d.threads[i].pc);
    case LoadReturns(i, _) => QuietKeepsSerial(history, c, d, i, d.threads[i].pc);
    case Publish(i) => ActivateKeepsSerial(history, c, d, i, d.threads[i].pc);
    case WakeUp(i) => QuietKeepsSerial(history, c, d, i, d.threads[i].pc);
  }

  lemma StepKeepsSerial(lang: Language, w: World, a: Action)
    requires Inv(lang, w) && SerialInv(w.history, w.cache)
    requires (a.ReadPointer? ==> Idle(w)) && (a.RefreshConfigured? ==> w.cache.threads == [])
    ensures SerialInv(Step(lang, w, a).history, Step(lang, w, a).cache)
  {
    hide SerialInv, Publication.Publish, Publication.DbInv;
    match a
    case PublishCatalog(payload, sha) =>
      var result := Publication.Publish(lang, w.db, payload, sha).1;
      if result.Some? { HistoryGrows(w.history, result.value.version, w.cache); }
    case RefreshConfigured(v) => FirstCallKeepsSerial(w.history, w.cache, v);
    case ReadPointer =>
      if w.db.pointer.Some? {
        CallKeepsSerial(lang, w, w.db.pointer.value);
      } else {
        CacheStepKeepsSerial(w.history, w.cache, CacheAction(lang, w, a).value);
      }
    case _ =>
      var c := CacheAction(lang, w, a);
      if c.Some? && Cache.Enabled(w.cache, c.value) { CacheStepKeepsSerial(w.history, w.cache, c.value); }
  }

  lemma {:induction false} SerialRuns(lang: Language, actions: seq<Action>)
    requires OneRefresher(lang, actions)
    ensures SerialInv(Execute(lang, actions).history, Execute(lang, actions).cache)
    decreases |actions|
  {
    if actions != [] {
      var init, a := actions[..|actions| - 1], actions[|actions| - 1];
      SerialRuns(lang, init);
      ReachableInv(lang, init);
      StepKeepsSerial(lang, Execute(lang, init), a);
    }
  }

  /** With one refresher the activated versions follow the publication order, without repetition. */
  lemma OneRefresherMovesForward(lang: Language, actions: seq<Action>, k: nat, l: nat)
    requires OneRefresher(lang, actions) && k < l < |Execute(lang, actions).cache.published|
    ensures var w := Execute(lang, actions); Precedes(w.history, w.cache.published[k], w.cache.published[l])
  {
    SerialRuns(lang, actions);
  }

  // ---------------------------------------------------------------- two refreshers may go back

  /** The first refresher stalls in the loader while a newer version is published, loaded and activated by the second. */
  function BackwardRun(first: Document, firstSha: string, second: Document, secondSha: string): seq<Action> {
    [PublishCatalog(first, firstSha), ReadPointer, CacheStep(Cache.EnterLock(0)),
     PublishCatalog(second, secondSha), ReadPointer, CacheStep(Cache.EnterLock(1)),
     Load(1, None), CacheStep(Cache.Publish(1)), Load(0, None), CacheStep(Cache.Publish(0))]
  }

  lemma ExecutePrefix(lang: Language, actions: seq<Action>, n: nat)
    requires n < |actions|
    ensures Execute(lang, actions[..n + 1]) == Step(lang, Execute(lang, actions[..n]), actions[n])
  {
    assert actions[..n + 1][..n] == actions[..n];
  }

  lemma StartsEmpty(lang: Language, actions: seq<Action>)
    requires actions == []
    ensures Execute(lang, actions) == Start
  {
  }

  /** A publication that succeeds, in the terms of a load. */
  lemma PublishAndLoad(lang: Language, db: Publication.Db, payload: Document, sha: string)
    requires Publication.DbInv(lang, db) && ValidDocument(lang, payload) && PublicationProofs.Insertable(lang, payload)
    requires Publication.Trimmed(lang, payload).version !in db.releases
    ensures var doc := Publication.Trimmed(lang, payload);
      var (next, result) := Publication.Publish(lang, db, payload, sha);
      && result.Some? && result.value.version == doc.version
      && Publication.DbInv(lang, next) && next.pointer == Some(doc.version)
      && next.releases.Keys == db.releases.Keys + {doc.version}
      && Publication.LoadFrom(lang, next, doc.version) == Some(BundleOf(lang, doc))
      && (forall v :: v in db.releases ==> Publication.LoadFrom(lang, next, v) == Publication.LoadFrom(lang, db, v))
  {
    hide ValidDocument, Publication.Publish, Publication.RowSet, PublicationProofs.Insertable;
    var next := Publication.Publish(lang, db, payload, sha).0;
    PublicationProofs.PublishOutcome(lang, db, payload, sha);
    PublishEffect(lang, db, payload, sha);
    forall v | v in db.releases ensures Publication.LoadFrom(lang, next, v) == Publication.LoadFrom(lang, db, v) {
      assert v in next.releases;
    }
  }

  /** The world once the first refresher is in the loader for version v. */
  function FirstLoading(db: Publication.Db, v: string): World {
    World(db,
          Cache.World(Cache.EmptyCache.(loading := map[v := 0], nextEvent := 1), [Cache.Thread(v, Cache.Loading(0))], []),
          [v])
  }

  lemma FirstHalf(lang: Language, payload: Document, sha: string, actions: seq<Action>)
    requires ValidDocument(lang, payload) && PublicationProofs.Insertable(lang, payload)
    requires |actions| >= 3 && actions[..3] == [PublishCatalog(payload, sha), ReadPointer, CacheStep(Cache.EnterLock(0))]
    ensures var (db, _) := Publication.Publish(lang, Publication.EmptyDb, payload, sha);
      Execute(lang, actions[..3]) == FirstLoading(db, Publication.Trimmed(lang, payload).version)
  {
    hide Publication.Publish, Publication.DbInv, ValidDocument, Publication.LoadFrom, PublicationProofs.Insertable, Execute;
    var (db, _) := Publication.Publish(lang, Publication.EmptyDb, payload, sha);
    PublicationProofs.RunsKeepInv(lang, []);
    PublishAndLoad(lang, Publication.EmptyDb, payload, sha);
    assert actions[0] == actions[..3][0] && actions[1] == actions[..3][1] && actions[2] == actions[..3][2];
    ExecutePrefix(lang, actions, 0);
    ExecutePrefix(lang, actions, 1);
    ExecutePrefix(lang, actions, 2);
    assert Execute(lang, actions[..0]) == Start by { StartsEmpty(lang, actions[..0]); }
    var v := Publication.Trimmed(lang, payload).version;
    assert Execute(lang, actions[..1]) == World(db, Cache.Start, [v]);
    assert Execute(lang, actions[..2]) == World(db, Cache.Step(Cache.Start, Cache.CallRefresh(v)), [v]);
  }

  /** What the second refresher and then the first do to the cache. */
  lemma SecondHalf(c: Cache.World, older: Bundle, newer: Bundle)
    requires older.version != newer.version
    requires c == FirstLoading(Publication.EmptyDb, older.version).cache
    ensures var d := Cache.Step(Cache.Step(c, Cache.CallRefresh(newer.version)), Cache.EnterLock(1));
      d.threads == [Cache.Thread(older.version, Cache.Loading(0)), Cache.Thread(newer.version, Cache.Loading(1))] &&
      var e := Cache.Step(Cache.Step(d, Cache.LoadReturns(1, Cache.Fetched(newer))), Cache.Publish(1));
      && |e.threads| == 2 && e.threads[0] == Cache.Thread(older.version, Cache.Loading(0)) && e.published == [newer.version]
      && e.cache.active == Some(newer)
      && var f := Cache.Step(Cache.Step(e, Cache.LoadReturns(0, Cache.Fetched(older))), Cache.Publish(0));
         f.published == [newer.version, older.version] && f.cache.active == Some(older)
  {
    var b := Cache.Step(c, Cache.CallRefresh(newer.version));
    assert b.threads == [Cache.Thread(older.version, Cache.Loading(0)), Cache.Thread(newer.version, Cache.Entering)];
  }

  /**
   * With two refreshers there is no order: of any two publishable catalogs with different versions the
   * older one may be activated last, although it was superseded before the newer one was even read.
   */
  lemma TwoRefreshersMayGoBack(lang: Language, first: Document, firstSha: string, second: Document, secondSha: string)
    requires ValidDocument(lang, first) && PublicationProofs.Insertable(lang, first)
    requires ValidDocument(lang, second) && PublicationProofs.Insertable(lang, second)
    requires Publication.Trimmed(lang, first).version != Publication.Trimmed(lang, second).version
    ensures var u, v := Publication.Trimmed(lang, first).version, Publication.Trimmed(lang, second).version;
      var w := Execute(lang, BackwardRun(first, firstSha, second, secondSha));
      && w.history == [u, v] && w.db.pointer == Some(v)
      && w.cache.published == [v, u]
      && w.cache.cache.active == Some(BundleOf(lang, Publication.Trimmed(lang, first)))
  {
    hide Publication.Publish, Publication.DbInv, ValidDocument, PublicationProofs.Insertable, Publication.LoadFrom, Cache.Step, Execute;
    var actions := BackwardRun(first, firstSha, second, secondSha);
    var older, newer := BundleOf(lang, Publication.Trimmed(lang, first)), BundleOf(lang, Publication.Trimmed(lang, second));
    var u, v := older.version, newer.version;
    var db1 := Publication.Publish(lang, Publication.EmptyDb, first, firstSha).0;
    var db2 := Publication.Publish(lang, db1, second, secondSha).0;
    PublicationProofs.RunsKeepInv(lang, []);
    PublishAndLoad(lang, Publication.EmptyDb, first, firstSha);
    PublishAndLoad(lang, db1, second, secondSha);
    FirstHalf(lang, first, firstSha, actions);
    var c := FirstLoading(db1, u).cache;
    SecondHalf(c, older, newer);
    ExecutePrefix(lang, actions, 3);
    assert Execute(lang, actions[..4]) == World(db2, c, [u, v]);
    ExecutePrefix(lang, actions, 4);
    ExecutePrefix(lang, actions, 5);
    var d := Cache.Step(Cache.Step(c, Cache.CallRefresh(v)), Cache.EnterLock(1));
    assert Execute(lang, actions[..6]) == World(db2, d, [u, v]);
    ExecutePrefix(lang, actions, 6);
    ExecutePrefix(lang, actions, 7);
    var e := Cache.Step(Cache.Step(d, Cache.LoadReturns(1, Cache.Fetched(newer))), Cache.Publish(1));
    assert Execute(lang, actions[..8]) == World(db2, e, [u, v]);
    ExecutePrefix(lang, actions, 8);
    ExecutePrefix(lang, actions, 9);
    assert actions[..10] == actions;
  }
}
