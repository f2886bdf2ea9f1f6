/** The whole service: sessions and turns on one side, publisher and catalog cache on the other, all interleaved. */
module FullSystem {
  import opened Prelude
  import opened Catalog
  import opened CatalogBundle
  import opened DialogueProofs
  import opened Dialogue
  import opened Payload
  import opened ResponseReading
  import opened StateStore
  import Publication
  import PublicationProofs
  import Refresh = CatalogRefresh
  import Turns = TurnProtocol
  import TurnTheorems

  datatype World = World(turns: Turns.World, catalog: Refresh.World)

  datatype Action = CatalogAction(c: Refresh.Action) | TurnAction(t: Turns.Action)

  const Start: World := World(Turns.EmptyWorld, Refresh.Start)

  const AnyInput: Turns.Inputs := (input: EngineInput) => true

  /** The engine works on the bundle the cache serves at that moment, whatever the planner and the texts are. */
  predicate Served(w: World, t: Turns.Action) {
    t.RunEngine? ==> w.catalog.cache.cache.active == Some(t.input.bundle)
  }

  ghost function Step(lang: Language, w: World, a: Action): World {
    match a
    case CatalogAction(c) => w.(catalog := Refresh.Step(lang, w.catalog, c))
    case TurnAction(t) => if Served(w, t) then w.(turns := Turns.Step(AnyInput, w.turns, t)) else w
  }

  ghost function Execute(lang: Language, actions: seq<Action>): World {
    if actions == [] then Start
    else Step(lang, Execute(lang, actions[..|actions| - 1]), actions[|actions| - 1])
  }

  // ---------------------------------------------------------------- the two halves of a run

  function CatalogPart(actions: seq<Action>): seq<Refresh.Action> {
    if actions == [] then []
    else
      var a := actions[|actions| - 1];
      CatalogPart(actions[..|actions| - 1]) + if a.CatalogAction? then [a.c] else []
  }

  ghost function TurnPart(lang: Language, actions: seq<Action>): seq<Turns.Action> {
    if actions == [] then []
    else
      var init, a := actions[..|actions| - 1], actions[|actions| - 1];
      TurnPart(lang, init) + if a.TurnAction? && Served(Execute(lang, init), a.t) then [a.t] else []
  }

  /** Engine inputs whose catalog is a release of the database. */
  ghost function ReleasedInputs(lang: Language, db: Publication.Db): Turns.Inputs {
    (input: EngineInput) => Refresh.FromRelease(lang, db, input.bundle)
  }

  lemma {:induction false} CatalogRuns(lang: Language, actions: seq<Action>)
    ensures Execute(lang, actions).catalog == Refresh.Execute(lang, CatalogPart(actions))
    decreases |actions|
  {
    hide Refresh.Step, Turns.Step;
    if actions != [] {
      var init, a := actions[..|actions| - 1], actions[|actions| - 1];
      CatalogRuns(lang, init);
      if a.CatalogAction? {
        var part := CatalogPart(actions);
        assert part[..|part| - 1] == CatalogPart(init) && part[|part| - 1] == a.c;
      } else {
        assert CatalogPart(actions) == CatalogPart(init);
      }
    }
  }

  /** An input with the served bundle is one with a released bundle, so the turn protocol takes the same step. */
  lemma SameStep(lang: Language, w: World, t: Turns.Action, db: Publication.Db)
    requires w.catalog.cache.cache.active.Some? ==> Refresh.FromRelease(lang, db, w.catalog.cache.cache.active.value)
    requires Served(w, t)
    ensures Turns.Step(AnyInput, w.turns, t) == Turns.Step(ReleasedInputs(lang, db), w.turns, t)
  {
    hide Refresh.FromRelease, Run, Package, Committed, GoodInput;
    if t.RunEngine? { assert ReleasedInputs(lang, db)(t.input); }
  }

  /**
   * The whole system refines the turn protocol: its turns are those of a protocol run whose engine
   * inputs all carry releases of the database.
   */
  lemma {:induction false} TurnRuns(lang: Language, actions: seq<Action>, db: Publication.Db)
    requires PublicationProofs.Later(Execute(lang, actions).catalog.db, db)
    ensures Execute(lang, actions).turns == Turns.Execute(ReleasedInputs(lang, db), TurnPart(lang, actions))
    decreases |actions|
  {
    hide Refresh.Step, Turns.Step, PublicationProofs.Later, Refresh.FromRelease;
    if actions != [] {
      var init, a := actions[..|actions| - 1], actions[|actions| - 1];
      var w := Execute(lang, init);
      InitLater(lang, actions, db);
      TurnRuns(lang, init, db);
      if a.TurnAction? && Served(w, a.t) {
        ActiveReleased(lang, init, db);
        SameStep(lang, w, a.t, db);
        var part := TurnPart(lang, actions);
        assert part[..|part| - 1] == TurnPart(lang, init) && part[|part| - 1] == a.t;
      } else {
        assert TurnPart(lang, actions) == TurnPart(lang, init);
      }
    }
  }

  lemma InitLater(lang: Language, actions: seq<Action>, db: Publication.Db)
    requires actions != [] && PublicationProofs.Later(Execute(lang, actions).catalog.db, db)
    ensures PublicationProofs.Later(Execute(lang, actions[..|actions| - 1]).catalog.db, db)
  {
    hide Refresh.Step, Turns.Step, Refresh.Execute;
    var init, a := actions[..|actions| - 1], actions[|actions| - 1];
    if a.CatalogAction? {
      CatalogRuns(lang, init);
      Refresh.DbLater(lang, CatalogPart(init), a.c);
    }
  }

  /** The bundle being served is a release of the database, and of every later one. */
  lemma ActiveReleased(lang: Language, actions: seq<Action>, db: Publication.Db)
    requires PublicationProofs.Later(Execute(lang, actions).catalog.db, db)
    ensures var active := Execute(lang, actions).catalog.cache.cache.active;
      active.Some? ==> Refresh.FromRelease(lang, db, active.value)
  {
    hide Execute, Refresh.Execute;
    CatalogRuns(lang, actions);
    if Execute(lang, actions).catalog.cache.cache.active.Some? {
      Refresh.ServedBundleIsPublished(lang, CatalogPart(actions));
    }
  }

  lemma OnlyReleases(lang: Language, actions: seq<Action>)
    ensures var w := Execute(lang, actions);
      && TurnTheorems.OnlyValidCatalogs(ReleasedInputs(lang, w.catalog.db))
      && w.turns == Turns.Execute(ReleasedInputs(lang, w.catalog.db), TurnPart(lang, actions))
  {
    hide Execute, Refresh.Execute, Turns.Execute, ValidBundle;
    var db := Execute(lang, actions).catalog.db;
    CatalogRuns(lang, actions);
    Refresh.ReachableInv(lang, CatalogPart(actions));
    TurnRuns(lang, actions, db);
    forall input | ReleasedInputs(lang, db)(input) ensures ValidBundle(input.bundle) {
      ValidBundleOf(lang, db.releases[input.bundle.version].document);
    }
  }

  // ---------------------------------------------------------------- what the service guarantees

  /** In every run of the whole system, every stored session state satisfies the dialogue invariant. */
  lemma SessionsStayCoherent(lang: Language, actions: seq<Action>, sid: string)
    requires sid in Execute(lang, actions).turns.store.sessions
    ensures var s := TurnTheorems.CurrentState(Execute(lang, actions).turns.store, sid); s.Some? && Coherent(s.value)
  {
    hide Execute, Turns.Execute;
    OnlyReleases(lang, actions);
    TurnTheorems.DialogueInvariant(ReleasedInputs(lang, Execute(lang, actions).catalog.db), TurnPart(lang, actions), sid);
  }

  /** The version beside the turn is a release, and the response reports only what the document of that release holds. */
  ghost predicate AnsweredFromRelease(lang: Language, db: Publication.Db, t: StoredTurn) {
    t.catalogVersion in db.releases && GroundedResponse(BundleOf(lang, db.releases[t.catalogVersion].document), t.response)
  }

  /**
   * Whatever was published, refreshed, retried or lost in between: every response ever stored reports
   * only identifiers of the published document whose version is recorded beside it.
   */
  lemma AnswersComeFromReleases(lang: Language, actions: seq<Action>, k: nat)
    requires k < |Execute(lang, actions).turns.store.turns|
    ensures var w := Execute(lang, actions); AnsweredFromRelease(lang, w.catalog.db, w.turns.store.turns[k])
  {
    hide Execute, Turns.Execute, ValidBundle, GroundedResponse, GoodInput;
    OnlyReleases(lang, actions);
    var w := Execute(lang, actions);
    var inputs := ReleasedInputs(lang, w.catalog.db);
    TurnTheorems.StoredAnswersGrounded(inputs, TurnPart(lang, actions), k);
    var t := w.turns.store.turns[k];
    var input :| GoodInput(input) && inputs(input) && ValidBundle(input.bundle) && TurnTheorems.GroundedIn(input, t);
    assert Refresh.FromRelease(lang, w.catalog.db, input.bundle);
  }
}
