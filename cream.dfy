/** cream/__init__.py: the Module base class, which claims the application's
    unique identity, runs the main loop and tears the component down. */
module Cream {
  import opened Trace
  import opened Features

  datatype Exception = SystemError | KeyboardInterrupt | AttributeError | OtherException(name: string)

  /** How `mainloop.run()` ends. */
  datatype LoopOutcome = Returned | Raised(error: Exception)

  /** The exceptions `main` turns into a graceful shutdown. */
  predicate Caught(outcome: LoopOutcome)
  {
    outcome.Raised? && (outcome.error == SystemError || outcome.error == KeyboardInterrupt)
  }

  /** The finalizer-relevant state of each feature, in list order. */
  ghost function Views(fs: seq<Feature>): seq<FeatureView>
    reads fs
  {
    seq(|fs|, k requires 0 <= k < |fs| reads fs => fs[k].View())
  }

  // ---------------------------------------------------------------------
  // What each routine appends to the log

  /** The finalize loop of `quit` over features with these views. */
  function FinalizeEvents(vs: seq<FeatureView>): seq<Event>
  {
    if vs == [] then []
    else FinalizeEvents(vs[..|vs| - 1]) + [Finalize(|vs| - 1)] + FinalizeHook(vs[|vs| - 1])
  }

  /** `quit`: release the identity, finalize, stop the loop (when there is
      one: without it `self._mainloop` raises). */
  function QuitEvents(vs: seq<FeatureView>, hasMainloop: bool): seq<Event>
  {
    [ReleaseIdentity] + FinalizeEvents(vs) + (if hasMainloop then [StopLoop] else [])
  }

  /** `main`: threads when asked, run the loop, and quit when the run ends
      with SystemError or KeyboardInterrupt. */
  function MainEvents(enableThreads: bool, outcome: LoopOutcome, vs: seq<FeatureView>): seq<Event>
  {
    (if enableThreads then [ThreadsInit] else []) + [RunLoop] +
    (if Caught(outcome) then QuitEvents(vs, true) else [])
  }

  /** How many of the features save when finalized. */
  function Autosaving(vs: seq<FeatureView>): nat
  {
    if vs == [] then 0
    else Autosaving(vs[..|vs| - 1]) + (if vs[|vs| - 1].cls == ConfigurationFeature && vs[|vs| - 1].autosave then 1 else 0)
  }

  /** Finalize events occur in strictly increasing index order. */
  predicate FinalizeOrdered(r: seq<Event>)
  {
    forall p, q :: 0 <= p < q < |r| && r[p].Finalize? && r[q].Finalize? ==> r[p].index < r[q].index
  }

  // ---------------------------------------------------------------------
  // Properties of the finalize loop

  /** The loop only finalizes features of the list and saves. */
  lemma {:induction false} FinalizeEventsKinds(vs: seq<FeatureView>)
    ensures forall e :: e in FinalizeEvents(vs) ==> (e.Finalize? && e.index < |vs|) || e == Save
  {
    if vs != [] {
      FinalizeEventsKinds(vs[..|vs| - 1]);
      FinalizeHookSaves(vs[|vs| - 1]);
    }
  }

  /** Every feature of the list is finalized exactly once. */
  lemma {:induction false} FinalizeEachOnce(vs: seq<FeatureView>)
    ensures forall i :: 0 <= i < |vs| ==> multiset(FinalizeEvents(vs))[Finalize(i)] == 1
  {
    if vs != [] {
      var n := |vs| - 1;
      var init, h := vs[..n], FinalizeHook(vs[n]);
      FinalizeEachOnce(init);
      FinalizeEventsKinds(init);
      FinalizeHookSaves(vs[n]);
      var m := multiset(FinalizeEvents(init)) + multiset([Finalize(n)]) + multiset(h);
      assert multiset(FinalizeEvents(vs)) == m;
      forall i | 0 <= i < |vs|
        ensures m[Finalize(i)] == 1
      {
        assert Finalize(i) !in h;
        if i < n {
          assert multiset([Finalize(n)])[Finalize(i)] == 0;
        } else {
          assert Finalize(i) !in FinalizeEvents(init);
        }
      }
    }
  }

  /** Features are finalized in increasing list order. */
  lemma {:induction false} FinalizeInOrder(vs: seq<FeatureView>)
    ensures FinalizeOrdered(FinalizeEvents(vs))
  {
    if vs != [] {
      var init := vs[..|vs| - 1];
      FinalizeInOrder(init);
      FinalizeEventsKinds(init);
      FinalizeHookSaves(vs[|vs| - 1]);
      var r0, h := FinalizeEvents(init), FinalizeHook(vs[|vs| - 1]);
      var r := FinalizeEvents(vs);
      assert r == r0 + [Finalize(|vs| - 1)] + h;
      forall k | |r0| < k < |r|
        ensures r[k] == Save
      {
        assert r[k] == h[k - |r0| - 1] && r[k] in h;
      }
      forall p, q | 0 <= p < q < |r| && r[p].Finalize? && r[q].Finalize?
        ensures r[p].index < r[q].index
      {
        if q < |r0| {
          assert r[p] == r0[p] && r[q] == r0[q];
          assert r0[p].Finalize? && r0[q].Finalize?;
        } else {
          assert q == |r0| && r[q] == Finalize(|vs| - 1);
          assert r[p] == r0[p] && r[p] in r0;
        }
      }
    }
  }

  /** Exactly one Save per autosaving configuration feature. */
  lemma {:induction false} FinalizeSaves(vs: seq<FeatureView>)
    ensures multiset(FinalizeEvents(vs))[Save] == Autosaving(vs)
  {
    if vs != [] {
      FinalizeSaves(vs[..|vs| - 1]);
    }
  }

  // ---------------------------------------------------------------------
  // Properties of quit and main

  /** The identity is released once, first, before any finalizer. */
  lemma QuitReleasesFirst(vs: seq<FeatureView>, hasMainloop: bool)
    ensures var r := QuitEvents(vs, hasMainloop);
      r[0] == ReleaseIdentity && multiset(r)[ReleaseIdentity] == 1 &&
      forall k :: 0 <= k < |r| && r[k].Finalize? ==> 0 < k
  {
    var f := FinalizeEvents(vs);
    var tail: seq<Event> := if hasMainloop then [StopLoop] else [];
    FinalizeEventsKinds(vs);
    assert ReleaseIdentity !in f && ReleaseIdentity !in tail;
    assert multiset(QuitEvents(vs, hasMainloop)) == multiset([ReleaseIdentity]) + multiset(f) + multiset(tail);
  }

  /** Every feature index is finalized exactly once, and no other index is. */
  lemma QuitFinalizesEachOnce(vs: seq<FeatureView>, hasMainloop: bool)
    ensures var r := QuitEvents(vs, hasMainloop);
      (forall i :: 0 <= i < |vs| ==> multiset(r)[Finalize(i)] == 1) &&
      (forall e :: e in r && e.Finalize? ==> e.index < |vs|)
  {
    var f := FinalizeEvents(vs);
    var tail: seq<Event> := if hasMainloop then [StopLoop] else [];
    FinalizeEachOnce(vs);
    FinalizeEventsKinds(vs);
    assert multiset(QuitEvents(vs, hasMainloop)) == multiset([ReleaseIdentity]) + multiset(f) + multiset(tail);
  }

  /** `quit` finalizes in increasing list order. */
  lemma QuitFinalizesInOrder(vs: seq<FeatureView>, hasMainloop: bool)
    ensures FinalizeOrdered(QuitEvents(vs, hasMainloop))
  {
    var f := FinalizeEvents(vs);
    var r := QuitEvents(vs, hasMainloop);
    FinalizeEventsKinds(vs);
    FinalizeInOrder(vs);
    forall k | 0 < k <= |f|
      ensures r[k] == f[k - 1]
    {
    }
    forall k | |f| < k < |r|
      ensures r[k] == StopLoop
    {
    }
    forall p, q | 0 <= p < q < |r| && r[p].Finalize? && r[q].Finalize?
      ensures r[p].index < r[q].index
    {
      assert 0 < p && q <= |f|;
      assert 0 <= p - 1 < q - 1 < |f| && f[p - 1].Finalize? && f[q - 1].Finalize?;
    }
  }

  /** With a main loop, stopping it is the last event of `quit` and happens
      once, after every finalizer; without one it never happens. */
  lemma QuitStopsLast(vs: seq<FeatureView>, hasMainloop: bool)
    ensures var r := QuitEvents(vs, hasMainloop);
      (StopLoop in r <==> hasMainloop) &&
      (hasMainloop ==>
        r[|r| - 1] == StopLoop && multiset(r)[StopLoop] == 1 &&
        forall k :: 0 <= k < |r| && r[k].Finalize? ==> k < |r| - 1)
  {
    var f := FinalizeEvents(vs);
    var tail: seq<Event> := if hasMainloop then [StopLoop] else [];
    FinalizeEventsKinds(vs);
    assert StopLoop !in f;
    assert multiset(QuitEvents(vs, hasMainloop)) == multiset([ReleaseIdentity]) + multiset(f) + multiset(tail);
  }

  /** Each autosaving configuration feature saves once during `quit`. */
  lemma {:induction false} QuitSaves(vs: seq<FeatureView>, hasMainloop: bool)
    ensures multiset(QuitEvents(vs, hasMainloop))[Save] == Autosaving(vs)
  {
    FinalizeSaves(vs);
  }

  /** `main` initialises threads if and only if it is asked to. */
  lemma MainThreads(enableThreads: bool, outcome: LoopOutcome, vs: seq<FeatureView>)
    ensures ThreadsInit in MainEvents(enableThreads, outcome, vs) <==> enableThreads
  {
    FinalizeEventsKinds(vs);
  }

  /** `main` runs `quit` exactly when the loop ends with SystemError or
      KeyboardInterrupt, and then once. */
  lemma MainQuitsOnInterrupt(enableThreads: bool, outcome: LoopOutcome, vs: seq<FeatureView>)
    ensures multiset(MainEvents(enableThreads, outcome, vs))[ReleaseIdentity] == if Caught(outcome) then 1 else 0
  {
    var head: seq<Event> := (if enableThreads then [ThreadsInit] else []) + [RunLoop];
    assert multiset(head)[ReleaseIdentity] == 0;
    if Caught(outcome) {
      var q := QuitEvents(vs, true);
      assert MainEvents(enableThreads, outcome, vs) == head + q;
      QuitReleasesFirst(vs, true);
      assert multiset(head + q) == multiset(head) + multiset(q);
    } else {
      assert MainEvents(enableThreads, outcome, vs) == head;
    }
  }

  /** `main` stops the loop exactly when it quits. */
  lemma MainStopsOnInterrupt(enableThreads: bool, outcome: LoopOutcome, vs: seq<FeatureView>)
    ensures StopLoop in MainEvents(enableThreads, outcome, vs) <==> Caught(outcome)
  {
    var head: seq<Event> := (if enableThreads then [ThreadsInit] else []) + [RunLoop];
    assert StopLoop !in head;
    if Caught(outcome) {
      assert MainEvents(enableThreads, outcome, vs) == head + QuitEvents(vs, true);
      QuitStopsLast(vs, true);
    } else {
      assert MainEvents(enableThreads, outcome, vs) == head;
    }
  }

  // ---------------------------------------------------------------------
  // State

  /** The loop of `quit`: call `__finalize__` on each feature in list order. */
  method FinalizeFeatures(log: Log, fs: seq<Feature>)
    modifies log
    ensures log.events == old(log.events) + FinalizeEvents(Views(fs))
  {
    ghost var vs := Views(fs);
    for i := 0 to |fs|
      invariant log.events == old(log.events) + FinalizeEvents(vs[..i])
    {
      assert vs[..i + 1][..i] == vs[..i];
      log.events := log.events + [Finalize(i)];
      fs[i].Finalize(log);
    }
    assert vs[..|fs|] == vs;
  }

  class Module {
    /** The Component part of the module (cream/base.py is not part of this model). */
    const component: Component
    /** `manifest['id']`, the unique identity claimed at construction. */
    const id: string
    /** Whether `main` has assigned `self._mainloop`. */
    var hasMainloop: bool

    /** Module.__init__: initialise the component (which attaches
        `features` and, through their constructors, sets `config` and
        `hotkeys`), then claim the unique identity. */
    constructor (log: Log, id: string, workingDirectory: string, features: seq<Feature>,
                 config: Option<Configuration>, hotkeys: Feature?)
      modifies log
      ensures fresh(component) && component.workingDirectory == workingDirectory
      ensures component.features == features && component.config == config && component.hotkeys == hotkeys
      ensures this.id == id && !hasMainloop
      ensures log.events == old(log.events) + [InitComponent, ClaimIdentity(id)]
    {
      component := new Component(workingDirectory, features, config, hotkeys);
      this.id := id;
      hasMainloop := false;
      new;
      log.events := log.events + [InitComponent];
      log.events := log.events + [ClaimIdentity(id)];
    }

    /** Module.main (named Run here). An exception other than the two it catches escapes. */
    method Run(log: Log, enableThreads: bool, outcome: LoopOutcome) returns (escaped: Option<Exception>)
      modifies this`hasMainloop, log
      ensures hasMainloop
      ensures log.events == old(log.events) + MainEvents(enableThreads, outcome, Views(component.features))
      ensures escaped == if outcome.Raised? && !Caught(outcome) then Some(outcome.error) else None
    {
      if enableThreads {
        log.events := log.events + [ThreadsInit];
      }
      hasMainloop := true;
      log.events := log.events + [RunLoop];
      if Caught(outcome) {
        escaped := Quit(log);
      } else if outcome.Raised? {
        escaped := Some(outcome.error);
      } else {
        escaped := None;
      }
    }

    /** Module.quit: release the identity, finalize every feature in list
        order, stop the main loop. */
    method Quit(log: Log) returns (raised: Option<Exception>)
      modifies log
      ensures raised == if hasMainloop then None else Some(AttributeError)
      ensures log.events == old(log.events) + QuitEvents(Views(component.features), hasMainloop)
      ensures component.features == old(component.features)
    {
      log.events := log.events + [ReleaseIdentity];
      FinalizeFeatures(log, component.features);
      if hasMainloop {
        log.events := log.events + [StopLoop];
        raised := None;
      } else {
        raised := Some(AttributeError);
      }
    }
  }
}
