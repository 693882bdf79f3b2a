/** What callers of the chart cache get (internal/charts/charts.go). */
module ChartAnswers {
  // Told from the actions of a run and the clock: when a unit is fetched again, and what is kept
  // of what was found. Nothing here is said in terms of what the cache holds.

  import opened Options
  import opened Charts

  // ---------------------------------------------------------------------------
  // What happened to a unit
  // ---------------------------------------------------------------------------

  predicate Ordered(ws: seq<World>, acts: seq<Action>) {
    |ws| == |acts| + 1
  }

  /** A leader of this unit completes at step k. */
  predicate Lands(ws: seq<World>, acts: seq<Action>, k: nat, u: Key)
    requires Ordered(ws, acts) && k < |acts|
  {
    acts[k].Complete? && acts[k].flight in ws[k].leaders && ws[k].leaders[acts[k].flight] == u
  }

  /** The unit is seeded from disk at step k; only indexes are. */
  predicate IsSeeded(acts: seq<Action>, k: nat, u: Key)
    requires k < |acts|
  {
    acts[k].Seed? && u == Key(acts[k].repo, "")
  }

  /** What is known of the unit is as of this moment: its fetch succeeds, or it is seeded. */
  predicate LearntAt(ws: seq<World>, acts: seq<Action>, k: nat, u: Key, at: Time)
    requires Ordered(ws, acts) && k < |acts|
  {
    (Lands(ws, acts, k, u) && acts[k].err.None? && at == ws[k + 1].clock) || (IsSeeded(acts, k, u) && at == acts[k].at)
  }

  predicate Learns(ws: seq<World>, acts: seq<Action>, k: nat, u: Key)
    requires Ordered(ws, acts) && k < |acts|
  {
    (Lands(ws, acts, k, u) && acts[k].err.None?) || IsSeeded(acts, k, u)
  }

  predicate FailsAt(ws: seq<World>, acts: seq<Action>, k: nat, u: Key, err: string)
    requires Ordered(ws, acts) && k < |acts|
  {
    Lands(ws, acts, k, u) && acts[k].err == Some(err)
  }

  predicate Drops(acts: seq<Action>, k: nat, u: Key)
    requires k < |acts|
  {
    acts[k].Complete? && u in acts[k].gone
  }

  /** At step j the unit was last learnt at step i, and not dropped since. */
  predicate KnownSince(ws: seq<World>, acts: seq<Action>, i: nat, j: nat, u: Key, at: Time)
    requires Ordered(ws, acts) && j <= |acts|
  {
    i < j && LearntAt(ws, acts, i, u, at) && !Drops(acts, i, u) &&
    forall k: nat | i < k < j :: !Learns(ws, acts, k, u) && !Drops(acts, k, u)
  }

  /** At step j the unit last failed at step i, and was neither fetched nor dropped since. */
  predicate FailedSince(ws: seq<World>, acts: seq<Action>, i: nat, j: nat, u: Key, err: string)
    requires Ordered(ws, acts) && j <= |acts|
  {
    i < j && FailsAt(ws, acts, i, u, err) && !Drops(acts, i, u) &&
    forall k: nat | i < k < j :: !Lands(ws, acts, k, u) && !Drops(acts, k, u)
  }

  /** What is known of the unit is less than its time to live old. */
  ghost predicate KnownRecently(lim: Limits, ws: seq<World>, acts: seq<Action>, j: nat, u: Key, now: Time)
    requires Ordered(ws, acts) && j <= |acts|
  {
    exists i: nat, at: Time :: KnownSince(ws, acts, i, j, u, at) && now - at < lim.ttl
  }

  ghost predicate FailedRecently(lim: Limits, ws: seq<World>, acts: seq<Action>, j: nat, u: Key, err: string, now: Time)
    requires Ordered(ws, acts) && j <= |acts|
  {
    exists i: nat :: FailedSince(ws, acts, i, j, u, err) && now - ws[i + 1].clock < lim.failureTTL
  }

  // ---------------------------------------------------------------------------
  // One step
  // ---------------------------------------------------------------------------

  lemma StepFetched(lim: Limits, ws: seq<World>, acts: seq<Action>, j: nat, u: Key, at: Time)
    requires Run(lim, ws, acts) && j < |acts|
    ensures u in ws[j + 1].st.fetched && ws[j + 1].st.fetched[u] == at <==>
            !Drops(acts, j, u) &&
            if Learns(ws, acts, j, u) then LearntAt(ws, acts, j, u, at) else u in ws[j].st.fetched && ws[j].st.fetched[u] == at
  {
    assert Stepped(lim, ws, acts, j);
    var w, a, w' := ws[j], acts[j], ws[j + 1];
    if a.Complete? {
      var landed := Landed(w.st, w.leaders[a.flight], a.found, a.err, w'.clock);
      assert w'.st.fetched == landed.fetched - a.gone;
    }
  }

  lemma StepFailures(lim: Limits, ws: seq<World>, acts: seq<Action>, j: nat, u: Key)
    requires Run(lim, ws, acts) && j < |acts|
    ensures u in ws[j + 1].st.failures ==>
              !Drops(acts, j, u) &&
              if Lands(ws, acts, j, u) then acts[j].err.Some? && ws[j + 1].st.failures[u] == FailedFetch(acts[j].err.value, ws[j + 1].clock)
              else u in ws[j].st.failures && ws[j + 1].st.failures[u] == ws[j].st.failures[u]
    ensures !Drops(acts, j, u) && Lands(ws, acts, j, u) && acts[j].err.Some? ==> u in ws[j + 1].st.failures
    ensures (!Drops(acts, j, u) && !Lands(ws, acts, j, u) && u in ws[j].st.failures &&
             ws[j + 1].clock - ws[j].st.failures[u].at < lim.failureTTL) ==> u in ws[j + 1].st.failures
  {
    assert Stepped(lim, ws, acts, j);
    var w, a, w' := ws[j], acts[j], ws[j + 1];
    if a.Complete? {
      var landed := Landed(w.st, w.leaders[a.flight], a.found, a.err, w'.clock);
      assert w'.st.failures == landed.failures - a.gone;
    }
  }

  // ---------------------------------------------------------------------------
  // Every run
  // ---------------------------------------------------------------------------

  lemma {:induction false} FetchedIff(lim: Limits, ws: seq<World>, acts: seq<Action>, j: nat, u: Key, at: Time)
    requires Run(lim, ws, acts) && j <= |acts|
    ensures u in ws[j].st.fetched && ws[j].st.fetched[u] == at <==> exists i: nat :: KnownSince(ws, acts, i, j, u, at)
  {
    if j > 0 {
      var before := j - 1;
      FetchedIff(lim, ws, acts, before, u, at);
      StepFetched(lim, ws, acts, before, u, at);
      if !Learns(ws, acts, before, u) && !Drops(acts, before, u) {
        if i: nat :| KnownSince(ws, acts, i, before, u, at) {
          assert KnownSince(ws, acts, i, j, u, at);
        }
      }
      if LearntAt(ws, acts, before, u, at) && !Drops(acts, before, u) {
        assert KnownSince(ws, acts, before, j, u, at);
      }
      if i: nat :| KnownSince(ws, acts, i, j, u, at) {
        if i < before {
          assert KnownSince(ws, acts, i, before, u, at);
        }
      }
    }
  }

  lemma {:induction false} FailuresAreFailures(lim: Limits, ws: seq<World>, acts: seq<Action>, j: nat, u: Key)
    returns (i: nat)
    requires Run(lim, ws, acts) && j <= |acts| && u in ws[j].st.failures
    ensures FailedSince(ws, acts, i, j, u, ws[j].st.failures[u].err) && ws[j].st.failures[u].at == ws[i + 1].clock
  {
    StepFailures(lim, ws, acts, j - 1, u);
    if Lands(ws, acts, j - 1, u) {
      i := j - 1;
    } else {
      i := FailuresAreFailures(lim, ws, acts, j - 1, u);
    }
  }

  lemma {:induction false} FailuresStay(lim: Limits, ws: seq<World>, acts: seq<Action>, i: nat, j: nat, u: Key, err: string)
    requires Run(lim, ws, acts) && j <= |acts| && FailedSince(ws, acts, i, j, u, err)
    requires ws[j].clock - ws[i + 1].clock < lim.failureTTL
    ensures u in ws[j].st.failures && ws[j].st.failures[u] == FailedFetch(err, ws[i + 1].clock)
  {
    StepFailures(lim, ws, acts, j - 1, u);
    if i < j - 1 {
      RunClock(lim, ws, acts, j - 1);
      FailuresStay(lim, ws, acts, i, j - 1, u, err);
    }
  }

  lemma KnownIff(lim: Limits, ws: seq<World>, acts: seq<Action>, j: nat, u: Key, now: Time)
    requires Run(lim, ws, acts) && j <= |acts|
    ensures KnownRecently(lim, ws, acts, j, u, now) <==> u in ws[j].st.fetched && now - ws[j].st.fetched[u] < lim.ttl
  {
    if u in ws[j].st.fetched {
      FetchedIff(lim, ws, acts, j, u, ws[j].st.fetched[u]);
    }
    if i: nat, at: Time :| KnownSince(ws, acts, i, j, u, at) && now - at < lim.ttl {
      FetchedIff(lim, ws, acts, j, u, at);
    }
  }

  lemma FailedIff(lim: Limits, ws: seq<World>, acts: seq<Action>, j: nat, u: Key, err: string, now: Time)
    requires Run(lim, ws, acts) && j <= |acts| && ws[j].clock <= now
    ensures FailedRecently(lim, ws, acts, j, u, err, now) <==>
            u in ws[j].st.failures && ws[j].st.failures[u].err == err && now - ws[j].st.failures[u].at < lim.failureTTL
  {
    if u in ws[j].st.failures {
      var i := FailuresAreFailures(lim, ws, acts, j, u);
    }
    if i: nat :| FailedSince(ws, acts, i, j, u, err) && now - ws[i + 1].clock < lim.failureTTL {
      FailuresStay(lim, ws, acts, i, j, u, err);
    }
  }

  /** Exactly what a caller gets, in every run: what is known of the unit while it is less than its
      time to live old; else the error of its last fetch while that is recent; else a place behind
      the leader that is out for it; and where nobody is out, the lead. */
  lemma BeginIff(lim: Limits, ws: seq<World>, acts: seq<Action>, j: nat, u: Key)
    requires Run(lim, ws, acts) && j < |acts| && acts[j] == Begin(u)
    ensures var got, now := Answer(lim, ws[j].st, u, ws[j].next, ws[j + 1].clock), ws[j + 1].clock;
            var known := KnownRecently(lim, ws, acts, j, u, now);
            var failed := exists err :: FailedRecently(lim, ws, acts, j, u, err, now);
            (got == Fresh <==> known) &&
            (forall err :: got == Refused(err) <==> !known && FailedRecently(lim, ws, acts, j, u, err, now)) &&
            (forall f :: got == Follow(f) <==> !known && !failed && f in ws[j].leaders && ws[j].leaders[f] == u) &&
            (got.Lead? <==> !known && !failed && forall f | f in ws[j].leaders :: ws[j].leaders[f] != u)
  {
    var now := ws[j + 1].clock;
    assert Stepped(lim, ws, acts, j);
    RunKeepsInv(lim, ws, acts, j);
    KnownIff(lim, ws, acts, j, u, now);
    forall err
      ensures FailedRecently(lim, ws, acts, j, u, err, now) <==>
              u in ws[j].st.failures && ws[j].st.failures[u].err == err && now - ws[j].st.failures[u].at < lim.failureTTL
    {
      FailedIff(lim, ws, acts, j, u, err, now);
    }
    if u in ws[j].st.failures && now - ws[j].st.failures[u].at < lim.failureTTL {
      assert FailedRecently(lim, ws, acts, j, u, ws[j].st.failures[u].err, now);
    }
  }

  // ---------------------------------------------------------------------------
  // What is kept of what was found
  // ---------------------------------------------------------------------------

  /** A listing comes in for this repository at step k. */
  predicate Finds(ws: seq<World>, acts: seq<Action>, k: nat, repo: Repo, found: Listing)
    requires Ordered(ws, acts) && k < |acts|
  {
    (acts[k].Complete? && acts[k].err.None? && acts[k].found == found &&
     acts[k].flight in ws[k].leaders && ws[k].leaders[acts[k].flight].repo == repo) ||
    (acts[k].Seed? && acts[k].found == found && acts[k].repo == repo)
  }

  /** Nothing that comes in for the repository at step k names the chart. */
  ghost predicate SaysNothingOf(ws: seq<World>, acts: seq<Action>, k: nat, repo: Repo, chart: string)
    requires Ordered(ws, acts) && k < |acts|
  {
    forall found | Finds(ws, acts, k, repo, found) :: chart !in found.versions
  }

  /** What one step makes of the versions of a chart. */
  ghost predicate ListGoesOn(ws: seq<World>, acts: seq<Action>, k: nat, repo: Repo, chart: string)
    requires Ordered(ws, acts) && k < |acts|
  {
    var key := Key(repo, chart);
    (forall found | Finds(ws, acts, k, repo, found) && chart in found.versions ::
      key in ws[k + 1].st.lists && ws[k + 1].st.lists[key] == found.versions[chart]) &&
    (SaysNothingOf(ws, acts, k, repo, chart) && key in ws[k].st.lists ==>
      key in ws[k + 1].st.lists && ws[k + 1].st.lists[key] == ws[k].st.lists[key])
  }

  /** A completion brings in what it found, and leaves every other list that is not dropped. */
  lemma CompletedLists(lim: Limits, w: World, flight: nat, found: Listing, err: Option<string>, gone: set<Key>, w': World, u: Key)
    requires CompleteNext(lim, w, flight, found, err, gone, w') && u !in gone
    ensures var named := err.None? && w.leaders[flight].repo == u.repo && u.chart in found.versions;
            (named ==> u in w'.st.lists && w'.st.lists[u] == found.versions[u.chart]) &&
            (!named && u in w.st.lists ==> u in w'.st.lists && w'.st.lists[u] == w.st.lists[u])
  {
    var unit := w.leaders[flight];
    assert w'.st.lists == Landed(w.st, unit, found, err, w'.clock).lists - gone;
    KeptListsHold(w.st.lists, unit.repo, found.versions);
  }

  lemma LandingLists(lim: Limits, ws: seq<World>, acts: seq<Action>, k: nat, repo: Repo, chart: string)
    requires Run(lim, ws, acts) && k < |acts| && acts[k].Complete? && !Drops(acts, k, Key(repo, chart))
    ensures ListGoesOn(ws, acts, k, repo, chart)
  {
    var a := acts[k];
    assert Stepped(lim, ws, acts, k);
    CompletedLists(lim, ws[k], a.flight, a.found, a.err, a.gone, ws[k + 1], Key(repo, chart));
    if a.err.None? {
      assert Finds(ws, acts, k, ws[k].leaders[a.flight].repo, a.found);
    }
  }

  lemma SeedingLists(lim: Limits, ws: seq<World>, acts: seq<Action>, k: nat, repo: Repo, chart: string)
    requires Run(lim, ws, acts) && k < |acts| && acts[k].Seed?
    ensures ListGoesOn(ws, acts, k, repo, chart)
  {
    assert Stepped(lim, ws, acts, k);
    KeptListsHold(ws[k].st.lists, acts[k].repo, acts[k].found.versions);
    assert Finds(ws, acts, k, acts[k].repo, acts[k].found);
  }

  lemma StepLists(lim: Limits, ws: seq<World>, acts: seq<Action>, k: nat, repo: Repo, chart: string)
    requires Run(lim, ws, acts) && k < |acts| && !Drops(acts, k, Key(repo, chart))
    ensures ListGoesOn(ws, acts, k, repo, chart)
  {
    match acts[k]
    case Begin(_) => assert Stepped(lim, ws, acts, k);
    case Complete(_, _, _, _) => LandingLists(lim, ws, acts, k, repo, chart);
    case Seed(_, _, _) => SeedingLists(lim, ws, acts, k, repo, chart);
  }

  /** The versions of a chart that came in last are what is kept of it, until it is dropped. */
  lemma {:induction false} ListsHoldWhatWasFound(lim: Limits, ws: seq<World>, acts: seq<Action>, i: nat, j: nat, repo: Repo,
                                                 chart: string, found: Listing)
    requires Run(lim, ws, acts) && i < j <= |acts|
    requires Finds(ws, acts, i, repo, found) && chart in found.versions
    requires forall k: nat | i < k < j :: SaysNothingOf(ws, acts, k, repo, chart)
    requires forall k: nat | i <= k < j :: !Drops(acts, k, Key(repo, chart))
    ensures Key(repo, chart) in ws[j].st.lists && ws[j].st.lists[Key(repo, chart)] == found.versions[chart]
  {
    StepLists(lim, ws, acts, j - 1, repo, chart);
    if i < j - 1 {
      ListsHoldWhatWasFound(lim, ws, acts, i, j - 1, repo, chart, found);
    }
  }

  /** The charts of an index that came in last are what its catalog shows. */
  lemma {:induction false} CatalogHoldsWhatWasFound(lim: Limits, ws: seq<World>, acts: seq<Action>, i: nat, j: nat, repo: Repo,
                                                    found: Listing)
    requires Run(lim, ws, acts) && i < j <= |acts|
    requires Finds(ws, acts, i, repo, found) && found.charts.Some?
    requires forall k: nat, other: Listing | i < k < j && Finds(ws, acts, k, repo, other) :: other.charts.None?
    ensures repo in ws[j].st.catalog && ws[j].st.catalog[repo] == found.charts.value
  {
    StepCatalog(lim, ws, acts, j - 1, repo);
    if i < j - 1 {
      CatalogHoldsWhatWasFound(lim, ws, acts, i, j - 1, repo, found);
    }
  }

  /** What one step makes of the catalog of a repository. */
  ghost predicate CatalogGoesOn(ws: seq<World>, acts: seq<Action>, k: nat, repo: Repo)
    requires Ordered(ws, acts) && k < |acts|
  {
    (forall found: Listing | Finds(ws, acts, k, repo, found) && found.charts.Some? ::
      repo in ws[k + 1].st.catalog && ws[k + 1].st.catalog[repo] == found.charts.value) &&
    ((forall found: Listing | Finds(ws, acts, k, repo, found) :: found.charts.None?) && repo in ws[k].st.catalog ==>
      repo in ws[k + 1].st.catalog && ws[k + 1].st.catalog[repo] == ws[k].st.catalog[repo])
  }

  lemma CompletedCatalog(lim: Limits, w: World, flight: nat, found: Listing, err: Option<string>, gone: set<Key>, w': World)
    requires CompleteNext(lim, w, flight, found, err, gone, w')
    ensures w'.st.catalog == if err.None? && found.charts.Some? then w.st.catalog[w.leaders[flight].repo := found.charts.value]
                             else w.st.catalog
  {}

  lemma StepCatalog(lim: Limits, ws: seq<World>, acts: seq<Action>, k: nat, repo: Repo)
    requires Run(lim, ws, acts) && k < |acts|
    ensures CatalogGoesOn(ws, acts, k, repo)
  {
    var a := acts[k];
    assert Stepped(lim, ws, acts, k);
    if a.Complete? {
      CompletedCatalog(lim, ws[k], a.flight, a.found, a.err, a.gone, ws[k + 1]);
      assert a.err.None? ==> Finds(ws, acts, k, ws[k].leaders[a.flight].repo, a.found);
    } else if a.Seed? {
      assert Finds(ws, acts, k, a.repo, a.found);
    }
  }
}
