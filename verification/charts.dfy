/** The chart version cache (internal/charts/charts.go). */
module Charts {
  // One fetch at a time for each unit, results and failures remembered for a while, and a
  // bounded number of OCI charts.

  import opened Options
  import opened Sizes

  type Time = int

  const NEGATIVE_TTL := 30_000_000_000
  const OCI_CAPACITY := 256

  datatype Repo = Repo(url: string, oci: bool)

  datatype Chart = Chart(name: string, description: string, version: string)

  datatype Key = Key(repo: Repo, chart: string)

  datatype Listing = Listing(versions: map<string, seq<string>>, charts: Option<seq<Chart>>)

  datatype FailedFetch = FailedFetch(err: string, at: Time)

  datatype Limits = Limits(ttl: int, failureTTL: int, capacity: nat)

  /** A flight goes by its number. */
  datatype State = State(
    lists: map<Key, seq<string>>,
    catalog: map<Repo, seq<Chart>>,
    fetched: map<Key, Time>,
    inflight: map<Key, nat>,
    failures: map<Key, FailedFetch>)

  // ---------------------------------------------------------------------------
  // What one call does
  // ---------------------------------------------------------------------------

  function FetchUnit(repo: Repo, chart: string): Key {
    if repo.oci then Key(repo, chart) else Key(repo, "")
  }

  datatype Begun = Fresh | Refused(err: string) | Follow(flight: nat) | Lead(flight: nat)

  /** What `begin` answers; `next` is the number a new flight would get. */
  function Answer(lim: Limits, st: State, unit: Key, next: nat, now: Time): Begun {
    if unit in st.fetched && now - st.fetched[unit] < lim.ttl then Fresh
    else if unit in st.failures && now - st.failures[unit].at < lim.failureTTL then Refused(st.failures[unit].err)
    else if unit in st.inflight then Follow(st.inflight[unit])
    else Lead(next)
  }

  function AfterBegin(lim: Limits, st: State, unit: Key, next: nat, now: Time): State {
    match Answer(lim, st, unit, next, now)
    case Fresh => st
    case Refused(_) => st
    case Follow(_) => st.(failures := st.failures - {unit})
    case Lead(_) => st.(failures := st.failures - {unit}, inflight := st.inflight[unit := next])
  }

  /** Names are overwritten, and a name an index no longer lists keeps its last versions. */
  function KeptLists(lists: map<Key, seq<string>>, repo: Repo, versions: map<string, seq<string>>): map<Key, seq<string>> {
    lists + map n | n in versions :: Key(repo, n) := versions[n]
  }

  lemma KeptListsHold(lists: map<Key, seq<string>>, repo: Repo, versions: map<string, seq<string>>)
    ensures var kept := KeptLists(lists, repo, versions);
            forall u :: (u in kept <==> u in lists || (u.repo == repo && u.chart in versions)) &&
              (u in kept ==> kept[u] == if u.repo == repo && u.chart in versions then versions[u.chart] else lists[u])
  {}

  function Kept(st: State, repo: Repo, found: Listing): State {
    st.(lists := KeptLists(st.lists, repo, found.versions),
        catalog := if found.charts.Some? then st.catalog[repo := found.charts.value] else st.catalog)
  }

  function Landed(st: State, unit: Key, found: Listing, err: Option<string>, now: Time): State {
    var down := st.(inflight := st.inflight - {unit});
    if err.Some? then down.(failures := st.failures[unit := FailedFetch(err.value, now)])
    else Kept(down.(failures := st.failures - {unit}, fetched := st.fetched[unit := now]), unit.repo, found)
  }

  predicate OciChart(u: Key) {
    u.repo.oci && u.chart != ""
  }

  /** The OCI charts that were fetched or failed, and when each was last touched. */
  function OciUnits(fetched: map<Key, Time>, failures: map<Key, FailedFetch>): set<Key> {
    set u | u in fetched.Keys + failures.Keys && OciChart(u)
  }

  function TouchedAt(fetched: map<Key, Time>, failures: map<Key, FailedFetch>, u: Key): Time
    requires u in fetched || u in failures
  {
    if u in failures then failures[u].at else fetched[u]
  }

  function Without(st: State, gone: set<Key>): State {
    st.(fetched := st.fetched - gone, failures := st.failures - gone, lists := st.lists - gone)
  }

  /** `gone` are exactly as many of the oldest OCI charts as the capacity asks for. */
  ghost predicate Oldest(capacity: nat, fetched: map<Key, Time>, failures: map<Key, FailedFetch>, gone: set<Key>) {
    var units := OciUnits(fetched, failures);
    && gone <= units
    && |gone| == (if |units| <= capacity then 0 else |units| - capacity)
    && forall g, k | g in gone && k in units - gone :: TouchedAt(fetched, failures, g) <= TouchedAt(fetched, failures, k)
  }

  ghost predicate LandedWithin(capacity: nat, landed: State, gone: set<Key>, after: State) {
    Oldest(capacity, landed.fetched, landed.failures, gone) && after == Without(landed, gone)
  }

  // ---------------------------------------------------------------------------
  // Whole runs
  // ---------------------------------------------------------------------------

  /** `leaders` are the flights whose leader has not completed, with their units, and `closed`
      the flights whose channel is closed, with the error their followers then read. */
  datatype World = World(st: State, next: nat, leaders: map<nat, Key>, closed: map<nat, Option<string>>, clock: Time)

  datatype Action =
    | Begin(unit: Key)
    | Complete(flight: nat, found: Listing, err: Option<string>, gone: set<Key>)
    | Seed(repo: Repo, found: Listing, at: Time)

  /** An OCI registry is asked about one chart and answers about no other. */
  predicate Answers(unit: Key, found: Listing) {
    unit.repo.oci ==> found.versions.Keys <= {unit.chart} && found.charts.None?
  }

  ghost predicate BeginNext(lim: Limits, w: World, unit: Key, w': World) {
    && w'.st == AfterBegin(lim, w.st, unit, w.next, w'.clock)
    && w'.closed == w.closed
    && if Answer(lim, w.st, unit, w.next, w'.clock).Lead?
       then w'.next == w.next + 1 && w'.leaders == w.leaders[w.next := unit]
       else w'.next == w.next && w'.leaders == w.leaders
  }

  ghost predicate CompleteNext(lim: Limits, w: World, flight: nat, found: Listing, err: Option<string>, gone: set<Key>, w': World) {
    && flight in w.leaders
    && (err.None? ==> Answers(w.leaders[flight], found))
    && LandedWithin(lim.capacity, Landed(w.st, w.leaders[flight], found, err, w'.clock), gone, w'.st)
    && w'.next == w.next
    && w'.leaders == w.leaders - {flight}
    && w'.closed == w.closed[flight := err]
  }

  /** Seeding from disk, which is done for index repositories only. */
  ghost predicate SeedNext(w: World, repo: Repo, found: Listing, at: Time, w': World) {
    && !repo.oci
    && w'.st == Kept(w.st.(fetched := w.st.fetched[FetchUnit(repo, "") := at]), repo, found)
    && w'.next == w.next && w'.leaders == w.leaders && w'.closed == w.closed
  }

  ghost predicate Next(lim: Limits, w: World, a: Action, w': World) {
    && w.clock <= w'.clock
    && match a
       case Begin(unit) => BeginNext(lim, w, unit, w')
       case Complete(flight, found, err, gone) => CompleteNext(lim, w, flight, found, err, gone, w')
       case Seed(repo, found, at) => SeedNext(w, repo, found, at, w')
  }

  ghost predicate Run(lim: Limits, ws: seq<World>, acts: seq<Action>) {
    && |ws| == |acts| + 1
    && ws[0].st == State(map[], map[], map[], map[], map[])
    && ws[0].next == 0 && ws[0].leaders == map[] && ws[0].closed == map[]
    && forall i: nat | i < |acts| :: Stepped(lim, ws, acts, i)
  }

  ghost predicate Stepped(lim: Limits, ws: seq<World>, acts: seq<Action>, i: nat)
    requires |ws| == |acts| + 1 && i < |acts|
  {
    Next(lim, ws[i], acts[i], ws[i + 1])
  }

  /** The flights in the table are exactly the ones with an outstanding leader. */
  ghost predicate FlightsLed(inflight: map<Key, nat>, leaders: map<nat, Key>) {
    && (forall u | u in inflight :: inflight[u] in leaders && leaders[inflight[u]] == u)
    && (forall f | f in leaders :: leaders[f] in inflight && inflight[leaders[f]] == f)
  }

  /** Every flight ever started either still has its leader or has been closed, never both. */
  ghost predicate FlightsSettled(w: World) {
    && w.leaders.Keys !! w.closed.Keys
    && forall f: nat :: f < w.next <==> f in w.leaders || f in w.closed
  }

  ghost predicate ListsFetched(lists: map<Key, seq<string>>, fetched: map<Key, Time>) {
    forall u | u in lists && u.repo.oci :: u in fetched
  }

  ghost predicate Inv(lim: Limits, w: World) {
    && FlightsLed(w.st.inflight, w.leaders)
    && FlightsSettled(w)
    && ListsFetched(w.st.lists, w.st.fetched)
    && |OciUnits(w.st.fetched, w.st.failures)| <= lim.capacity
  }

  lemma EvictionFits(capacity: nat, fetched: map<Key, Time>, failures: map<Key, FailedFetch>, gone: set<Key>)
    requires Oldest(capacity, fetched, failures, gone)
    ensures |OciUnits(fetched - gone, failures - gone)| <= capacity
  {
    assert OciUnits(fetched - gone, failures - gone) == OciUnits(fetched, failures) - gone;
  }

  lemma LeadingKeepsFlights(inflight: map<Key, nat>, leaders: map<nat, Key>, unit: Key, next: nat)
    requires FlightsLed(inflight, leaders) && unit !in inflight && next !in leaders
    ensures FlightsLed(inflight[unit := next], leaders[next := unit])
  {}

  lemma LandingKeepsFlights(inflight: map<Key, nat>, leaders: map<nat, Key>, flight: nat)
    requires FlightsLed(inflight, leaders) && flight in leaders
    ensures leaders[flight] in inflight && inflight[leaders[flight]] == flight
    ensures FlightsLed(inflight - {leaders[flight]}, leaders - {flight})
  {}

  lemma BeginKeepsInv(lim: Limits, w: World, unit: Key, w': World)
    requires Inv(lim, w) && BeginNext(lim, w, unit, w')
    ensures Inv(lim, w')
  {
    SubsetSize(OciUnits(w'.st.fetched, w'.st.failures), OciUnits(w.st.fetched, w.st.failures));
    if Answer(lim, w.st, unit, w.next, w'.clock).Lead? {
      LeadingKeepsFlights(w.st.inflight, w.leaders, unit, w.next);
    }
  }

  lemma LandingKeepsLists(st: State, unit: Key, found: Listing, err: Option<string>, now: Time, gone: set<Key>)
    requires ListsFetched(st.lists, st.fetched) && (err.None? ==> Answers(unit, found))
    ensures var landed := Landed(st, unit, found, err, now);
      ListsFetched(landed.lists - gone, landed.fetched - gone)
  {
    KeptListsHold(st.lists, unit.repo, found.versions);
  }

  lemma CompleteKeepsInv(lim: Limits, w: World, flight: nat, found: Listing, err: Option<string>, gone: set<Key>, w': World)
    requires Inv(lim, w) && CompleteNext(lim, w, flight, found, err, gone, w')
    ensures Inv(lim, w')
  {
    var unit := w.leaders[flight];
    var landed := Landed(w.st, unit, found, err, w'.clock);
    EvictionFits(lim.capacity, landed.fetched, landed.failures, gone);
    LandingKeepsLists(w.st, unit, found, err, w'.clock, gone);
    LandingKeepsFlights(w.st.inflight, w.leaders, flight);
    assert w'.st.inflight == w.st.inflight - {unit};
    LandingSettles(w, flight, err, w');
  }

  lemma LandingSettles(w: World, flight: nat, err: Option<string>, w': World)
    requires FlightsSettled(w) && flight in w.leaders
    requires w'.next == w.next && w'.leaders == w.leaders - {flight} && w'.closed == w.closed[flight := err]
    ensures FlightsSettled(w')
  {}

  lemma SeedKeepsInv(lim: Limits, w: World, repo: Repo, found: Listing, at: Time, w': World)
    requires Inv(lim, w) && SeedNext(w, repo, found, at, w')
    ensures Inv(lim, w')
  {
    assert OciUnits(w'.st.fetched, w'.st.failures) == OciUnits(w.st.fetched, w.st.failures);
  }

  lemma NextKeepsInv(lim: Limits, w: World, a: Action, w': World)
    requires Inv(lim, w) && Next(lim, w, a, w')
    ensures Inv(lim, w')
  {
    match a
    case Begin(unit) => BeginKeepsInv(lim, w, unit, w');
    case Complete(flight, found, err, gone) => CompleteKeepsInv(lim, w, flight, found, err, gone, w');
    case Seed(repo, found, at) => SeedKeepsInv(lim, w, repo, found, at, w');
  }

  lemma {:induction false} RunKeepsInv(lim: Limits, ws: seq<World>, acts: seq<Action>, i: nat)
    requires Run(lim, ws, acts) && i < |ws|
    ensures Inv(lim, ws[i])
  {
    if i > 0 {
      RunKeepsInv(lim, ws, acts, i - 1);
      assert Stepped(lim, ws, acts, i - 1);
      NextKeepsInv(lim, ws[i - 1], acts[i - 1], ws[i]);
    }
  }

  // ---------------------------------------------------------------------------
  // Theorems about every run
  // ---------------------------------------------------------------------------

  /** At any moment each unit has at most one flight whose leader is still out, and that flight
      is the one in the table, so a leader completing removes its own flight. */
  lemma OneFlightPerUnit(lim: Limits, ws: seq<World>, acts: seq<Action>, i: nat, f: nat, g: nat)
    requires Run(lim, ws, acts) && i < |ws|
    requires f in ws[i].leaders && g in ws[i].leaders && ws[i].leaders[f] == ws[i].leaders[g]
    ensures f == g
    ensures ws[i].leaders[f] in ws[i].st.inflight && ws[i].st.inflight[ws[i].leaders[f]] == f
  {
    RunKeepsInv(lim, ws, acts, i);
  }

  lemma StepFlightGoesOn(lim: Limits, w: World, a: Action, w': World, f: nat)
    requires Next(lim, w, a, w')
    ensures f in w.leaders ==> f in w'.leaders || f in w'.closed
    ensures f in w.closed && f !in w.leaders && f < w.next ==>
      f in w'.closed && w'.closed[f] == w.closed[f] && f !in w'.leaders
    ensures w.next <= w'.next
  {}

  lemma {:induction false} FlightsGoOn(lim: Limits, ws: seq<World>, acts: seq<Action>, i: nat, j: nat, f: nat)
    requires Run(lim, ws, acts) && i <= j < |ws| && f < ws[i].next
    ensures f < ws[j].next && (f in ws[j].leaders || f in ws[j].closed)
    ensures f in ws[i].closed ==> f in ws[j].closed && ws[j].closed[f] == ws[i].closed[f] && f !in ws[j].leaders
  {
    if j == i {
      RunKeepsInv(lim, ws, acts, i);
    } else {
      FlightsGoOn(lim, ws, acts, i, j - 1, f);
      assert Stepped(lim, ws, acts, j - 1);
      RunKeepsInv(lim, ws, acts, j - 1);
      StepFlightGoesOn(lim, ws[j - 1], acts[j - 1], ws[j], f);
    }
  }

  /** Whoever waits on a flight is never left waiting: the flight has a leader out until it is
      closed. It is closed once, and from then on reads the error its leader met. */
  lemma FollowersGetTheLeadersError(lim: Limits, ws: seq<World>, acts: seq<Action>, i: nat, j: nat, k: nat)
    requires Run(lim, ws, acts) && i < j < |acts| && j < k < |ws|
    requires acts[i].Begin? && acts[j].Complete?
    requires Answer(lim, ws[i].st, acts[i].unit, ws[i].next, ws[i + 1].clock) == Follow(acts[j].flight)
          || Answer(lim, ws[i].st, acts[i].unit, ws[i].next, ws[i + 1].clock) == Lead(acts[j].flight)
    ensures acts[j].flight !in ws[j].closed
    ensures acts[j].flight in ws[k].closed && ws[k].closed[acts[j].flight] == acts[j].err
    ensures k < |acts| ==> acts[k] != acts[j]
  {
    RunKeepsInv(lim, ws, acts, j);
    assert Stepped(lim, ws, acts, j);
    RunKeepsInv(lim, ws, acts, j + 1);
    FlightsGoOn(lim, ws, acts, j + 1, k, acts[j].flight);
    if k < |acts| {
      assert Stepped(lim, ws, acts, k);
    }
  }

  /** Between being handed out and being closed, a flight always has its leader. */
  lemma NobodyWaitsForNobody(lim: Limits, ws: seq<World>, acts: seq<Action>, i: nat, j: nat, f: nat)
    requires Run(lim, ws, acts) && i < |acts| && i < j < |ws| && acts[i].Begin?
    requires var a := Answer(lim, ws[i].st, acts[i].unit, ws[i].next, ws[i + 1].clock); a == Follow(f) || a == Lead(f)
    ensures f in ws[j].leaders || f in ws[j].closed
  {
    RunKeepsInv(lim, ws, acts, i);
    assert Stepped(lim, ws, acts, i);
    FlightsGoOn(lim, ws, acts, i + 1, j, f);
  }

  /** The OCI charts kept are bounded, and none of their lists outlives its fetch entry. */
  lemma OciIsBounded(lim: Limits, ws: seq<World>, acts: seq<Action>, i: nat)
    requires Run(lim, ws, acts) && i < |ws|
    ensures |OciUnits(ws[i].st.fetched, ws[i].st.failures)| <= lim.capacity
    ensures forall u | u in ws[i].st.lists && OciChart(u) :: u in OciUnits(ws[i].st.fetched, ws[i].st.failures)
    ensures var st := ws[i].st;
            |set u | u in st.fetched.Keys + st.failures.Keys + st.lists.Keys && u.repo.oci && u.chart != ""| <= lim.capacity
  {
    RunKeepsInv(lim, ws, acts, i);
    var st := ws[i].st;
    assert (set u | u in st.fetched.Keys + st.failures.Keys + st.lists.Keys && u.repo.oci && u.chart != "") ==
      OciUnits(st.fetched, st.failures);
  }

  ghost predicate Unled(leaders: map<nat, Key>, u: Key) {
    forall f | f in leaders :: leaders[f] != u
  }

  /** Nobody is fetching `u`, and it was last fetched at `at`. */
  ghost predicate FetchedAt(w: World, u: Key, at: Time) {
    u in w.st.fetched && w.st.fetched[u] == at && Unled(w.leaders, u)
  }

  /** Nobody is fetching `u`, what was known of it has run out, and it failed at `at`. */
  ghost predicate FailedAt(lim: Limits, w: World, u: Key, failed: FailedFetch) {
    && u in w.st.failures && w.st.failures[u] == failed
    && Unled(w.leaders, u)
    && (u in w.st.fetched ==> w.clock - w.st.fetched[u] >= lim.ttl)
  }

  predicate Reseeds(a: Action, u: Key) {
    a.Seed? && FetchUnit(a.repo, "") == u
  }

  /** An OCI chart is dropped; an index never is. */
  predicate Evicts(a: Action, u: Key) {
    u.repo.oci && a.Complete? && u in a.gone
  }

  predicate Forgets(a: Action, u: Key) {
    Reseeds(a, u) || Evicts(a, u)
  }

  /** Another unit's flight landing leaves what is known of a unit alone, unless it is dropped. */
  lemma LandingElsewhere(lim: Limits, w: World, flight: nat, found: Listing, err: Option<string>, gone: set<Key>, w': World, u: Key)
    requires CompleteNext(lim, w, flight, found, err, gone, w') && w.leaders[flight] != u
    ensures u in w'.st.fetched ==> u in w.st.fetched && w'.st.fetched[u] == w.st.fetched[u]
    ensures (u.repo.oci ==> u !in gone) && u in w.st.fetched ==> u in w'.st.fetched
    ensures (u.repo.oci ==> u !in gone) && u in w.st.failures ==> u in w'.st.failures && w'.st.failures[u] == w.st.failures[u]
    ensures Unled(w.leaders, u) ==> Unled(w'.leaders, u)
  {
    var landed := Landed(w.st, w.leaders[flight], found, err, w'.clock);
    assert u in gone ==> u.repo.oci;
    assert w'.st.fetched == landed.fetched - gone && w'.st.failures == landed.failures - gone;
  }

  lemma StepStaysFetched(lim: Limits, w: World, a: Action, w': World, u: Key, at: Time)
    requires Next(lim, w, a, w') && !Forgets(a, u)
    requires FetchedAt(w, u, at) && w'.clock < at + lim.ttl
    ensures FetchedAt(w', u, at)
  {
    match a
    case Begin(_) =>
    case Complete(flight, found, err, gone) => LandingElsewhere(lim, w, flight, found, err, gone, w', u);
    case Seed(_, _, _) =>
  }

  lemma StepStaysFailed(lim: Limits, w: World, a: Action, w': World, u: Key, failed: FailedFetch)
    requires Next(lim, w, a, w') && !Forgets(a, u)
    requires FailedAt(lim, w, u, failed) && w'.clock < failed.at + lim.failureTTL
    ensures FailedAt(lim, w', u, failed)
  {
    match a
    case Begin(_) =>
    case Complete(flight, found, err, gone) => LandingElsewhere(lim, w, flight, found, err, gone, w', u);
    case Seed(_, _, _) =>
  }

  lemma RunClock(lim: Limits, ws: seq<World>, acts: seq<Action>, k: nat)
    requires Run(lim, ws, acts) && k < |acts|
    ensures ws[k].clock <= ws[k + 1].clock
  {
    assert Stepped(lim, ws, acts, k);
  }

  lemma RunStaysFetched(lim: Limits, ws: seq<World>, acts: seq<Action>, k: nat, u: Key, at: Time)
    requires Run(lim, ws, acts) && k < |acts| && !Forgets(acts[k], u)
    requires FetchedAt(ws[k], u, at) && ws[k + 1].clock < at + lim.ttl
    ensures FetchedAt(ws[k + 1], u, at)
  {
    assert Stepped(lim, ws, acts, k);
    StepStaysFetched(lim, ws[k], acts[k], ws[k + 1], u, at);
  }

  lemma RunStaysFailed(lim: Limits, ws: seq<World>, acts: seq<Action>, k: nat, u: Key, failed: FailedFetch)
    requires Run(lim, ws, acts) && k < |acts| && !Forgets(acts[k], u)
    requires FailedAt(lim, ws[k], u, failed) && ws[k + 1].clock < failed.at + lim.failureTTL
    ensures FailedAt(lim, ws[k + 1], u, failed)
  {
    assert Stepped(lim, ws, acts, k);
    StepStaysFailed(lim, ws[k], acts[k], ws[k + 1], u, failed);
  }

  lemma {:induction false} StaysFetched(lim: Limits, ws: seq<World>, acts: seq<Action>, i: nat, j: nat, u: Key, at: Time)
    requires Run(lim, ws, acts) && i <= j < |ws|
    requires FetchedAt(ws[i], u, at) && ws[j].clock < at + lim.ttl
    requires forall k | i <= k < j :: !Forgets(acts[k], u)
    ensures FetchedAt(ws[j], u, at)
  {
    if j > i {
      RunClock(lim, ws, acts, j - 1);
      StaysFetched(lim, ws, acts, i, j - 1, u, at);
      RunStaysFetched(lim, ws, acts, j - 1, u, at);
    }
  }

  lemma {:induction false} StaysFailed(lim: Limits, ws: seq<World>, acts: seq<Action>, i: nat, j: nat, u: Key, failed: FailedFetch)
    requires Run(lim, ws, acts) && i <= j < |ws|
    requires FailedAt(lim, ws[i], u, failed) && ws[j].clock < failed.at + lim.failureTTL
    requires forall k | i <= k < j :: !Forgets(acts[k], u)
    ensures FailedAt(lim, ws[j], u, failed)
  {
    if j > i {
      RunClock(lim, ws, acts, j - 1);
      StaysFailed(lim, ws, acts, i, j - 1, u, failed);
      RunStaysFailed(lim, ws, acts, j - 1, u, failed);
    }
  }

  /** A leader's completion leaves its unit fetched or failed at that moment, with nobody on it. */
  lemma LandingRecords(lim: Limits, w: World, flight: nat, found: Listing, err: Option<string>, gone: set<Key>, w': World, u: Key)
    requires FlightsLed(w.st.inflight, w.leaders) && CompleteNext(lim, w, flight, found, err, gone, w')
    requires u == w.leaders[flight] && (u.repo.oci ==> u !in gone)
    requires err.Some? && u in w.st.fetched ==> w'.clock - w.st.fetched[u] >= lim.ttl
    ensures err.None? ==> FetchedAt(w', u, w'.clock)
    ensures err.Some? ==> FailedAt(lim, w', u, FailedFetch(err.value, w'.clock))
  {
    var landed := Landed(w.st, u, found, err, w'.clock);
    assert u !in gone;
    assert w'.st.fetched == landed.fetched - gone && w'.st.failures == landed.failures - gone;
  }

  /** A leader is out for `u`, and what was known of it, if anything, has run out. */
  ghost predicate LedWhileStale(lim: Limits, w: World, u: Key, flight: nat) {
    flight in w.leaders && w.leaders[flight] == u && (u in w.st.fetched ==> w.clock - w.st.fetched[u] >= lim.ttl)
  }

  lemma StepStaysLed(lim: Limits, w: World, a: Action, w': World, u: Key, flight: nat)
    requires FlightsLed(w.st.inflight, w.leaders) && FlightsSettled(w)
    requires Next(lim, w, a, w') && !Reseeds(a, u)
    requires LedWhileStale(lim, w, u, flight) && (a.Complete? ==> a.flight != flight)
    ensures LedWhileStale(lim, w', u, flight)
  {
    match a
    case Begin(_) =>
    case Complete(other, found, err, gone) => LandingElsewhere(lim, w, other, found, err, gone, w', u);
    case Seed(_, _, _) =>
  }

  lemma {:induction false} StaysLed(lim: Limits, ws: seq<World>, acts: seq<Action>, b: nat, i: nat, u: Key, flight: nat)
    requires Run(lim, ws, acts) && b < i < |ws| && acts[b] == Begin(u)
    requires Answer(lim, ws[b].st, u, ws[b].next, ws[b + 1].clock) == Lead(flight)
    requires flight in ws[i].leaders && forall k | b < k < i :: !Reseeds(acts[k], u)
    ensures LedWhileStale(lim, ws[i], u, flight)
  {
    if b == i - 1 {
      RunLeads(lim, ws, acts, b, u, flight);
    } else {
      NotLandedBefore(lim, ws, acts, b, i, flight);
      StaysLed(lim, ws, acts, b, i - 1, u, flight);
      RunStaysLed(lim, ws, acts, i - 1, u, flight);
    }
  }

  lemma RunLeads(lim: Limits, ws: seq<World>, acts: seq<Action>, k: nat, u: Key, flight: nat)
    requires Run(lim, ws, acts) && k < |acts| && acts[k] == Begin(u)
    requires Answer(lim, ws[k].st, u, ws[k].next, ws[k + 1].clock) == Lead(flight)
    ensures LedWhileStale(lim, ws[k + 1], u, flight)
  {
    assert Stepped(lim, ws, acts, k);
  }

  lemma RunStaysLed(lim: Limits, ws: seq<World>, acts: seq<Action>, k: nat, u: Key, flight: nat)
    requires Run(lim, ws, acts) && k < |acts| && !Reseeds(acts[k], u)
    requires LedWhileStale(lim, ws[k], u, flight) && (acts[k].Complete? ==> acts[k].flight != flight)
    ensures LedWhileStale(lim, ws[k + 1], u, flight)
  {
    RunKeepsInv(lim, ws, acts, k);
    assert Stepped(lim, ws, acts, k);
    StepStaysLed(lim, ws[k], acts[k], ws[k + 1], u, flight);
  }

  /** A flight still led was led a step before, and did not land in that step. */
  lemma NotLandedBefore(lim: Limits, ws: seq<World>, acts: seq<Action>, b: nat, i: nat, flight: nat)
    requires Run(lim, ws, acts) && b + 1 < i < |ws| && acts[b].Begin? && flight in ws[i].leaders
    requires Answer(lim, ws[b].st, acts[b].unit, ws[b].next, ws[b + 1].clock) == Lead(flight)
    ensures flight in ws[i - 1].leaders && (acts[i - 1].Complete? ==> acts[i - 1].flight != flight)
  {
    assert Stepped(lim, ws, acts, b);
    FlightsGoOn(lim, ws, acts, b + 1, i - 1, flight);
    RunKeepsInv(lim, ws, acts, i - 1);
    assert Stepped(lim, ws, acts, i - 1);
  }

  /** A unit whose leader, let through at step `b`, completes at step `i` is not fetched again
      while what it learnt or met is remembered: an index until it is seeded from disk, an OCI chart
      until it is dropped. Callers are answered from the cache, or with the very error the leader
      met. */
  lemma NoFetchWhileRemembered(lim: Limits, ws: seq<World>, acts: seq<Action>, b: nat, i: nat, j: nat, u: Key)
    requires Run(lim, ws, acts) && b < i < j < |acts|
    requires acts[b] == Begin(u) && acts[i].Complete? && acts[j] == Begin(u)
    requires Answer(lim, ws[b].st, u, ws[b].next, ws[b + 1].clock) == Lead(acts[i].flight)
    requires forall k | b < k < j :: !Reseeds(acts[k], u)
    requires forall k | i <= k < j :: !Evicts(acts[k], u)
    requires ws[j + 1].clock < ws[i + 1].clock + if acts[i].err.None? then lim.ttl else lim.failureTTL
    ensures Answer(lim, ws[j].st, u, ws[j].next, ws[j + 1].clock)
      == if acts[i].err.None? then Fresh else Refused(acts[i].err.value)
  {
    var done, at := acts[i], ws[i + 1].clock;
    RunKeepsInv(lim, ws, acts, i);
    assert Stepped(lim, ws, acts, i);
    StaysLed(lim, ws, acts, b, i, u, done.flight);
    LandingRecords(lim, ws[i], done.flight, done.found, done.err, done.gone, ws[i + 1], u);
    assert Stepped(lim, ws, acts, j);
    if done.err.None? {
      StaysFetched(lim, ws, acts, i + 1, j, u, at);
    } else {
      StaysFailed(lim, ws, acts, i + 1, j, u, FailedFetch(done.err.value, at));
    }
  }

  // ---------------------------------------------------------------------------
  // The program
  // ---------------------------------------------------------------------------

  /** A fetch others can wait on; `done` is its closed channel. */
  class FetchFlight {
    ghost const number: nat
    var done: bool
    var err: Option<string>

    constructor (ghost number: nat)
      ensures this.number == number && !done
    {
      this.number, done, err := number, false, None;
    }
  }

  ghost function Numbers(inflight: map<Key, FetchFlight>): map<Key, nat> {
    map u | u in inflight :: inflight[u].number
  }

  lemma NumbersChange(inflight: map<Key, FetchFlight>, unit: Key, flight: FetchFlight)
    ensures Numbers(inflight[unit := flight]) == Numbers(inflight)[unit := flight.number]
    ensures Numbers(inflight - {unit}) == Numbers(inflight) - {unit}
  {}

  /** `gone` could still be part of the oldest charts to drop. */
  ghost predicate Dropping(capacity: nat, fetched: map<Key, Time>, failures: map<Key, FailedFetch>, gone: set<Key>) {
    var units := OciUnits(fetched, failures);
    && gone <= units
    && |gone| <= (if |units| <= capacity then 0 else |units| - capacity)
    && forall g, k | g in gone && k in units - gone :: TouchedAt(fetched, failures, g) <= TouchedAt(fetched, failures, k)
  }

  lemma DropOne(capacity: nat, fetched: map<Key, Time>, failures: map<Key, FailedFetch>, gone: set<Key>, oldest: Key)
    requires Dropping(capacity, fetched, failures, gone)
    requires oldest in OciUnits(fetched, failures) - gone
    requires |OciUnits(fetched, failures) - gone| > capacity
    requires forall k | k in OciUnits(fetched, failures) - gone ::
      TouchedAt(fetched, failures, oldest) <= TouchedAt(fetched, failures, k)
    ensures Dropping(capacity, fetched, failures, gone + {oldest})
  {}

  lemma NothingDropped(was: State)
    ensures Without(was, {}) == was
  {}

  lemma DroppedEnough(capacity: nat, was: State, gone: set<Key>, after: State)
    requires Dropping(capacity, was.fetched, was.failures, gone) && after == Without(was, gone)
    requires |OciUnits(was.fetched, was.failures) - gone| <= capacity
    ensures LandedWithin(capacity, was, gone, after)
  {}

  lemma Remaining(fetched: map<Key, Time>, failures: map<Key, FailedFetch>, gone: set<Key>)
    ensures OciUnits(fetched - gone, failures - gone) == OciUnits(fetched, failures) - gone
    ensures forall u | u in OciUnits(fetched, failures) - gone ::
      TouchedAt(fetched - gone, failures - gone, u) == TouchedAt(fetched, failures, u)
  {}

  lemma WithoutOneMore(st: State, gone: set<Key>, one: Key)
    ensures st.fetched - gone - {one} == st.fetched - (gone + {one})
    ensures st.failures - gone - {one} == st.failures - (gone + {one})
    ensures st.lists - gone - {one} == st.lists - (gone + {one})
  {}

  function At(lists: map<Key, seq<string>>, u: Key): Option<seq<string>> {
    if u in lists then Some(lists[u]) else None
  }

  /** What is listed for a unit while some names are left to do. */
  function KeptAt(lists: map<Key, seq<string>>, repo: Repo, versions: map<string, seq<string>>, left: set<string>, u: Key): Option<seq<string>> {
    if u.repo == repo && u.chart in versions && u.chart !in left then Some(versions[u.chart]) else At(lists, u)
  }

  lemma KeptEverywhere(before: map<Key, seq<string>>, repo: Repo, versions: map<string, seq<string>>, after: map<Key, seq<string>>)
    requires forall u :: At(after, u) == KeptAt(before, repo, versions, {}, u)
    ensures after == KeptLists(before, repo, versions)
  {
    var kept := KeptLists(before, repo, versions);
    KeptListsHold(before, repo, versions);
    forall u ensures (u in after <==> u in kept) && (u in after ==> after[u] == kept[u]) {
      assert At(after, u) == KeptAt(before, repo, versions, {}, u);
    }
  }

  /** The loop over the names an index lists. */
  method KeepEach(before: map<Key, seq<string>>, repo: Repo, versions: map<string, seq<string>>) returns (lists: map<Key, seq<string>>)
    ensures lists == KeptLists(before, repo, versions)
  {
    lists := before;
    var left := versions.Keys;
    while left != {}
      invariant left <= versions.Keys
      invariant forall u :: At(lists, u) == KeptAt(before, repo, versions, left, u)
      decreases |left|
    {
      var name :| name in left;
      ghost var earlier := lists;
      lists := lists[Key(repo, name) := versions[name]];
      forall u ensures At(lists, u) == KeptAt(before, repo, versions, left - {name}, u) {
        assert At(earlier, u) == KeptAt(before, repo, versions, left, u);
        assert u == Key(repo, name) <==> u.repo == repo && u.chart == name;
      }
      left := left - {name};
    }
    KeptEverywhere(before, repo, versions, lists);
  }

  class Cache {
    const lim: Limits
    var lists: map<Key, seq<string>>
    var catalog: map<Repo, seq<Chart>>
    var fetched: map<Key, Time>
    var inflight: map<Key, FetchFlight>
    var failures: map<Key, FailedFetch>
    ghost var next: nat

    ghost function St(): State
      reads this
    {
      State(lists, catalog, fetched, Numbers(inflight), failures)
    }

    /** The flights in the table are numbered in the order they were started. */
    ghost predicate Valid()
      reads this
    {
      forall u | u in inflight :: inflight[u].number < next
    }

    constructor (lim: Limits)
      ensures Valid() && this.lim == lim && next == 0
      ensures St() == State(map[], map[], map[], map[], map[])
    {
      this.lim := lim;
      lists, catalog, fetched, inflight, failures, next := map[], map[], map[], map[], map[], 0;
    }

    /** The cache the program starts with, for a given time to live. */
    constructor Shipped(ttl: int)
      ensures Valid() && lim == Limits(ttl, NEGATIVE_TTL, OCI_CAPACITY) && next == 0
      ensures St() == State(map[], map[], map[], map[], map[])
    {
      lim := Limits(ttl, NEGATIVE_TTL, OCI_CAPACITY);
      lists, catalog, fetched, inflight, failures, next := map[], map[], map[], map[], map[], 0;
    }

    /** No flight and no error means the cache is fresh; the flag says whether the caller leads. */
    method Begin(unit: Key, now: Time) returns (flight: FetchFlight?, leader: bool, err: Option<string>)
      requires Valid()
      modifies this
      ensures Valid()
      ensures St() == AfterBegin(lim, old(St()), unit, old(next), now)
      ensures match Answer(lim, old(St()), unit, old(next), now)
              case Fresh => flight == null && !leader && err == None
              case Refused(e) => flight == null && !leader && err == Some(e)
              case Follow(n) => flight != null && flight.number == n && !leader && err == None
              case Lead(n) => flight != null && fresh(flight) && flight.number == n && leader && err == None && !flight.done
      ensures next == old(next) + if leader then 1 else 0
    {
      if unit in fetched && now - fetched[unit] < lim.ttl {
        return null, false, None;
      }
      if unit in failures && now - failures[unit].at < lim.failureTTL {
        return null, false, Some(failures[unit].err);
      }
      failures := failures - {unit};
      if unit in inflight {
        return inflight[unit], false, None;
      }
      flight := new FetchFlight(next);
      NumbersChange(inflight, unit, flight);
      inflight := inflight[unit := flight];
      next := next + 1;
      return flight, true, None;
    }

    /** Called once by a flight's leader, with what it fetched or the error it met. */
    method Complete(unit: Key, found: Listing, flight: FetchFlight, err: Option<string>, now: Time)
      returns (ghost gone: set<Key>)
      requires Valid() && unit in inflight && inflight[unit] == flight && !flight.done
      modifies this, flight
      ensures Valid() && flight.done && flight.err == err && next == old(next)
      ensures LandedWithin(lim.capacity, Landed(old(St()), unit, found, err, now), gone, St())
    {
      Land(unit, found, flight, err, now);
      gone := EvictOCI();
      flight.done := true;
    }

    /** The part of a completion before the eviction. */
    method Land(unit: Key, found: Listing, flight: FetchFlight, err: Option<string>, now: Time)
      requires Valid() && unit in inflight && inflight[unit] == flight
      modifies this, flight`err
      ensures Valid() && flight.err == err && next == old(next)
      ensures St() == Landed(old(St()), unit, found, err, now)
    {
      NumbersChange(inflight, unit, flight);
      inflight := inflight - {unit};
      flight.err := err;
      if err.Some? {
        failures := failures[unit := FailedFetch(err.value, now)];
        return;
      }
      failures := failures - {unit};
      fetched := fetched[unit := now];
      Keep(unit.repo, found);
    }

    method Keep(repo: Repo, found: Listing)
      modifies this`lists, this`catalog
      ensures lists == KeptLists(old(lists), repo, found.versions)
      ensures catalog == if found.charts.Some? then old(catalog)[repo := found.charts.value] else old(catalog)
    {
      lists := KeepEach(lists, repo, found.versions);
      if found.charts.Some? {
        catalog := catalog[repo := found.charts.value];
      }
    }

    /** Drops the oldest OCI chart until they fit; every round drops one. */
    method EvictOCI() returns (ghost gone: set<Key>)
      modifies this`fetched, this`failures, this`lists
      ensures LandedWithin(lim.capacity, old(St()), gone, St())
    {
      ghost var was := St();
      ghost var units := OciUnits(fetched, failures);
      gone := {};
      NothingDropped(was);
      while true
        invariant Dropping(lim.capacity, was.fetched, was.failures, gone) && Dropped(was, gone)
        decreases |units - gone|
      {
        Remaining(was.fetched, was.failures, gone);
        var seen := OciAccessTimes();
        assert |seen| == |seen.Keys|;
        if |seen| <= lim.capacity {
          DroppedEnough(lim.capacity, was, gone, St());
          return;
        }
        gone := DropOldest(seen, was, gone);
      }
    }

    ghost predicate Dropped(was: State, gone: set<Key>)
      reads this
    {
      fetched == was.fetched - gone && failures == was.failures - gone && lists == was.lists - gone
    }

    method DropOldest(seen: map<Key, Time>, ghost was: State, ghost gone: set<Key>) returns (ghost more: set<Key>)
      requires Dropping(lim.capacity, was.fetched, was.failures, gone) && Dropped(was, gone)
      requires seen.Keys == OciUnits(was.fetched, was.failures) - gone && |seen.Keys| > lim.capacity
      requires forall u | u in seen :: seen[u] == TouchedAt(was.fetched, was.failures, u)
      modifies this`fetched, this`failures, this`lists
      ensures Dropping(lim.capacity, was.fetched, was.failures, more) && Dropped(was, more)
      ensures |OciUnits(was.fetched, was.failures) - more| < |OciUnits(was.fetched, was.failures) - gone|
    {
      var oldest := OldestChartKey(seen);
      DropOne(lim.capacity, was.fetched, was.failures, gone, oldest);
      fetched := fetched - {oldest};
      failures := failures - {oldest};
      lists := lists - {oldest};
      more := gone + {oldest};
      assert OciUnits(was.fetched, was.failures) - more == seen.Keys - {oldest};
      WithoutOneMore(was, gone, oldest);
    }

    method OciAccessTimes() returns (seen: map<Key, Time>)
      ensures seen.Keys == OciUnits(fetched, failures)
      ensures forall u | u in seen :: seen[u] == TouchedAt(fetched, failures, u)
    {
      seen := map[];
      var left := fetched.Keys;
      while left != {}
        invariant left <= fetched.Keys
        invariant seen.Keys == set u | u in fetched && u !in left && OciChart(u)
        invariant forall u | u in seen :: seen[u] == fetched[u]
        decreases |left|
      {
        var unit :| unit in left;
        left := left - {unit};
        if unit.repo.oci && unit.chart != "" {
          seen := seen[unit := fetched[unit]];
        }
      }
      left := failures.Keys;
      while left != {}
        invariant left <= failures.Keys
        invariant forall u :: u in seen <==> OciChart(u) && (u in fetched || (u in failures && u !in left))
        invariant forall u | u in seen :: seen[u] == if u in failures && u !in left then failures[u].at else fetched[u]
        decreases |left|
      {
        var unit :| unit in left;
        left := left - {unit};
        if unit.repo.oci && unit.chart != "" {
          seen := seen[unit := failures[unit].at];
        }
      }
    }
  }

  method OldestChartKey(seen: map<Key, Time>) returns (oldest: Key)
    requires seen != map[]
    ensures oldest in seen && forall u | u in seen :: seen[oldest] <= seen[u]
  {
    oldest :| oldest in seen;
    var oldestAt := seen[oldest];
    var left := seen.Keys - {oldest};
    while left != {}
      invariant left <= seen.Keys && oldest in seen && oldestAt == seen[oldest]
      invariant forall u | u in seen && u !in left :: oldestAt <= seen[u]
      decreases |left|
    {
      var unit :| unit in left;
      left := left - {unit};
      if seen[unit] < oldestAt {
        oldest, oldestAt := unit, seen[unit];
      }
    }
  }
}
