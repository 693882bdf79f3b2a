/** Verifying logout tokens (internal/auth/logoutlimits.go). */
module LogoutLimits {
  // The budget for verifying back-channel logout tokens: concurrency caps, sliding-window rates,
  // a cooldown after a failure, and a bounded table of per-source histories from which idle
  // sources are evicted.

  import opened Sizes

  /** Nanoseconds on a clock that never runs backwards. */
  type Time = int

  /** The zero `time.Time`, which no clock reading precedes. */
  const ZERO_TIME: Time := 0

  datatype Limits = Limits(
    globalConcurrent: int,
    sourceConcurrent: int,
    globalRate: int,
    sourceRate: int,
    sourceCapacity: int,
    window: int,
    cooldown: int)

  const SHIPPED := Limits(4, 2, 32, 8, 1024, 60_000_000_000, 5_000_000_000)

  datatype SourceWindow = SourceWindow(events: seq<Time>, last: Time, used: int)

  datatype State = State(used: int, events: seq<Time>, sources: map<string, SourceWindow>, failureUntil: Time)

  const EMPTY := State(0, [], map[], ZERO_TIME)

  // ---------------------------------------------------------------------------
  // What one call does
  // ---------------------------------------------------------------------------

  /** The events left once the leading ones that are no later than `cutoff` are dropped. */
  function Recent(events: seq<Time>, cutoff: Time): seq<Time> {
    if events == [] || events[0] > cutoff then events else Recent(events[1..], cutoff)
  }

  /** A Go map lookup: the zero window for a source the table does not hold. */
  function Held(st: State, source: string): SourceWindow {
    if source in st.sources then st.sources[source] else SourceWindow([], ZERO_TIME, 0)
  }

  predicate Admits(lim: Limits, st: State, source: string, now: Time) {
    && st.used < lim.globalConcurrent
    && Held(st, source).used < lim.sourceConcurrent
    && |Recent(st.events, now - lim.window)| < lim.globalRate
    && |Recent(Held(st, source).events, now - lim.window)| < lim.sourceRate
  }

  /** `gone` is an idle source that was used no later than any other idle source. */
  predicate OldestIdle(sources: map<string, SourceWindow>, gone: string) {
    && gone in sources
    && sources[gone].used <= 0
    && (forall s | s in sources && sources[s].used <= 0 :: sources[gone].last <= sources[s].last)
  }

  /** `room` is a table with space for one more source, reached from `sources` by evicting at most one. */
  ghost predicate MadeRoom(lim: Limits, sources: map<string, SourceWindow>, room: map<string, SourceWindow>) {
    if |sources| < lim.sourceCapacity then room == sources
    else exists gone :: OldestIdle(sources, gone) && room == sources - {gone}
  }

  /** The table is full and every source in it is busy. */
  predicate NoRoom(lim: Limits, sources: map<string, SourceWindow>) {
    |sources| >= lim.sourceCapacity && forall s | s in sources :: sources[s].used > 0
  }

  function Admitted(lim: Limits, st: State, room: map<string, SourceWindow>, source: string, now: Time): State {
    var held := Held(st, source);
    var events := Recent(held.events, now - lim.window) + [now];
    State(st.used + 1,
          Recent(st.events, now - lim.window) + [now],
          room[source := SourceWindow(events, now, held.used + 1)],
          st.failureUntil)
  }

  ghost predicate ClaimStep(lim: Limits, st: State, after: State, source: string, now: Time, ok: bool) {
    if now < st.failureUntil then !ok && after == st
    else if ok then
      && Admits(lim, st, source, now)
      && if source in st.sources then after == Admitted(lim, st, st.sources, source, now)
         else exists room :: MadeRoom(lim, st.sources, room) && after == Admitted(lim, st, room, source, now)
    else
      && after == st.(events := Recent(st.events, now - lim.window))
      && (Admits(lim, st, source, now) ==> source !in st.sources && NoRoom(lim, st.sources))
  }

  function Released(st: State, source: string): State {
    var held := Held(st, source);
    st.(used := st.used - 1, sources := st.sources[source := held.(used := held.used - 1)])
  }

  // ---------------------------------------------------------------------------
  // Whole runs
  // ---------------------------------------------------------------------------

  datatype AcceptedClaim = AcceptedClaim(source: string, at: Time)

  /** The budget together with what an outside observer has seen: every claim ever accepted,
      the sources of the claims not yet released (a claim goes by its place in `log`), and the
      last clock reading. */
  datatype World = World(st: State, log: seq<AcceptedClaim>, tickets: map<nat, string>, clock: Time)

  datatype Action = TryClaim(source: string, ok: bool) | Release(ticket: nat) | Fail

  ghost predicate ClaimNext(lim: Limits, w: World, source: string, ok: bool, w': World) {
    && source != ""
    && ClaimStep(lim, w.st, w'.st, source, w'.clock, ok)
    && w'.log == (if ok then w.log + [AcceptedClaim(source, w'.clock)] else w.log)
    && w'.tickets == (if ok then w.tickets[|w.log| := source] else w.tickets)
  }

  /** A release needs an open claim, since its closure acts only once. */
  ghost predicate ReleaseNext(w: World, ticket: nat, w': World) {
    && ticket in w.tickets
    && w'.st == Released(w.st, w.tickets[ticket])
    && w'.log == w.log
    && w'.tickets == w.tickets - {ticket}
  }

  ghost predicate FailNext(lim: Limits, w: World, w': World) {
    && w'.st == w.st.(failureUntil := w'.clock + lim.cooldown)
    && w'.log == w.log
    && w'.tickets == w.tickets
  }

  /** One atomic step, at the time the clock then reads. */
  ghost predicate Next(lim: Limits, w: World, a: Action, w': World) {
    && w.clock <= w'.clock
    && match a
       case TryClaim(source, ok) => ClaimNext(lim, w, source, ok, w')
       case Release(ticket) => ReleaseNext(w, ticket, w')
       case Fail => FailNext(lim, w, w')
  }

  ghost predicate Run(lim: Limits, ws: seq<World>, acts: seq<Action>) {
    && |ws| == |acts| + 1
    && ws[0].st == EMPTY && ws[0].log == [] && ws[0].tickets == map[] && ws[0].clock >= ZERO_TIME
    && forall i | 0 <= i < |acts| :: Next(lim, ws[i], acts[i], ws[i + 1])
  }

  function Times(log: seq<AcceptedClaim>): seq<Time> {
    if log == [] then [] else Times(log[..|log| - 1]) + [log[|log| - 1].at]
  }

  function TimesOf(log: seq<AcceptedClaim>, source: string): seq<Time> {
    if log == [] then []
    else
      var last := log[|log| - 1];
      TimesOf(log[..|log| - 1], source) + (if last.source == source then [last.at] else [])
  }

  /** How many of `ts` lie in the window (lo, hi]. */
  function CountIn(ts: seq<Time>, lo: Time, hi: Time): nat {
    if ts == [] then 0
    else CountIn(ts[..|ts| - 1], lo, hi) + (if lo < ts[|ts| - 1] <= hi then 1 else 0)
  }

  /** How many of `ts` lie in the window of the given length that ends at `end`. */
  function InWindow(ts: seq<Time>, window: int, end: Time): nat {
    CountIn(ts, end - window, end)
  }

  /** No window, wherever it ends, holds more than `rate` of `ts`. */
  ghost predicate Throttled(ts: seq<Time>, rate: int, window: int) {
    forall end: Time :: InWindow(ts, window, end) <= rate
  }

  predicate UpTo(ts: seq<Time>, bound: Time) {
    forall i | 0 <= i < |ts| :: ts[i] <= bound
  }

  /** How many of the claims numbered below `n` are open and belong to `source`. */
  function OpenOf(tickets: map<nat, string>, source: string, n: nat): nat {
    if n == 0 then 0
    else OpenOf(tickets, source, n - 1) + (if n - 1 in tickets && tickets[n - 1] == source then 1 else 0)
  }

  predicate PastOnly(log: seq<AcceptedClaim>, clock: Time) {
    forall i | 0 <= i < |log| :: log[i].at <= clock
  }

  // ---------------------------------------------------------------------------
  // Limits that do what they are for
  // ---------------------------------------------------------------------------

  /** The limits are numbers of claims and of sources. */
  predicate Counts(lim: Limits) {
    && lim.globalConcurrent >= 0 && lim.sourceConcurrent >= 0
    && lim.globalRate >= 0 && lim.sourceRate >= 0
    && lim.sourceCapacity >= 0
  }

  /** No limit refuses everything. */
  predicate Admissible(lim: Limits) {
    lim.globalConcurrent >= 1 && lim.sourceConcurrent >= 1 && lim.globalRate >= 1 && lim.sourceRate >= 1
  }

  /** How many sources of a full table are idle besides the one evicted, when one more claim is
      to be let in. */
  function Spare(lim: Limits): nat {
    if lim.sourceCapacity > lim.globalConcurrent then lim.sourceCapacity - lim.globalConcurrent else 0
  }

  predicate Evicts(lim: Limits) {
    Admissible(lim) && lim.sourceCapacity >= 1 && lim.window >= 1
  }

  /** A source has to be forgotten to get past its own rate, and forgetting it takes up the global
      rate: one claim of its own, one of each source that pushes it out, and its whole rate anew. */
  predicate KeepsSourceRate(lim: Limits) {
    Evicts(lim) ==> lim.globalRate <= lim.sourceRate + 1 + Spare(lim)
  }

  /** The global rate is used up before a source used inside the window is the oldest idle one. */
  predicate ForgetsNothing(lim: Limits) {
    Evicts(lim) ==> lim.globalRate <= 1 + Spare(lim)
  }

  /** A table of busy sources only is full no sooner than the global cap. */
  predicate NeverCrowded(lim: Limits) {
    Admissible(lim) ==> lim.globalConcurrent <= lim.sourceCapacity
  }

  /** `kept` is what is left of `full` after forgetting only events at or before `horizon`. */
  ghost predicate Tracks(kept: seq<Time>, full: seq<Time>, horizon: Time) {
    && |kept| <= |full|
    && kept == full[|full| - |kept|..]
    && UpTo(full[..|full| - |kept|], horizon)
  }

  /** A history the rate is judged by: `kept` stands for all of `full`, which never broke the rate. */
  ghost predicate Faithful(kept: seq<Time>, full: seq<Time>, now: Time, rate: int, window: int) {
    Tracks(kept, full, now - window) && Throttled(full, rate, window)
  }

  /** The table knows when it last let a source in. */
  ghost predicate LastKnown(w: World, s: string) {
    s in w.st.sources ==>
      && AcceptedClaim(s, w.st.sources[s].last) in w.log
      && UpTo(TimesOf(w.log, s), w.st.sources[s].last)
  }

  /** The claims of other sources no earlier than `from`. */
  function Since(log: seq<AcceptedClaim>, source: string, from: Time): seq<AcceptedClaim> {
    if log == [] then []
    else
      var last := log[|log| - 1];
      Since(log[..|log| - 1], source, from) + (if last.source != source && last.at >= from then [last] else [])
  }

  function Later(a: Time, b: Time): Time {
    if a < b then b else a
  }

  /** `kept` lacks nothing of a source after `from`; and where that is inside the window, enough
      other sources have been let in since. */
  ghost predicate RecallsFrom(lim: Limits, log: seq<AcceptedClaim>, s: string, kept: seq<Time>, now: Time, from: Time) {
    && Tracks(kept, TimesOf(log, s), Later(from, now - lim.window))
    && (from > now - lim.window ==> |Since(log, s, from)| > Spare(lim))
  }

  ghost predicate Recalls(lim: Limits, log: seq<AcceptedClaim>, s: string, kept: seq<Time>, now: Time) {
    exists from: Time :: RecallsFrom(lim, log, s, kept, now, from)
  }

  /** What the table says about one source, the sources it has forgotten included. */
  ghost predicate SourceInv(lim: Limits, w: World, s: string) {
    && Held(w.st, s).used == OpenOf(w.tickets, s, |w.log|) <= lim.sourceConcurrent
    && Recalls(lim, w.log, s, Held(w.st, s).events, w.clock)
    && LastKnown(w, s)
  }

  ghost predicate Totals(lim: Limits, w: World) {
    && w.st.used == |w.tickets| <= lim.globalConcurrent
    && (forall t | t in w.tickets :: t < |w.log|)
    && |w.st.sources| <= lim.sourceCapacity
    && "" !in w.st.sources
    && PastOnly(w.log, w.clock)
    && Faithful(w.st.events, Times(w.log), w.clock, lim.globalRate, lim.window)
  }

  ghost predicate Inv(lim: Limits, w: World) {
    Totals(lim, w) && forall s :: SourceInv(lim, w, s)
  }

  // ---------------------------------------------------------------------------
  // Sliding windows
  // ---------------------------------------------------------------------------

  lemma {:induction false} RecentTracks(kept: seq<Time>, full: seq<Time>, cutoff: Time, horizon: Time)
    requires Tracks(kept, full, horizon) && cutoff <= horizon
    ensures Tracks(Recent(kept, cutoff), full, horizon)
    decreases |kept|
  {
    if kept != [] && kept[0] <= cutoff {
      assert kept[0] == full[|full| - |kept|];
      assert kept[1..] == full[|full| - |kept[1..]|..];
      assert Tracks(kept[1..], full, horizon);
      RecentTracks(kept[1..], full, cutoff, horizon);
    }
  }

  lemma TracksLater(kept: seq<Time>, full: seq<Time>, before: Time, horizon: Time)
    requires Tracks(kept, full, before) && before <= horizon
    ensures Tracks(kept, full, horizon)
  {}

  lemma TracksAppend(kept: seq<Time>, full: seq<Time>, horizon: Time, now: Time)
    requires Tracks(kept, full, horizon)
    ensures Tracks(kept + [now], full + [now], horizon)
  {
    assert (full + [now])[..|full| - |kept|] == full[..|full| - |kept|];
  }

  lemma {:induction false} CountSplit(a: seq<Time>, b: seq<Time>, lo: Time, hi: Time)
    ensures CountIn(a + b, lo, hi) == CountIn(a, lo, hi) + CountIn(b, lo, hi)
    decreases |b|
  {
    if b == [] {
      assert a + b == a;
    } else {
      assert (a + b)[..|a + b| - 1] == a + b[..|b| - 1];
      CountSplit(a, b[..|b| - 1], lo, hi);
    }
  }

  lemma {:induction false} CountBounds(ts: seq<Time>, lo: Time, hi: Time)
    ensures CountIn(ts, lo, hi) <= |ts|
    ensures UpTo(ts, lo) ==> CountIn(ts, lo, hi) == 0
  {
    if ts != [] {
      CountBounds(ts[..|ts| - 1], lo, hi);
    }
  }

  /** Whatever was forgotten lies outside the window, so the kept part bounds the count. */
  lemma TracksCount(kept: seq<Time>, full: seq<Time>, horizon: Time, hi: Time)
    requires Tracks(kept, full, horizon)
    ensures CountIn(full, horizon, hi) <= |kept|
  {
    var dropped := full[..|full| - |kept|];
    assert full == dropped + kept;
    CountSplit(dropped, kept, horizon, hi);
    CountBounds(dropped, horizon, hi);
    CountBounds(kept, horizon, hi);
  }

  lemma {:induction false} CountMonotone(ts: seq<Time>, lo: Time, hi: Time, lo': Time, hi': Time)
    requires lo <= lo'
    requires UpTo(ts, hi)
    ensures CountIn(ts, lo', hi') <= CountIn(ts, lo, hi)
  {
    if ts != [] {
      CountMonotone(ts[..|ts| - 1], lo, hi, lo', hi');
    }
  }

  /** Accepting one more event at `now` keeps every window within the rate. */
  lemma ThrottledAppend(ts: seq<Time>, now: Time, rate: int, window: int)
    requires Throttled(ts, rate, window) && rate >= 0
    requires UpTo(ts, now)
    requires InWindow(ts, window, now) < rate
    ensures Throttled(ts + [now], rate, window)
  {
    forall end: Time ensures InWindow(ts + [now], window, end) <= rate {
      assert (ts + [now])[..|ts|] == ts;
      assert InWindow(ts, window, end) <= rate;
      if end >= now {
        CountMonotone(ts, now - window, now, end - window, end);
      }
    }
  }

  // ---------------------------------------------------------------------------
  // Why eviction forgets nothing that matters
  // ---------------------------------------------------------------------------

  ghost function Names(log: seq<AcceptedClaim>): set<string> {
    set c | c in log :: c.source
  }

  lemma {:induction false} NamesAtMost(log: seq<AcceptedClaim>)
    ensures |Names(log)| <= |log|
  {
    if log != [] {
      var front, last := log[..|log| - 1], log[|log| - 1];
      NamesAtMost(front);
      assert log == front + [last];
      assert Names(log) == Names(front) + {last.source};
    }
  }

  lemma {:induction false} OpenSourcesAtMost(names: set<string>, tickets: map<nat, string>)
    requires names <= tickets.Values
    ensures |names| <= |tickets|
    decreases |names|
  {
    if names != {} {
      var s :| s in names;
      var t :| t in tickets && tickets[t] == s;
      var rest := tickets - {t};
      assert |rest.Keys| == |tickets.Keys| - 1;
      forall n | n in names - {s} ensures n in rest.Values {
        var u :| u in tickets && tickets[u] == n;
        assert u in rest && rest[u] == n;
      }
      OpenSourcesAtMost(names - {s}, rest);
    }
  }

  lemma {:induction false} OpenOfPositive(tickets: map<nat, string>, source: string, n: nat)
    requires OpenOf(tickets, source, n) > 0
    ensures source in tickets.Values
  {
    if n - 1 in tickets && tickets[n - 1] == source {
    } else {
      OpenOfPositive(tickets, source, n - 1);
    }
  }

  lemma {:induction false} OpenOfAdd(tickets: map<nat, string>, t: nat, source: string, s: string, n: nat)
    requires n <= t
    ensures OpenOf(tickets[t := source], s, n) == OpenOf(tickets, s, n)
  {
    if n > 0 {
      OpenOfAdd(tickets, t, source, s, n - 1);
    }
  }

  lemma {:induction false} OpenOfRemove(tickets: map<nat, string>, t: nat, s: string, n: nat)
    requires t in tickets
    ensures OpenOf(tickets - {t}, s, n) == OpenOf(tickets, s, n) - (if t < n && tickets[t] == s then 1 else 0)
  {
    if n > 0 {
      OpenOfRemove(tickets, t, s, n - 1);
    }
  }

  lemma {:induction false} TimesAre(log: seq<AcceptedClaim>)
    ensures |Times(log)| == |log|
    ensures forall i | 0 <= i < |log| :: Times(log)[i] == log[i].at
  {
    if log != [] {
      TimesAre(log[..|log| - 1]);
    }
  }

  lemma {:induction false} TimesOfIn(log: seq<AcceptedClaim>, s: string, t: Time)
    ensures t in TimesOf(log, s) <==> AcceptedClaim(s, t) in log
  {
    if log != [] {
      TimesOfIn(log[..|log| - 1], s, t);
      assert log == log[..|log| - 1] + [log[|log| - 1]];
    }
  }

  /** The sources used inside the window are no more than the events kept for it. */
  lemma RecentSourcesAtMost(log: seq<AcceptedClaim>, kept: seq<Time>, horizon: Time, names: set<string>)
    requires Tracks(kept, Times(log), horizon)
    requires forall s | s in names :: exists t :: t > horizon && AcceptedClaim(s, t) in log
    ensures |names| <= |kept|
  {
    TimesAre(log);
    var from := |log| - |kept|;
    forall s | s in names ensures s in Names(log[from..]) {
      var t :| t > horizon && AcceptedClaim(s, t) in log;
      var i :| 0 <= i < |log| && log[i] == AcceptedClaim(s, t);
      assert Times(log)[i] == t;
      assert log[from..][i - from] == AcceptedClaim(s, t);
    }
    NamesAtMost(log[from..]);
    SubsetSize(names, Names(log[from..]));
  }

  ghost function Idle(sources: map<string, SourceWindow>): set<string> {
    set s | s in sources && sources[s].used <= 0
  }

  /** Of a full table no more sources are busy than claims are open. */
  lemma IdleEnough(lim: Limits, w: World)
    requires Inv(lim, w) && w.st.used < lim.globalConcurrent
    requires |w.st.sources| >= lim.sourceCapacity
    ensures |Idle(w.st.sources)| > lim.sourceCapacity - lim.globalConcurrent
  {
    var sources := w.st.sources;
    var busy := set s | s in sources && sources[s].used > 0;
    forall s | s in busy ensures s in w.tickets.Values {
      assert SourceInv(lim, w, s);
      OpenOfPositive(w.tickets, s, |w.log|);
    }
    OpenSourcesAtMost(busy, w.tickets);
    assert Idle(sources) == sources.Keys - busy && busy <= sources.Keys;
    assert |sources.Keys| == |sources|;
  }

  /** What is known of the sources of a full table when the oldest idle one has to go: it has no
      open claim, and all idle ones were let in no earlier. */
  lemma OldestOfMany(lim: Limits, w: World, gone: string)
    requires Inv(lim, w) && w.st.used < lim.globalConcurrent
    requires |w.st.sources| >= lim.sourceCapacity && OldestIdle(w.st.sources, gone)
    ensures gone in Idle(w.st.sources) && |Idle(w.st.sources)| > Spare(lim)
    ensures OpenOf(w.tickets, gone, |w.log|) == 0 && UpTo(TimesOf(w.log, gone), w.st.sources[gone].last)
    ensures forall s | s in Idle(w.st.sources) ::
      w.st.sources[gone].last <= w.st.sources[s].last && AcceptedClaim(s, w.st.sources[s].last) in w.log
  {
    var idle := Idle(w.st.sources);
    IdleEnough(lim, w);
    assert gone in idle && SourceInv(lim, w, gone);
    assert |{gone}| == 1 && {gone} <= idle;
    SubsetSize({gone}, idle);
    forall s | s in idle ensures AcceptedClaim(s, w.st.sources[s].last) in w.log {
      assert SourceInv(lim, w, s);
    }
  }

  lemma SpareSourcesAreRecent(lim: Limits, w: World, now: Time, gone: string)
    requires Inv(lim, w) && w.clock <= now && w.st.used < lim.globalConcurrent
    requires |w.st.sources| >= lim.sourceCapacity && OldestIdle(w.st.sources, gone)
    requires w.st.sources[gone].last > now - lim.window
    ensures |Recent(w.st.events, now - lim.window)| > Spare(lim)
  {
    var horizon := now - lim.window;
    OldestOfMany(lim, w, gone);
    TracksLater(w.st.events, Times(w.log), w.clock - lim.window, horizon);
    RecentTracks(w.st.events, Times(w.log), horizon, horizon);
    RecentSourcesAtMost(w.log, Recent(w.st.events, horizon), horizon, Idle(w.st.sources));
  }

  /** While the limits forget nothing, a source that has to go has no claim left inside the
      window, and none open. */
  lemma EvictionForgetsNothing(lim: Limits, w: World, source: string, now: Time, gone: string)
    requires Counts(lim) && ForgetsNothing(lim) && Inv(lim, w) && w.clock <= now
    requires Admits(lim, w.st, source, now)
    requires |w.st.sources| >= lim.sourceCapacity && OldestIdle(w.st.sources, gone)
    ensures OpenOf(w.tickets, gone, |w.log|) == 0 && UpTo(TimesOf(w.log, gone), now - lim.window)
  {
    OldestOfMany(lim, w, gone);
    SubsetSize({gone}, w.st.sources.Keys);
    assert AcceptedClaim(gone, w.st.sources[gone].last) in w.log && SourceInv(lim, w, source);
    assert Admissible(lim) && w.st.sources[gone].last <= now;
    assert |w.st.sources.Keys| == |w.st.sources| && lim.sourceCapacity >= 1;
    if w.st.sources[gone].last > now - lim.window {
      SpareSourcesAreRecent(lim, w, now, gone);
      assert false;
    }
  }

  /** A table as large as the global cap always has an idle source to forget. */
  lemma FullTableHasIdle(lim: Limits, w: World) returns (oldest: string)
    requires Inv(lim, w) && w.st.used < lim.globalConcurrent <= lim.sourceCapacity
    requires |w.st.sources| >= lim.sourceCapacity
    ensures OldestIdle(w.st.sources, oldest)
  {
    IdleEnough(lim, w);
    oldest := OldestExists(w.st.sources, Idle(w.st.sources));
  }

  lemma {:induction false} OldestExists(sources: map<string, SourceWindow>, among: set<string>)
    returns (oldest: string)
    requires among != {} && among <= sources.Keys
    ensures oldest in among && forall s | s in among :: sources[oldest].last <= sources[s].last
    decreases |among|
  {
    oldest :| oldest in among;
    if among != {oldest} {
      var rest := OldestExists(sources, among - {oldest});
      if sources[rest].last < sources[oldest].last {
        oldest := rest;
      }
    }
  }

  // ---------------------------------------------------------------------------
  // Every step keeps the invariant
  // ---------------------------------------------------------------------------

  lemma SourceTimesAppend(log: seq<AcceptedClaim>, c: AcceptedClaim, s: string)
    ensures TimesOf(log + [c], s) == TimesOf(log, s) + (if c.source == s then [c.at] else [])
    ensures Times(log + [c]) == Times(log) + [c.at]
  {
    assert (log + [c])[..|log|] == log;
  }

  lemma TimesUpTo(log: seq<AcceptedClaim>, s: string, bound: Time)
    requires PastOnly(log, bound)
    ensures UpTo(Times(log), bound) && UpTo(TimesOf(log, s), bound)
  {
    TimesAre(log);
    forall i | 0 <= i < |TimesOf(log, s)| ensures TimesOf(log, s)[i] <= bound {
      TimesOfIn(log, s, TimesOf(log, s)[i]);
    }
  }

  /** A history stays faithful as time passes, and as one more event is accepted. */
  lemma HistoryAges(kept: seq<Time>, full: seq<Time>, before: Time, now: Time, rate: int, window: int)
    requires Faithful(kept, full, before, rate, window) && before <= now
    ensures Faithful(kept, full, now, rate, window)
    ensures Faithful(Recent(kept, now - window), full, now, rate, window)
  {
    TracksLater(kept, full, before - window, now - window);
    RecentTracks(kept, full, now - window, now - window);
  }

  lemma HistoryAppend(kept: seq<Time>, full: seq<Time>, before: Time, now: Time, rate: int, window: int)
    requires Faithful(kept, full, before, rate, window) && before <= now
    requires rate >= 0 && UpTo(full, now)
    requires |Recent(kept, now - window)| < rate
    ensures Faithful(Recent(kept, now - window) + [now], full + [now], now, rate, window)
  {
    HistoryAges(kept, full, before, now, rate, window);
    var recent := Recent(kept, now - window);
    TracksCount(recent, full, now - window, now);
    ThrottledAppend(full, now, rate, window);
    assert (full + [now])[..|full + [now]| - |recent + [now]|] == full[..|full| - |recent|];
  }

  function Accepted(lim: Limits, w: World, room: map<string, SourceWindow>, source: string, now: Time): World {
    World(Admitted(lim, w.st, room, source, now), w.log + [AcceptedClaim(source, now)],
          w.tickets[|w.log| := source], now)
  }

  /** The table an accepted claim is written into. */
  ghost predicate Room(lim: Limits, st: State, source: string, room: map<string, SourceWindow>) {
    if source in st.sources then room == st.sources else MadeRoom(lim, st.sources, room)
  }

  lemma RoomForAccepted(lim: Limits, w: World, source: string, w': World)
    returns (room: map<string, SourceWindow>)
    requires Totals(lim, w) && Next(lim, w, TryClaim(source, true), w')
    ensures Room(lim, w.st, source, room) && w' == Accepted(lim, w, room, source, w'.clock)
    ensures (source in room || |room| < lim.sourceCapacity) && |room| <= lim.sourceCapacity && "" !in room
  {
    if source in w.st.sources {
      room := w.st.sources;
    } else {
      room :| MadeRoom(lim, w.st.sources, room) && w'.st == Admitted(lim, w.st, room, source, w'.clock);
      if |w.st.sources| >= lim.sourceCapacity {
        var gone :| OldestIdle(w.st.sources, gone) && room == w.st.sources - {gone};
        DroppedSize(w.st.sources, gone);
      }
    }
  }

  lemma SinceAppend(log: seq<AcceptedClaim>, c: AcceptedClaim, s: string, from: Time)
    ensures Since(log + [c], s, from) == Since(log, s, from) + (if c.source != s && c.at >= from then [c] else [])
  {
    assert (log + [c])[..|log|] == log;
  }

  lemma {:induction false} SinceHolds(log: seq<AcceptedClaim>, s: string, from: Time, c: AcceptedClaim)
    ensures c in Since(log, s, from) <==> c in log && c.source != s && c.at >= from
  {
    if log != [] {
      SinceHolds(log[..|log| - 1], s, from, c);
      assert log == log[..|log| - 1] + [log[|log| - 1]];
    }
  }

  /** Sources let in since then are no more than their claims. */
  lemma OthersAtMost(log: seq<AcceptedClaim>, s: string, from: Time, names: set<string>)
    requires forall x | x in names :: x != s && exists t :: t >= from && AcceptedClaim(x, t) in log
    ensures |names| <= |Since(log, s, from)|
  {
    forall x | x in names ensures x in Names(Since(log, s, from)) {
      var t :| t >= from && AcceptedClaim(x, t) in log;
      SinceHolds(log, s, from, AcceptedClaim(x, t));
    }
    NamesAtMost(Since(log, s, from));
    SubsetSize(names, Names(Since(log, s, from)));
  }

  /** What is recalled stays recalled as time passes. */
  lemma RecallsAges(lim: Limits, log: seq<AcceptedClaim>, s: string, kept: seq<Time>, before: Time, now: Time)
    requires Recalls(lim, log, s, kept, before) && before <= now
    ensures Recalls(lim, log, s, kept, now)
  {
    var from: Time :| RecallsFrom(lim, log, s, kept, before, from);
    TracksLater(kept, TimesOf(log, s), Later(from, before - lim.window), Later(from, now - lim.window));
    assert RecallsFrom(lim, log, s, kept, now, from);
  }

  lemma RecallsOwn(lim: Limits, log: seq<AcceptedClaim>, s: string, kept: seq<Time>, now: Time)
    requires Recalls(lim, log, s, kept, now)
    ensures Recalls(lim, log + [AcceptedClaim(s, now)], s, Recent(kept, now - lim.window) + [now], now)
  {
    var from: Time :| RecallsFrom(lim, log, s, kept, now, from);
    var horizon, recent := Later(from, now - lim.window), Recent(kept, now - lim.window);
    RecentTracks(kept, TimesOf(log, s), now - lim.window, horizon);
    TracksAppend(recent, TimesOf(log, s), horizon, now);
    SourceTimesAppend(log, AcceptedClaim(s, now), s);
    SinceAppend(log, AcceptedClaim(s, now), s, from);
    assert RecallsFrom(lim, log + [AcceptedClaim(s, now)], s, recent + [now], now, from);
  }

  lemma RecallsOther(lim: Limits, log: seq<AcceptedClaim>, s: string, kept: seq<Time>, now: Time, c: AcceptedClaim)
    requires Recalls(lim, log, s, kept, now) && c.source != s
    ensures Recalls(lim, log + [c], s, kept, now)
  {
    var from: Time :| RecallsFrom(lim, log, s, kept, now, from);
    SourceTimesAppend(log, c, s);
    SinceAppend(log, c, s, from);
    assert RecallsFrom(lim, log + [c], s, kept, now, from);
  }

  /** A source pushed out of the table has left it to as many others as the table has to spare. */
  lemma ForgottenRecalls(lim: Limits, w: World, gone: string, source: string, now: Time)
    requires Inv(lim, w) && w.clock <= now && w.st.used < lim.globalConcurrent
    requires |w.st.sources| >= lim.sourceCapacity && OldestIdle(w.st.sources, gone) && source !in w.st.sources
    ensures Recalls(lim, w.log + [AcceptedClaim(source, now)], gone, [], now)
    ensures OpenOf(w.tickets, gone, |w.log|) == 0
  {
    var c, from := AcceptedClaim(source, now), w.st.sources[gone].last;
    var idle := Idle(w.st.sources);
    OldestOfMany(lim, w, gone);
    var names := idle - {gone} + {source};
    assert |names| == |idle|;
    forall x | x in names ensures x != gone && exists t :: t >= from && AcceptedClaim(x, t) in w.log + [c] {
      var t := if x == source then now else w.st.sources[x].last;
      assert AcceptedClaim(gone, from) in w.log;
      assert t >= from && AcceptedClaim(x, t) in w.log + [c];
    }
    OthersAtMost(w.log + [c], gone, from, names);
    SourceTimesAppend(w.log, c, gone);
    assert RecallsFrom(lim, w.log + [c], gone, [], now, from);
  }

  lemma AcceptKeepsOwn(lim: Limits, w: World, room: map<string, SourceWindow>, s: string, w': World)
    requires SourceInv(lim, w, s) && w.clock <= w'.clock && PastOnly(w.log, w.clock)
    requires Admits(lim, w.st, s, w'.clock)
    requires w' == Accepted(lim, w, room, s, w'.clock)
    ensures SourceInv(lim, w', s)
  {
    var now := w'.clock;
    RecallsAges(lim, w.log, s, Held(w.st, s).events, w.clock, now);
    RecallsOwn(lim, w.log, s, Held(w.st, s).events, now);
    assert w'.log[|w.log|] == AcceptedClaim(s, now);
    TimesUpTo(w.log, s, now);
    SourceTimesAppend(w.log, AcceptedClaim(s, now), s);
    OpenOfAdd(w.tickets, |w.log|, s, s, |w.log|);
  }

  lemma AcceptKeepsKept(lim: Limits, w: World, room: map<string, SourceWindow>, source: string, w': World, s: string)
    requires s != source && SourceInv(lim, w, s) && w.clock <= w'.clock
    requires w' == Accepted(lim, w, room, source, w'.clock)
    requires (s in room <==> s in w.st.sources) && (s in room ==> room[s] == w.st.sources[s])
    ensures SourceInv(lim, w', s)
  {
    SourceTimesAppend(w.log, AcceptedClaim(source, w'.clock), s);
    assert Held(w'.st, s) == Held(w.st, s);
    RecallsAges(lim, w.log, s, Held(w.st, s).events, w.clock, w'.clock);
    RecallsOther(lim, w.log, s, Held(w.st, s).events, w'.clock, AcceptedClaim(source, w'.clock));
    OpenOfAdd(w.tickets, |w.log|, source, s, |w.log|);
    assert forall c | c in w.log :: c in w'.log;
  }

  lemma AcceptKeepsOther(lim: Limits, w: World, room: map<string, SourceWindow>, source: string, w': World, s: string)
    requires s != source && Inv(lim, w) && w.clock <= w'.clock && w.st.used < lim.globalConcurrent
    requires Room(lim, w.st, source, room) && w' == Accepted(lim, w, room, source, w'.clock)
    ensures SourceInv(lim, w', s)
  {
    assert SourceInv(lim, w, s);
    if s in w.st.sources && s !in room {
      assert OldestIdle(w.st.sources, s) && |w.st.sources| >= lim.sourceCapacity && source !in w.st.sources;
      ForgottenRecalls(lim, w, s, source, w'.clock);
      OpenOfAdd(w.tickets, |w.log|, source, s, |w.log|);
      assert Held(w'.st, s) == SourceWindow([], ZERO_TIME, 0);
    } else {
      AcceptKeepsKept(lim, w, room, source, w', s);
    }
  }

  lemma AcceptKeepsTotals(lim: Limits, w: World, room: map<string, SourceWindow>, source: string, w': World)
    requires Counts(lim) && Totals(lim, w) && w.clock <= w'.clock && source != ""
    requires Admits(lim, w.st, source, w'.clock)
    requires w' == Accepted(lim, w, room, source, w'.clock)
    requires (source in room || |room| < lim.sourceCapacity) && |room| <= lim.sourceCapacity && "" !in room
    ensures Totals(lim, w')
  {
    var now := w'.clock;
    TimesUpTo(w.log, source, now);
    SourceTimesAppend(w.log, AcceptedClaim(source, now), source);
    HistoryAppend(w.st.events, Times(w.log), w.clock, now, lim.globalRate, lim.window);
    AddedSize(w.tickets, |w.log|, source);
    AddedSize(room, source, w'.st.sources[source]);
  }

  lemma AcceptKeepsInv(lim: Limits, w: World, source: string, w': World)
    requires Counts(lim) && Inv(lim, w)
    requires Next(lim, w, TryClaim(source, true), w')
    ensures Inv(lim, w')
  {
    var room := RoomForAccepted(lim, w, source, w');
    forall s ensures SourceInv(lim, w', s) {
      if s == source {
        assert SourceInv(lim, w, s);
        AcceptKeepsOwn(lim, w, room, s, w');
      } else {
        AcceptKeepsOther(lim, w, room, source, w', s);
      }
    }
    AcceptKeepsTotals(lim, w, room, source, w');
  }

  /** Time passing, a refusal and a failure leave every source as it was. */
  lemma IdleKeepsInv(lim: Limits, w: World, w': World)
    requires Inv(lim, w) && w.clock <= w'.clock
    requires w'.log == w.log && w'.tickets == w.tickets
    requires w'.st.sources == w.st.sources && w'.st.used == w.st.used
    requires w'.st.events == w.st.events || w'.st.events == Recent(w.st.events, w'.clock - lim.window)
    ensures Inv(lim, w')
  {
    HistoryAges(w.st.events, Times(w.log), w.clock, w'.clock, lim.globalRate, lim.window);
    forall s ensures SourceInv(lim, w', s) {
      assert SourceInv(lim, w, s);
      RecallsAges(lim, w.log, s, Held(w.st, s).events, w.clock, w'.clock);
    }
  }

  lemma ReleaseKeepsSource(lim: Limits, w: World, ticket: nat, w': World, s: string)
    requires w.clock <= w'.clock && ReleaseNext(w, ticket, w') && ticket < |w.log|
    requires SourceInv(lim, w, w.tickets[ticket]) && SourceInv(lim, w, s)
    ensures SourceInv(lim, w', s)
  {
    var held := Held(w.st, s);
    RecallsAges(lim, w.log, s, held.events, w.clock, w'.clock);
    assert Held(w'.st, s) == if s == w.tickets[ticket] then held.(used := held.used - 1) else held;
    OpenOfRemove(w.tickets, ticket, s, |w.log|);
    OpenOfRemove(w.tickets, ticket, w.tickets[ticket], |w.log|);
  }

  lemma ReleaseKeepsInv(lim: Limits, w: World, ticket: nat, w': World)
    requires Inv(lim, w) && w.clock <= w'.clock && ReleaseNext(w, ticket, w')
    ensures Inv(lim, w')
  {
    var source := w.tickets[ticket];
    assert SourceInv(lim, w, source);
    OpenOfRemove(w.tickets, ticket, source, |w.log|);
    assert w'.st.sources.Keys == w.st.sources.Keys && |w'.st.sources| == |w'.st.sources.Keys|;
    assert w'.tickets.Keys == w.tickets.Keys - {ticket} && |w'.tickets.Keys| == |w.tickets.Keys| - 1;
    forall s ensures SourceInv(lim, w', s) {
      assert SourceInv(lim, w, s);
      ReleaseKeepsSource(lim, w, ticket, w', s);
    }
  }

  lemma NextKeepsInv(lim: Limits, w: World, a: Action, w': World)
    requires Counts(lim) && Inv(lim, w) && Next(lim, w, a, w')
    ensures Inv(lim, w')
  {
    match a
    case TryClaim(source, ok) =>
      if ok {
        AcceptKeepsInv(lim, w, source, w');
      } else {
        IdleKeepsInv(lim, w, w');
      }
    case Release(ticket) => ReleaseKeepsInv(lim, w, ticket, w');
    case Fail => IdleKeepsInv(lim, w, w');
  }

  // ---------------------------------------------------------------------------
  // Theorems about every run
  // ---------------------------------------------------------------------------

  lemma {:induction false} RunKeepsInv(lim: Limits, ws: seq<World>, acts: seq<Action>, i: nat)
    requires Counts(lim) && Run(lim, ws, acts) && i < |ws|
    ensures Inv(lim, ws[i])
  {
    if i == 0 {
      forall s ensures SourceInv(lim, ws[0], s) {
        assert RecallsFrom(lim, [], s, [], ws[0].clock, ws[0].clock - lim.window);
      }
    } else {
      RunKeepsInv(lim, ws, acts, i - 1);
      assert Next(lim, ws[i - 1], acts[i - 1], ws[i]);
      NextKeepsInv(lim, ws[i - 1], acts[i - 1], ws[i]);
    }
  }

  /** Claims of a source and claims of others since then are different claims. */
  lemma {:induction false} OwnAndOthers(log: seq<AcceptedClaim>, s: string, from: Time, lo: Time, hi: Time)
    requires lo < from && PastOnly(log, hi)
    ensures CountIn(TimesOf(log, s), lo, hi) + |Since(log, s, from)| <= CountIn(Times(log), lo, hi)
  {
    if log != [] {
      var front, last := log[..|log| - 1], log[|log| - 1];
      OwnAndOthers(front, s, from, lo, hi);
      CountSplit(Times(front), [last.at], lo, hi);
      CountSplit(TimesOf(front, s), [last.at], lo, hi);
      assert TimesOf(front, s) + [] == TimesOf(front, s);
    }
  }

  lemma {:induction false} NothingInNoWindow(ts: seq<Time>, window: int, end: Time)
    requires window <= 0
    ensures InWindow(ts, window, end) == 0
  {
    if ts != [] {
      NothingInNoWindow(ts[..|ts| - 1], window, end);
    }
  }

  /** A source that is let in has used less than its rate, forgotten or not. */
  lemma BelowSourceRate(lim: Limits, w: World, s: string, now: Time)
    requires Counts(lim) && KeepsSourceRate(lim) && Inv(lim, w) && w.clock <= now
    requires Admits(lim, w.st, s, now) && lim.sourceCapacity >= 1
    ensures InWindow(TimesOf(w.log, s), lim.window, now) < lim.sourceRate
  {
    var kept, full, horizon := Held(w.st, s).events, TimesOf(w.log, s), now - lim.window;
    assert SourceInv(lim, w, s);
    if lim.window < 1 {
      NothingInNoWindow(full, lim.window, now);
    } else {
      RecallsAges(lim, w.log, s, kept, w.clock, now);
      var from: Time :| RecallsFrom(lim, w.log, s, kept, now, from);
      if from <= horizon {
        RecentTracks(kept, full, horizon, horizon);
        TracksCount(Recent(kept, horizon), full, horizon, now);
      } else {
        HistoryAges(w.st.events, Times(w.log), w.clock, now, lim.globalRate, lim.window);
        TracksCount(Recent(w.st.events, horizon), Times(w.log), horizon, now);
        OwnAndOthers(w.log, s, from, horizon, now);
      }
    }
  }

  lemma NextKeepsSourceRate(lim: Limits, w: World, a: Action, w': World, s: string)
    requires Counts(lim) && KeepsSourceRate(lim) && Inv(lim, w) && Next(lim, w, a, w')
    requires Throttled(TimesOf(w.log, s), lim.sourceRate, lim.window)
    ensures Throttled(TimesOf(w'.log, s), lim.sourceRate, lim.window)
  {
    if a.TryClaim? && a.ok {
      var room := RoomForAccepted(lim, w, a.source, w');
      SourceTimesAppend(w.log, AcceptedClaim(a.source, w'.clock), s);
      if a.source == s {
        BelowSourceRate(lim, w, s, w'.clock);
        TimesUpTo(w.log, s, w'.clock);
        ThrottledAppend(TimesOf(w.log, s), w'.clock, lim.sourceRate, lim.window);
      } else {
        assert TimesOf(w'.log, s) == TimesOf(w.log, s);
      }
    }
  }

  lemma {:induction false} RunKeepsSourceRate(lim: Limits, ws: seq<World>, acts: seq<Action>, i: nat, s: string)
    requires Counts(lim) && KeepsSourceRate(lim) && Run(lim, ws, acts) && i < |ws|
    ensures Throttled(TimesOf(ws[i].log, s), lim.sourceRate, lim.window)
  {
    if i > 0 {
      RunKeepsSourceRate(lim, ws, acts, i - 1, s);
      RunKeepsInv(lim, ws, acts, i - 1);
      assert Next(lim, ws[i - 1], acts[i - 1], ws[i]);
      NextKeepsSourceRate(lim, ws[i - 1], acts[i - 1], ws[i], s);
    }
  }

  /** The global rate holds whatever the size of the table. */
  lemma GlobalRateHoldsOverEveryRun(lim: Limits, ws: seq<World>, acts: seq<Action>, i: nat, end: Time)
    requires Counts(lim) && Run(lim, ws, acts) && i < |ws|
    ensures InWindow(Times(ws[i].log), lim.window, end) <= lim.globalRate
  {
    RunKeepsInv(lim, ws, acts, i);
  }

  /** The main result. Although histories are evicted, no window ending anywhere ever holds
      more accepted claims than the rates allow, overall or for one source. */
  lemma RatesHoldOverEveryRun(lim: Limits, ws: seq<World>, acts: seq<Action>, i: nat, s: string, end: Time)
    requires Counts(lim) && KeepsSourceRate(lim) && Run(lim, ws, acts) && i < |ws|
    ensures InWindow(Times(ws[i].log), lim.window, end) <= lim.globalRate
    ensures InWindow(TimesOf(ws[i].log, s), lim.window, end) <= lim.sourceRate
  {
    GlobalRateHoldsOverEveryRun(lim, ws, acts, i, end);
    RunKeepsSourceRate(lim, ws, acts, i, s);
  }

  /** The counters are exactly the open claims, the caps hold, and a source with an open
      claim is always still in the table. */
  lemma OpenClaimsAreAccountedFor(lim: Limits, ws: seq<World>, acts: seq<Action>, i: nat, s: string)
    requires Counts(lim) && Run(lim, ws, acts) && i < |ws|
    ensures ws[i].st.used == |ws[i].tickets| <= lim.globalConcurrent
    ensures Held(ws[i].st, s).used == OpenOf(ws[i].tickets, s, |ws[i].log|) <= lim.sourceConcurrent
    ensures OpenOf(ws[i].tickets, s, |ws[i].log|) > 0 ==> s in ws[i].st.sources
    ensures |ws[i].st.sources| <= lim.sourceCapacity
  {
    RunKeepsInv(lim, ws, acts, i);
    assert SourceInv(lim, ws[i], s);
  }

  /** A claim is accepted exactly when no cooldown is running and no cap or rate is full:
      the table being full never refuses anybody. */
  lemma RefusedOnlyByLimits(lim: Limits, ws: seq<World>, acts: seq<Action>, i: nat)
    requires Counts(lim) && NeverCrowded(lim) && Run(lim, ws, acts) && i < |acts| && acts[i].TryClaim?
    ensures acts[i].ok <==>
      ws[i + 1].clock >= ws[i].st.failureUntil && Admits(lim, ws[i].st, acts[i].source, ws[i + 1].clock)
  {
    var w, now := ws[i], ws[i + 1].clock;
    RunKeepsInv(lim, ws, acts, i);
    assert Next(lim, w, acts[i], ws[i + 1]);
    if !acts[i].ok && now >= w.st.failureUntil && Admits(lim, w.st, acts[i].source, now) {
      assert SourceInv(lim, w, acts[i].source);
      var idle := FullTableHasIdle(lim, w);
      assert false;
    }
  }

  /** A source that leaves the table has no claim left inside the window. */
  lemma EvictedOnceOutOfTheWindow(lim: Limits, ws: seq<World>, acts: seq<Action>, i: nat, gone: string)
    requires Counts(lim) && ForgetsNothing(lim) && Run(lim, ws, acts) && i < |acts|
    requires gone in ws[i].st.sources && gone !in ws[i + 1].st.sources
    ensures UpTo(TimesOf(ws[i].log, gone), ws[i + 1].clock - lim.window)
  {
    var w, w' := ws[i], ws[i + 1];
    RunKeepsInv(lim, ws, acts, i);
    assert Next(lim, w, acts[i], w');
    if acts[i].TryClaim? && acts[i].ok {
      var room := RoomForAccepted(lim, w, acts[i].source, w');
      assert OldestIdle(w.st.sources, gone) && |w.st.sources| >= lim.sourceCapacity;
      EvictionForgetsNothing(lim, w, acts[i].source, w'.clock, gone);
    }
  }

  lemma {:induction false} CooldownOnlyGrows(lim: Limits, ws: seq<World>, acts: seq<Action>, i: nat, j: nat)
    requires Run(lim, ws, acts) && i < j < |ws| && acts[i].Fail?
    ensures ws[i + 1].clock <= ws[j].clock
    ensures ws[i + 1].clock + lim.cooldown <= ws[j].st.failureUntil
  {
    assert Next(lim, ws[j - 1], acts[j - 1], ws[j]);
    if j > i + 1 {
      CooldownOnlyGrows(lim, ws, acts, i, j - 1);
    }
  }

  /** After a failed verification nothing is accepted until the cooldown has passed. */
  lemma NothingAcceptedWhileCooling(lim: Limits, ws: seq<World>, acts: seq<Action>, i: nat, j: nat)
    requires Run(lim, ws, acts) && i < j < |acts| && acts[i].Fail?
    requires acts[j].TryClaim? && acts[j].ok
    ensures ws[j + 1].clock >= ws[i + 1].clock + lim.cooldown
  {
    CooldownOnlyGrows(lim, ws, acts, i, j);
    assert Next(lim, ws[j], acts[j], ws[j + 1]);
  }

  /** The limits the program ships do all of it. */
  lemma ShippedLimits()
    ensures Counts(SHIPPED) && KeepsSourceRate(SHIPPED) && ForgetsNothing(SHIPPED) && NeverCrowded(SHIPPED)
  {}

  // ---------------------------------------------------------------------------
  // The program
  // ---------------------------------------------------------------------------

  method RecentLogoutEvents(events: seq<Time>, cutoff: Time) returns (kept: seq<Time>)
    ensures kept == Recent(events, cutoff)
  {
    var first := 0;
    while first < |events|
      invariant 0 <= first <= |events|
      invariant Recent(events, cutoff) == Recent(events[first..], cutoff)
    {
      if events[first] > cutoff {
        break;
      }
      assert events[first..][1..] == events[first + 1..];
      first := first + 1;
    }
    return events[first..];
  }

  lemma AcceptedIsNext(lim: Limits, w: World, room: map<string, SourceWindow>, source: string, w': World)
    requires source != "" && w.clock <= w'.clock && w'.clock >= w.st.failureUntil
    requires Admits(lim, w.st, source, w'.clock)
    requires if source in w.st.sources then room == w.st.sources else MadeRoom(lim, w.st.sources, room)
    requires w'.st == Admitted(lim, w.st, room, source, w'.clock)
    requires w'.log == w.log + [AcceptedClaim(source, w'.clock)] && w'.tickets == w.tickets[|w.log| := source]
    ensures Next(lim, w, TryClaim(source, true), w')
  {}

  lemma RefusedIsNext(lim: Limits, w: World, source: string, w': World)
    requires source != "" && w.clock <= w'.clock
    requires w'.log == w.log && w'.tickets == w.tickets
    requires if w'.clock < w.st.failureUntil then w'.st == w.st
             else w'.st == w.st.(events := Recent(w.st.events, w'.clock - lim.window))
    requires w'.clock < w.st.failureUntil || !Admits(lim, w.st, source, w'.clock)
          || (source !in w.st.sources && NoRoom(lim, w.st.sources))
    ensures Next(lim, w, TryClaim(source, false), w')
  {}

  class LogoutVerificationBudget {
    const lim: Limits
    var used: int
    var events: seq<Time>
    var sources: map<string, SourceWindow>
    var failureUntil: Time

    // What has happened so far, kept only to state what the fields mean.
    ghost var log: seq<AcceptedClaim>
    ghost var clock: Time
    ghost var tickets: map<nat, string>  // the claims whose release has not been called

    ghost function Seen(): World
      reads this
    {
      World(State(used, events, sources, failureUntil), log, tickets, clock)
    }

    ghost predicate Valid()
      reads this
    {
      && "" !in sources
      && forall t | t in tickets :: t < |log| && tickets[t] != ""
    }

    constructor (lim: Limits)
      ensures Valid() && this.lim == lim && tickets == map[]
      ensures Seen() == World(EMPTY, [], map[], ZERO_TIME)
    {
      this.lim := lim;
      used, events, sources, failureUntil := 0, [], map[], ZERO_TIME;
      log, clock, tickets := [], ZERO_TIME, map[];
    }

    method EvictLogoutSource() returns (ok: bool)
      requires "" !in sources
      modifies this`sources
      ensures ok ==> MadeRoom(lim, old(sources), sources)
      ensures !ok ==> sources == old(sources) && NoRoom(lim, sources)
      ensures "" !in sources
    {
      if |sources| < lim.sourceCapacity {
        return true;
      }
      var oldest, oldestAt := "", ZERO_TIME;
      var left := sources.Keys;
      while left != {}
        invariant left <= sources.Keys && sources == old(sources)
        invariant oldest == "" ==> forall s | s in sources && s !in left :: sources[s].used > 0
        invariant oldest != "" ==>
          && oldest in sources && sources[oldest].used <= 0 && sources[oldest].last == oldestAt
          && forall s | s in sources && s !in left && sources[s].used <= 0 :: oldestAt <= sources[s].last
        decreases |left|
      {
        var source :| source in left;
        left := left - {source};
        var held := sources[source];
        if held.used > 0 {
          continue;
        }
        if oldest != "" && !(held.last < oldestAt) {
          continue;
        }
        oldest, oldestAt := source, held.last;
      }
      if oldest != "" {
        assert OldestIdle(sources, oldest);
        sources := sources - {oldest};
        return true;
      }
      return false;
    }

    /** A nil release means the claim was refused. `now` is what the clock reads. */
    method Claim(source: string, now: Time) returns (release: LogoutRelease?)
      requires Valid() && source != "" && clock <= now
      modifies this
      ensures Valid()
      ensures Next(lim, old(Seen()), TryClaim(source, release != null), Seen()) && clock == now
      ensures release != null ==> fresh(release) && release.Issued(this, source, old(|log|))
      ensures tickets == if release != null then old(tickets)[old(|log|) := source] else old(tickets)
    {
      ghost var w := Seen();
      clock := now;
      if now < failureUntil {
        RefusedIsNext(lim, w, source, Seen());
        return null;
      }
      events := RecentLogoutEvents(events, now - lim.window);
      var held := if source in sources then sources[source] else SourceWindow([], ZERO_TIME, 0);
      var recent := RecentLogoutEvents(held.events, now - lim.window);
      held := held.(events := recent);
      var globalFull := used >= lim.globalConcurrent;
      var sourceFull := held.used >= lim.sourceConcurrent;
      var globalRateFull := |events| >= lim.globalRate;
      var sourceRateFull := |held.events| >= lim.sourceRate;
      if globalFull || sourceFull || globalRateFull || sourceRateFull {
        RefusedIsNext(lim, w, source, Seen());
        return null;
      }
      release := Admit(w, source, held, now);
    }

    /** Makes room for a source the limits allow, and records its claim; `held` is what is kept
        of the source's history and `w` is how things stood before the claim began. */
    method Admit(ghost w: World, source: string, held: SourceWindow, now: Time) returns (release: LogoutRelease?)
      requires Valid() && source != "" && w.clock <= now && w.st.failureUntil <= now
      requires Admits(lim, w.st, source, now)
      requires Seen() == World(w.st.(events := Recent(w.st.events, now - lim.window)), w.log, w.tickets, now)
      requires held == Held(w.st, source).(events := Recent(Held(w.st, source).events, now - lim.window))
      modifies this
      ensures Valid() && clock == now
      ensures Next(lim, w, TryClaim(source, release != null), Seen())
      ensures release != null ==> fresh(release) && release.Issued(this, source, |w.log|)
      ensures tickets == if release != null then w.tickets[|w.log| := source] else w.tickets
    {
      if source !in sources {
        var ok := EvictLogoutSource();
        if !ok {
          RefusedIsNext(lim, w, source, Seen());
          return null;
        }
      }
      ghost var room := sources;
      used := used + 1;
      events := events + [now];
      sources := sources[source := SourceWindow(held.events + [now], now, held.used + 1)];
      release := new LogoutRelease(this, source, |log|);
      tickets := tickets[|log| := source];
      log := log + [AcceptedClaim(source, now)];
      assert Seen().st == Admitted(lim, w.st, room, source, now);
      AcceptedIsNext(lim, w, room, source, Seen());
    }

    method Failed(now: Time)
      requires Valid() && clock <= now
      modifies this
      ensures Valid()
      ensures Next(lim, old(Seen()), Fail, Seen()) && clock == now && tickets == old(tickets)
    {
      clock := now;
      failureUntil := now + lim.cooldown;
    }
  }

  /** The closure an accepted claim returns; `done` is its sync.Once. */
  class LogoutRelease {
    const budget: LogoutVerificationBudget
    const source: string
    ghost const ticket: nat
    var done: bool

    ghost predicate Issued(budget: LogoutVerificationBudget, source: string, ticket: nat)
      reads this
    {
      this.budget == budget && this.source == source && this.ticket == ticket && !done
    }

    /** Until it is called, its claim is open. */
    ghost predicate Valid()
      reads this, budget
    {
      budget.Valid() && (done || (ticket in budget.tickets && budget.tickets[ticket] == source))
    }

    constructor (budget: LogoutVerificationBudget, source: string, ghost ticket: nat)
      ensures Issued(budget, source, ticket)
    {
      this.budget, this.source, this.ticket, done := budget, source, ticket, false;
    }

    method Call()
      requires Valid()
      modifies this, budget
      ensures Valid() && done
      ensures old(done) ==> budget.Seen() == old(budget.Seen()) && budget.tickets == old(budget.tickets)
      ensures !old(done) ==>
        && Next(budget.lim, old(budget.Seen()), Release(ticket), budget.Seen())
        && budget.tickets == old(budget.tickets) - {ticket}
      ensures budget.clock == old(budget.clock)
    {
      if !done {
        done := true;
        budget.used := budget.used - 1;
        var held := if source in budget.sources then budget.sources[source] else SourceWindow([], ZERO_TIME, 0);
        held := held.(used := held.used - 1);
        budget.sources := budget.sources[source := held];
        budget.tickets := budget.tickets - {ticket};
        assert budget.Seen().st == Released(old(budget.Seen()).st, source);
      }
    }
  }
}
