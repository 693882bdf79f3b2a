/** When the limits on logout tokens hold (internal/auth/logoutlimits.go). */
module LogoutThresholds {
  // The conditions on the limits are exact: where one fails there is a run that shows it. Such a
  // run first crowds the table with claims that stay open, each in a window of its own, and then
  // lets sources in and out at one moment.

  import opened LogoutLimits

  // ---------------------------------------------------------------------------
  // What the limits are for
  // ---------------------------------------------------------------------------

  ghost predicate SourceRateHolds(lim: Limits) {
    forall ws: seq<World>, acts: seq<Action>, i: nat, s, end: Time | Run(lim, ws, acts) && i < |ws| ::
      InWindow(TimesOf(ws[i].log, s), lim.window, end) <= lim.sourceRate
  }

  /** Only sources without a claim inside the window leave the table. */
  ghost predicate NothingIsForgotten(lim: Limits) {
    forall ws: seq<World>, acts: seq<Action>, i: nat, gone | Run(lim, ws, acts) && i < |acts| && gone in ws[i].st.sources && gone !in ws[i + 1].st.sources ::
      UpTo(TimesOf(ws[i].log, gone), ws[i + 1].clock - lim.window)
  }

  predicate Refused(a: Action) {
    a.TryClaim? && !a.ok
  }

  /** Nobody is refused for want of room in the table. */
  ghost predicate RoomForEverybody(lim: Limits) {
    forall ws: seq<World>, acts: seq<Action>, i: nat | Run(lim, ws, acts) && i < |acts| && Refused(acts[i]) ::
      ws[i + 1].clock < ws[i].st.failureUntil || !Admits(lim, ws[i].st, acts[i].source, ws[i + 1].clock)
  }

  // ---------------------------------------------------------------------------
  // Worlds a run leads to
  // ---------------------------------------------------------------------------

  ghost predicate Reached(lim: Limits, w: World) {
    exists ws: seq<World>, acts: seq<Action> :: Run(lim, ws, acts) && ws[|acts|] == w
  }

  lemma OneStepFurther(lim: Limits, w: World, a: Action, w': World) returns (ws: seq<World>, acts: seq<Action>)
    requires Reached(lim, w) && Next(lim, w, a, w')
    ensures Run(lim, ws, acts) && |acts| > 0 && ws[|acts| - 1] == w && ws[|acts|] == w' && acts[|acts| - 1] == a
    ensures Reached(lim, w')
  {
    var ws0, acts0 :| Run(lim, ws0, acts0) && ws0[|acts0|] == w;
    ws, acts := ws0 + [w'], acts0 + [a];
    forall i | 0 <= i < |acts| ensures Next(lim, ws[i], acts[i], ws[i + 1]) {
      if i < |acts0| {
        assert Next(lim, ws0[i], acts0[i], ws0[i + 1]);
      }
    }
  }

  lemma {:induction false} LongerThanAll(names: set<string>) returns (size: nat)
    ensures size > 0 && forall s | s in names :: |s| < size
    decreases |names|
  {
    size := 1;
    if names != {} {
      var s :| s in names;
      var rest := LongerThanAll(names - {s});
      size := if |s| < rest then rest else |s| + 1;
    }
  }

  lemma FreshName(names: set<string>) returns (s: string)
    ensures s != "" && s !in names
  {
    var size := LongerThanAll(names);
    s := seq(size, i => 'x');
    assert |s| == size;
  }

  // ---------------------------------------------------------------------------
  // Letting in and out at one moment
  // ---------------------------------------------------------------------------

  /** At time `t` the claims of `open` are open, `idle` was last let in at `t`, and `n` claims
      count towards the global rate. */
  ghost predicate Scene(lim: Limits, w: World, t: Time, open: set<string>, idle: set<string>, n: nat) {
    && w.clock <= t && w.st.failureUntil <= t
    && w.st.used == |open| && open !! idle && w.st.sources.Keys == open + idle
    && (forall s | s in open :: w.st.sources[s].used > 0)
    && (forall s | s in idle :: w.st.sources[s].used == 0 && w.st.sources[s].last == t)
    && |Recent(w.st.events, t - lim.window)| == n
  }

  /** The idle sources a table keeps when `s` comes in, with one of them pushed out when it is full. */
  ghost predicate Makes(lim: Limits, open: set<string>, idle: set<string>, s: string, left: set<string>) {
    if s in idle || |open| + |idle| < lim.sourceCapacity then left == idle
    else exists gone :: gone in idle && left == idle - {gone}
  }

  ghost predicate MayEnter(lim: Limits, w: World, t: Time, open: set<string>, n: nat, s: string) {
    && s != "" && s !in open && |open| < lim.globalConcurrent && lim.sourceConcurrent >= 1 && n < lim.globalRate
    && |Recent(Held(w.st, s).events, t - lim.window)| < lim.sourceRate
  }

  lemma Enter(lim: Limits, w: World, t: Time, open: set<string>, idle: set<string>, n: nat, s: string, left: set<string>)
    returns (room: map<string, SourceWindow>)
    requires Scene(lim, w, t, open, idle, n) && MayEnter(lim, w, t, open, n, s) && Makes(lim, open, idle, s, left)
    ensures Next(lim, w, TryClaim(s, true), Accepted(lim, w, room, s, t))
    ensures room.Keys == open + left && left <= idle && forall x | x in room :: room[x] == w.st.sources[x]
    ensures s in idle ==> left == idle
  {
    room := w.st.sources;
    assert |room.Keys| == |room| && |open + idle| == |open| + |idle|;
    if s !in idle && |open| + |idle| >= lim.sourceCapacity {
      var gone :| gone in idle && left == idle - {gone};
      assert OldestIdle(w.st.sources, gone);
      room := w.st.sources - {gone};
      assert MadeRoom(lim, w.st.sources, room);
    }
    AcceptedIsNext(lim, w, room, s, Accepted(lim, w, room, s, t));
  }

  lemma RecentAndOneMore(events: seq<Time>, cutoff: Time, t: Time)
    requires t > cutoff
    ensures Recent(Recent(events, cutoff) + [t], cutoff) == Recent(events, cutoff) + [t]
  {
    RecentStartsLater(events, cutoff);
  }

  lemma {:induction false} RecentStartsLater(events: seq<Time>, cutoff: Time)
    ensures Recent(events, cutoff) != [] ==> Recent(events, cutoff)[0] > cutoff
    decreases |events|
  {
    if events != [] && events[0] <= cutoff {
      RecentStartsLater(events[1..], cutoff);
    }
  }

  function LetOut(w: World, s: string, before: World): World {
    World(Released(w.st, s), w.log, before.tickets, w.clock)
  }

  lemma Leave(lim: Limits, w: World, room: map<string, SourceWindow>, s: string, t: Time)
    requires forall ticket | ticket in w.tickets :: ticket < |w.log|
    ensures var w1 := Accepted(lim, w, room, s, t); Next(lim, w1, Release(|w.log|), LetOut(w1, s, w))
  {
    assert w.tickets[|w.log| := s] - {|w.log|} == w.tickets;
  }

  function Tally(lim: Limits, w: World, a: string, t: Time): nat {
    InWindow(TimesOf(w.log, a), lim.window, t)
  }

  lemma TallyAppend(lim: Limits, w: World, c: AcceptedClaim, w': World, a: string, t: Time)
    requires w'.log == w.log + [c] && c.at == t && lim.window >= 1
    ensures Tally(lim, w', a, t) == Tally(lim, w, a, t) + (if c.source == a then 1 else 0)
  {
    SourceTimesAppend(w.log, c, a);
    CountSplit(TimesOf(w.log, a), [t], t - lim.window, t);
    assert TimesOf(w.log, a) + [] == TimesOf(w.log, a);
  }

  /** What a turn of `s` leaves. */
  ghost predicate Turned(lim: Limits, w: World, t: Time, s: string, left: set<string>, w': World) {
    && Held(w'.st, s).events == Recent(Held(w.st, s).events, t - lim.window) + [t]
    && (forall x | x in left && x != s :: Held(w'.st, x) == Held(w.st, x))
    && (forall a :: Tally(lim, w', a, t) == Tally(lim, w, a, t) + (if s == a then 1 else 0))
  }

  lemma TurnIsReached(lim: Limits, w: World, room: map<string, SourceWindow>, s: string, t: Time)
    requires Counts(lim) && Reached(lim, w)
    requires Next(lim, w, TryClaim(s, true), Accepted(lim, w, room, s, t))
    ensures Reached(lim, LetOut(Accepted(lim, w, room, s, t), s, w))
  {
    var w1 := Accepted(lim, w, room, s, t);
    var ws: seq<World>, acts: seq<Action> :| Run(lim, ws, acts) && ws[|acts|] == w;
    RunKeepsInv(lim, ws, acts, |acts|);
    Leave(lim, w, room, s, t);
    ws, acts := OneStepFurther(lim, w, TryClaim(s, true), w1);
    ws, acts := OneStepFurther(lim, w1, Release(|w.log|), LetOut(w1, s, w));
  }

  lemma TurnState(lim: Limits, w: World, room: map<string, SourceWindow>, s: string, t: Time)
    ensures After(lim, w, t, s, room, LetOut(Accepted(lim, w, room, s, t), s, w))
  {}

  /** A source that may enter is let in and out again. */
  lemma Turn(lim: Limits, w: World, t: Time, open: set<string>, idle: set<string>, n: nat, s: string, left: set<string>)
    returns (w': World)
    requires Counts(lim) && Reached(lim, w) && lim.window >= 1
    requires Scene(lim, w, t, open, idle, n) && MayEnter(lim, w, t, open, n, s) && Makes(lim, open, idle, s, left)
    ensures Reached(lim, w') && Scene(lim, w', t, open, left + {s}, n + 1) && Turned(lim, w, t, s, left, w')
  {
    var room := Enter(lim, w, t, open, idle, n, s, left);
    w' := LetOut(Accepted(lim, w, room, s, t), s, w);
    TurnIsReached(lim, w, room, s, t);
    TurnState(lim, w, room, s, t);
    TurnScene(lim, w, t, open, idle, n, s, left, room, w');
    TurnTurned(lim, w, t, s, left, room, w');
  }

  /** The state after a turn of `s`. */
  ghost predicate After(lim: Limits, w: World, t: Time, s: string, room: map<string, SourceWindow>, w': World) {
    && w'.st == State(w.st.used, Recent(w.st.events, t - lim.window) + [t],
                      room[s := SourceWindow(Recent(Held(w.st, s).events, t - lim.window) + [t], t, Held(w.st, s).used)], w.st.failureUntil)
    && w'.log == w.log + [AcceptedClaim(s, t)] && w'.clock == t
  }

  lemma SceneTable(sources: map<string, SourceWindow>, room: map<string, SourceWindow>, t: Time,
                   open: set<string>, idle: set<string>, left: set<string>, s: string, held: SourceWindow)
    requires sources.Keys == open + idle && open !! idle && s !in open && left <= idle
    requires room.Keys == open + left && forall x | x in room :: room[x] == sources[x]
    requires forall x | x in open :: sources[x].used > 0
    requires forall x | x in idle :: sources[x].used == 0 && sources[x].last == t
    requires held.used == 0 && held.last == t
    ensures var after := room[s := held];
            after.Keys == open + (left + {s}) && open !! left + {s} &&
            (forall x | x in open :: after[x].used > 0) &&
            (forall x | x in left + {s} :: after[x].used == 0 && after[x].last == t)
  {}

  lemma TurnScene(lim: Limits, w: World, t: Time, open: set<string>, idle: set<string>, n: nat, s: string, left: set<string>,
                  room: map<string, SourceWindow>, w': World)
    requires Scene(lim, w, t, open, idle, n) && s !in open && left <= idle && lim.window >= 1
    requires room.Keys == open + left && forall x | x in room :: room[x] == w.st.sources[x]
    requires After(lim, w, t, s, room, w')
    ensures Scene(lim, w', t, open, left + {s}, n + 1)
  {
    RecentAndOneMore(w.st.events, t - lim.window, t);
    SceneTable(w.st.sources, room, t, open, idle, left, s, w'.st.sources[s]);
  }

  lemma TurnTurned(lim: Limits, w: World, t: Time, s: string, left: set<string>, room: map<string, SourceWindow>, w': World)
    requires lim.window >= 1 && left <= room.Keys <= w.st.sources.Keys && forall x | x in room :: room[x] == w.st.sources[x]
    requires After(lim, w, t, s, room, w')
    ensures Turned(lim, w, t, s, left, w')
  {
    forall a ensures Tally(lim, w', a, t) == Tally(lim, w, a, t) + (if s == a then 1 else 0) {
      TallyAppend(lim, w, AcceptedClaim(s, t), w', a, t);
    }
  }

  /** New sources fill the table. */
  lemma {:induction false} Fill(lim: Limits, w: World, t: Time, open: set<string>, idle: set<string>, n: nat, a: string, more: nat)
    returns (w': World, full: set<string>)
    requires Counts(lim) && Admissible(lim) && Reached(lim, w) && lim.window >= 1
    requires Scene(lim, w, t, open, idle, n) && a in idle && |open| < lim.globalConcurrent
    requires |open| + |idle| + more <= lim.sourceCapacity && n + more <= lim.globalRate
    ensures Reached(lim, w') && Scene(lim, w', t, open, full, n + more) && a in full && |full| == |idle| + more
    ensures Tally(lim, w', a, t) == Tally(lim, w, a, t)
    decreases more
  {
    w', full := w, idle;
    if more > 0 {
      var s := FreshName(open + idle);
      var w1 := Turn(lim, w, t, open, idle, n, s, idle);
      assert |idle + {s}| == |idle| + 1;
      w', full := Fill(lim, w1, t, open, idle + {s}, n + 1, a, more - 1);
    }
  }

  /** A source in the table uses up its rate. */
  lemma {:induction false} Repeat(lim: Limits, w: World, t: Time, open: set<string>, idle: set<string>, n: nat, a: string, more: nat)
    returns (w': World)
    requires Counts(lim) && Admissible(lim) && Reached(lim, w) && lim.window >= 1
    requires Scene(lim, w, t, open, idle, n) && a in idle && a != "" && |open| < lim.globalConcurrent
    requires n + more <= lim.globalRate
    requires |Recent(Held(w.st, a).events, t - lim.window)| + more <= lim.sourceRate
    ensures Reached(lim, w') && Tally(lim, w', a, t) == Tally(lim, w, a, t) + more
    decreases more
  {
    w' := w;
    if more > 0 {
      var w1 := Turn(lim, w, t, open, idle, n, a, idle);
      assert idle + {a} == idle;
      RecentAndOneMore(Held(w.st, a).events, t - lim.window, t);
      w' := Repeat(lim, w1, t, open, idle, n + 1, a, more - 1);
    }
  }

  // ---------------------------------------------------------------------------
  // Crowding the table
  // ---------------------------------------------------------------------------

  /** `open` are in the table, each with an open claim, and nobody else is. */
  ghost predicate Crowded(w: World, open: set<string>) {
    && w.st.used == |open| && w.st.sources.Keys == open
    && (forall s | s in open :: w.st.sources[s].used > 0)
    && UpTo(w.st.events, w.clock) && w.st.failureUntil <= w.clock
  }

  /** A moment at which nothing up to now counts any more. */
  function WindowLater(lim: Limits, w: World): Time {
    if lim.window > 0 then w.clock + lim.window else w.clock
  }

  lemma {:induction false} NothingRecent(events: seq<Time>, cutoff: Time)
    requires UpTo(events, cutoff)
    ensures Recent(events, cutoff) == []
  {
    if events != [] {
      NothingRecent(events[1..], cutoff);
    }
  }

  lemma CrowdedIsScene(lim: Limits, w: World, open: set<string>)
    requires Crowded(w, open)
    ensures Scene(lim, w, WindowLater(lim, w), open, {}, 0)
  {
    NothingRecent(w.st.events, WindowLater(lim, w) - lim.window);
  }

  lemma OneMoreOpen(lim: Limits, w: World, open: set<string>, s: string) returns (w': World)
    requires Counts(lim) && Admissible(lim) && Crowded(w, open) && s != "" && s !in open
    requires |open| < lim.globalConcurrent && |open| < lim.sourceCapacity
    ensures Next(lim, w, TryClaim(s, true), w') && Crowded(w', open + {s})
  {
    var t := WindowLater(lim, w);
    CrowdedIsScene(lim, w, open);
    var room := Enter(lim, w, t, open, {}, 0, s, {});
    w' := Accepted(lim, w, room, s, t);
  }

  /** Any number of sources up to the cap can be in the table with an open claim each. */
  lemma {:induction false} Crowd(lim: Limits, a: string, m: nat) returns (w: World, open: set<string>)
    requires Counts(lim) && Admissible(lim) && m <= lim.globalConcurrent && m <= lim.sourceCapacity
    ensures Reached(lim, w) && Crowded(w, open) && |open| == m && a !in open
  {
    if m == 0 {
      w, open := World(EMPTY, [], map[], ZERO_TIME), {};
      var ws: seq<World>, acts: seq<Action> := [w], [];
      assert Run(lim, ws, acts) && ws[|acts|] == w;
    } else {
      var w0, open0 := Crowd(lim, a, m - 1);
      var s := FreshName(open0 + {a});
      open := open0 + {s};
      w := OneMoreOpen(lim, w0, open0, s);
      var ws, acts := OneStepFurther(lim, w0, TryClaim(s, true), w);
    }
  }

  // ---------------------------------------------------------------------------
  // The runs
  // ---------------------------------------------------------------------------

  /** A full table in which `a` is idle, let in at `t`, as is every other idle source. */
  lemma FullScene(lim: Limits, a: string)
    returns (w: World, t: Time, open: set<string>, idle: set<string>)
    requires Counts(lim) && Evicts(lim) && lim.globalRate > Spare(lim) && a != ""
    ensures Reached(lim, w) && Scene(lim, w, t, open, idle, Spare(lim) + 1) && a in idle && Tally(lim, w, a, t) >= 1
    ensures |open| + |idle| == lim.sourceCapacity && |open| < lim.globalConcurrent
  {
    var busy := if lim.sourceCapacity > lim.globalConcurrent then lim.globalConcurrent - 1 else lim.sourceCapacity - 1;
    var w0;
    w0, open := Crowd(lim, a, busy);
    t := WindowLater(lim, w0);
    CrowdedIsScene(lim, w0, open);
    assert {} + {a} == {a} && |{a}| == 1;
    var w1 := Turn(lim, w0, t, open, {}, 0, a, {});
    w, idle := Fill(lim, w1, t, open, {a}, 1, a, Spare(lim));
  }

  /** In a full table another source pushes `a` out. */
  lemma PushOut(lim: Limits, w: World, t: Time, open: set<string>, idle: set<string>, n: nat, a: string)
    returns (w': World, others: set<string>)
    requires Counts(lim) && Evicts(lim) && Reached(lim, w) && Scene(lim, w, t, open, idle, n) && a in idle
    requires |open| + |idle| == lim.sourceCapacity && |open| < lim.globalConcurrent && n < lim.globalRate
    ensures Reached(lim, w') && Scene(lim, w', t, open, others, n + 1) && a !in open && a !in others
    ensures |others| == |idle| && Tally(lim, w', a, t) == Tally(lim, w, a, t)
  {
    var s := FreshName(open + idle);
    w' := Turn(lim, w, t, open, idle, n, s, idle - {a});
    others := idle - {a} + {s};
  }

  /** A source nobody remembers comes back in place of another. */
  lemma ComeBack(lim: Limits, w: World, t: Time, open: set<string>, idle: set<string>, n: nat, a: string)
    returns (w': World, among: set<string>)
    requires Counts(lim) && Evicts(lim) && Reached(lim, w) && Scene(lim, w, t, open, idle, n)
    requires a != "" && a !in open && a !in idle && idle != {}
    requires |open| + |idle| == lim.sourceCapacity && |open| < lim.globalConcurrent && n < lim.globalRate
    ensures Reached(lim, w') && Scene(lim, w', t, open, among, n + 1) && a in among
    ensures |Recent(Held(w'.st, a).events, t - lim.window)| == 1 && Tally(lim, w', a, t) == Tally(lim, w, a, t) + 1
  {
    var s :| s in idle;
    assert Held(w.st, a) == SourceWindow([], ZERO_TIME, 0);
    w' := Turn(lim, w, t, open, idle, n, a, idle - {s});
    among := idle - {s} + {a};
    RecentAndOneMore([], t - lim.window, t);
  }

  /** A source gets past its rate. */
  lemma Overflow(lim: Limits, a: string) returns (w: World, t: Time)
    requires Counts(lim) && !KeepsSourceRate(lim) && a != ""
    ensures Reached(lim, w) && Tally(lim, w, a, t) > lim.sourceRate
  {
    var open, idle;
    w, t, open, idle := FullScene(lim, a);
    w, idle := PushOut(lim, w, t, open, idle, Spare(lim) + 1, a);
    w, idle := ComeBack(lim, w, t, open, idle, Spare(lim) + 2, a);
    w := Repeat(lim, w, t, open, idle, Spare(lim) + 3, a, lim.sourceRate - 1);
  }

  lemma EnterWithout(lim: Limits, w: World, t: Time, open: set<string>, idle: set<string>, n: nat, s: string, a: string)
    returns (w': World)
    requires Evicts(lim) && Scene(lim, w, t, open, idle, n) && a in idle && s != "" && s !in open + idle
    requires |open| + |idle| == lim.sourceCapacity && |open| < lim.globalConcurrent && n < lim.globalRate
    ensures Next(lim, w, TryClaim(s, true), w') && w'.clock == t && a in w.st.sources && a !in w'.st.sources
  {
    var room := Enter(lim, w, t, open, idle, n, s, idle - {a});
    w' := Accepted(lim, w, room, s, t);
  }

  /** A source leaves the table with a claim inside the window. */
  lemma Forget(lim: Limits, a: string) returns (ws: seq<World>, acts: seq<Action>)
    requires Counts(lim) && !ForgetsNothing(lim) && a != ""
    ensures Run(lim, ws, acts) && |acts| > 0
    ensures a in ws[|acts| - 1].st.sources && a !in ws[|acts|].st.sources
    ensures !UpTo(TimesOf(ws[|acts| - 1].log, a), ws[|acts|].clock - lim.window)
  {
    var w, t, open, idle := FullScene(lim, a);
    var s := FreshName(open + idle);
    var w' := EnterWithout(lim, w, t, open, idle, Spare(lim) + 1, s, a);
    ws, acts := OneStepFurther(lim, w, TryClaim(s, true), w');
    CountBounds(TimesOf(w.log, a), t - lim.window, t);
  }

  /** A source is refused although no limit refuses it. */
  lemma CrowdOut(lim: Limits, a: string) returns (ws: seq<World>, acts: seq<Action>)
    requires Counts(lim) && !NeverCrowded(lim) && a != ""
    ensures Run(lim, ws, acts) && |acts| > 0 && acts[|acts| - 1] == TryClaim(a, false)
    ensures ws[|acts|].clock >= ws[|acts| - 1].st.failureUntil && Admits(lim, ws[|acts| - 1].st, a, ws[|acts|].clock)
  {
    var w, open := Crowd(lim, a, lim.sourceCapacity);
    var t := WindowLater(lim, w);
    CrowdedIsScene(lim, w, open);
    var w' := w.(st := w.st.(events := Recent(w.st.events, t - lim.window)), clock := t);
    assert |w.st.sources.Keys| == |w.st.sources|;
    RefusedIsNext(lim, w, a, w');
    ws, acts := OneStepFurther(lim, w, TryClaim(a, false), w');
  }

  // ---------------------------------------------------------------------------
  // The exact conditions
  // ---------------------------------------------------------------------------

  /** Every source keeps its rate on every run exactly under this condition on the limits. */
  lemma SourceRateHoldsIff(lim: Limits)
    requires Counts(lim)
    ensures SourceRateHolds(lim) <==> KeepsSourceRate(lim)
  {
    if KeepsSourceRate(lim) {
      forall ws: seq<World>, acts: seq<Action>, i: nat, s, end: Time | Run(lim, ws, acts) && i < |ws|
        ensures InWindow(TimesOf(ws[i].log, s), lim.window, end) <= lim.sourceRate
      {
        RatesHoldOverEveryRun(lim, ws, acts, i, s, end);
      }
    } else {
      var w, t := Overflow(lim, "a");
      var ws: seq<World>, acts: seq<Action> :| Run(lim, ws, acts) && ws[|acts|] == w;
      assert InWindow(TimesOf(ws[|acts|].log, "a"), lim.window, t) > lim.sourceRate;
    }
  }

  /** Eviction forgets nothing inside the window exactly under this condition on the limits. */
  lemma NothingIsForgottenIff(lim: Limits)
    requires Counts(lim)
    ensures NothingIsForgotten(lim) <==> ForgetsNothing(lim)
  {
    if ForgetsNothing(lim) {
      forall ws: seq<World>, acts: seq<Action>, i: nat, gone | Run(lim, ws, acts) && i < |acts| && gone in ws[i].st.sources && gone !in ws[i + 1].st.sources
        ensures UpTo(TimesOf(ws[i].log, gone), ws[i + 1].clock - lim.window)
      {
        EvictedOnceOutOfTheWindow(lim, ws, acts, i, gone);
      }
    } else {
      var ws, acts := Forget(lim, "a");
      assert !NothingIsForgotten(lim) by {
        var i := |acts| - 1;
        assert "a" in ws[i].st.sources && "a" !in ws[i + 1].st.sources;
      }
    }
  }

  /** A full table refuses nobody exactly when it is no smaller than the global cap. */
  lemma RoomForEverybodyIff(lim: Limits)
    requires Counts(lim)
    ensures RoomForEverybody(lim) <==> NeverCrowded(lim)
  {
    if NeverCrowded(lim) {
      forall ws: seq<World>, acts: seq<Action>, i: nat | Run(lim, ws, acts) && i < |acts| && Refused(acts[i])
        ensures ws[i + 1].clock < ws[i].st.failureUntil || !Admits(lim, ws[i].st, acts[i].source, ws[i + 1].clock)
      {
        RefusedOnlyByLimits(lim, ws, acts, i);
      }
    } else {
      var ws, acts := CrowdOut(lim, "a");
      assert !RoomForEverybody(lim) by {
        var i := |acts| - 1;
        assert Refused(acts[i]) && ws[i + 1].clock >= ws[i].st.failureUntil;
      }
    }
  }
}
