/** Single use of login states (internal/auth/flowlimits.go). */
module FlowLimits {
  // The flow cookie is that of internal/auth/session.go and internal/auth/oidc.go.

  import opened Options
  import opened Sizes
  import opened Sessions

  const FLOW_LIFETIME := 600 * SECOND
  const MAX_CONSUMED_FLOWS := 4096

  datatype ConsumeError = Replayed | RegistryFull

  // ---------------------------------------------------------------------------
  // What one call does
  // ---------------------------------------------------------------------------

  function Live(used: map<string, Time>, now: Time): map<string, Time> {
    map s | s in used && now < used[s] :: used[s]
  }

  function Verdict(used: map<string, Time>, capacity: int, state: string, now: Time): Result<(), ConsumeError> {
    if state in Live(used, now) then Err(Replayed)
    else if |Live(used, now)| >= capacity then Err(RegistryFull)
    else Ok(())
  }

  function AfterConsume(used: map<string, Time>, capacity: int, state: string, expires: Time, now: Time): map<string, Time> {
    if Verdict(used, capacity, state, now).Ok? then Live(used, now)[state := expires] else Live(used, now)
  }

  class ConsumedFlows {
    const capacity: int
    var used: map<string, Time>

    constructor (capacity: int)
      ensures used == map[] && this.capacity == capacity
    {
      this.capacity := capacity;
      used := map[];
    }

    method Consume(state: string, expires: Time, now: Time) returns (r: Result<(), ConsumeError>)
      modifies this
      ensures r == Verdict(old(used), capacity, state, now)
      ensures used == AfterConsume(old(used), capacity, state, expires, now)
    {
      var left := used.Keys;
      while left != {}
        invariant left <= used.Keys
        invariant used == map s | s in old(used) && (s in left || now < old(used)[s]) :: old(used)[s]
        decreases |left|
      {
        var key :| key in left;
        left := left - {key};
        if now >= used[key] {
          used := used - {key};
        }
      }
      assert used == Live(old(used), now);
      if state in used {
        return Err(Replayed);
      }
      if |used| >= capacity {
        return Err(RegistryFull);
      }
      used := used[state := expires];
      return Ok(());
    }
  }

  // ---------------------------------------------------------------------------
  // Whole runs
  // ---------------------------------------------------------------------------

  /** A successful consumption: its state, the clock it judged by, and when its entry runs out. */
  datatype Consumption = Consumption(state: string, at: Time, until: Time)

  /** `started` says when each login began; states are random and never drawn twice. */
  datatype World = World(used: map<string, Time>, started: map<string, Time>, done: seq<Consumption>, clock: Time)

  datatype Action = Start(state: string) | Consume(state: string, computed: Time)

  /** Unix seconds at which the cookie carrying a state expires. */
  function CookieExpires(start: Time): int {
    Unix(start + FLOW_LIFETIME)
  }

  /** A callback reads its cookie, computes the expiry of its entry at `computed`, and consumes
      at the clock of the new world; other callbacks may act in between. Only a state whose
      login had begun by then can be consumed, since the cookie cannot be forged. */
  ghost predicate Next(capacity: int, w: World, a: Action, w': World) {
    && w.clock <= w'.clock
    && match a
       case Start(state) =>
         state !in w.started && w' == World(w.used, w.started[state := w'.clock], w.done, w'.clock)
       case Consume(state, computed) =>
         && state in w.started && w.started[state] <= computed <= w'.clock
         && var until := computed + FLOW_LIFETIME;
            w' == World(AfterConsume(w.used, capacity, state, until, w'.clock), w.started,
                        if Verdict(w.used, capacity, state, w'.clock).Ok?
                        then w.done + [Consumption(state, w'.clock, until)] else w.done,
                        w'.clock)
  }

  ghost predicate Run(capacity: int, ws: seq<World>, acts: seq<Action>) {
    && |ws| == |acts| + 1
    && ws[0].used == map[] && ws[0].started == map[] && ws[0].done == []
    && forall i | 0 <= i < |acts| :: Next(capacity, ws[i], acts[i], ws[i + 1])
  }

  /** A consumption keeps its state out until its entry runs out, no earlier than the cookie. */
  ghost predicate Blocks(w: World, c: Consumption) {
    && c.state in w.started
    && c.until >= w.started[c.state] + FLOW_LIFETIME
    && (w.clock < c.until ==> c.state in w.used && w.used[c.state] >= c.until)
  }

  ghost predicate Separated(w: World) {
    forall i, j | 0 <= i < j < |w.done| && w.done[i].state == w.done[j].state :: w.done[j].at >= w.done[i].until
  }

  ghost predicate Inv(capacity: int, w: World) {
    && |w.used| <= capacity
    && (forall i | 0 <= i < |w.done| :: w.done[i].at <= w.clock && Blocks(w, w.done[i]))
    && Separated(w)
  }

  lemma LiveSize(used: map<string, Time>, now: Time)
    ensures |Live(used, now)| <= |used|
  {
    SubsetSize(Live(used, now).Keys, used.Keys);
  }

  lemma ConsumeKeepsBlocks(capacity: int, w: World, a: Action, w': World, c: Consumption)
    requires Next(capacity, w, a, w') && Blocks(w, c)
    ensures Blocks(w', c)
  {
    if a.Consume? && w'.clock < c.until {
      assert c.state in Live(w.used, w'.clock);
    }
  }

  lemma NextKeepsInv(capacity: int, w: World, a: Action, w': World)
    requires capacity >= 0 && Inv(capacity, w) && Next(capacity, w, a, w')
    ensures Inv(capacity, w')
  {
    LiveSize(w.used, w'.clock);
    forall i | 0 <= i < |w.done| ensures Blocks(w', w.done[i]) {
      ConsumeKeepsBlocks(capacity, w, a, w', w.done[i]);
    }
    if a.Consume? {
      var live := Live(w.used, w'.clock);
      assert live[a.state := a.computed + FLOW_LIFETIME].Keys == live.Keys + {a.state};
    }
  }

  lemma {:induction false} RunKeepsInv(capacity: int, ws: seq<World>, acts: seq<Action>, i: nat)
    requires capacity >= 0 && Run(capacity, ws, acts) && i < |ws|
    ensures Inv(capacity, ws[i])
  {
    if i > 0 {
      RunKeepsInv(capacity, ws, acts, i - 1);
      NextKeepsInv(capacity, ws[i - 1], acts[i - 1], ws[i]);
    }
  }

  // ---------------------------------------------------------------------------
  // Theorems about every run
  // ---------------------------------------------------------------------------

  /** A state consumed once is never consumed again by a callback that is still within the
      life of its cookie when it reaches the registry, cut to seconds as the cookie is. */
  lemma StatesAreSingleUse(capacity: int, ws: seq<World>, acts: seq<Action>, n: nat, i: nat, j: nat)
    requires capacity >= 0 && Run(capacity, ws, acts) && n < |ws|
    requires i < j < |ws[n].done| && ws[n].done[i].state == ws[n].done[j].state
    ensures ws[n].done[j].state in ws[n].started
    ensures ws[n].done[j].at >= FromUnix(CookieExpires(ws[n].started[ws[n].done[j].state]))
  {
    RunKeepsInv(capacity, ws, acts, n);
    assert Blocks(ws[n], ws[n].done[i]);
    Truncates(ws[n].started[ws[n].done[j].state] + FLOW_LIFETIME);
  }

  /** A callback that stalls past the life of its cookie between reading it and consuming its
      state does get through a second time. */
  lemma StalledCallbackIsLetThrough(state: string) returns (ws: seq<World>, acts: seq<Action>)
    ensures Run(MAX_CONSUMED_FLOWS, ws, acts)
    ensures |ws[|acts|].done| == 2 && ws[|acts|].done[0].state == ws[|acts|].done[1].state == state
  {
    var until := 1 + FLOW_LIFETIME;
    var w0 := World(map[], map[], [], 0);
    var w1 := World(map[], map[state := 0], [], 0);
    var w2 := World(map[state := until], w1.started, [Consumption(state, 1, until)], 1);
    var w3 := World(map[state := until + 1], w1.started, w2.done + [Consumption(state, until, until + 1)], until);
    acts := [Start(state), Consume(state, 1), Consume(state, 2)];
    ws := [w0, w1, w2, w3];
    assert Live(w1.used, 1) == map[] && Live(w2.used, until) == map[];
    assert w0.started[state := 0] == w1.started;
    assert Live(w1.used, 1)[state := until] == w2.used && Live(w2.used, until)[state := until + 1] == w3.used;
    assert w1.done + [Consumption(state, 1, until)] == w2.done;
    assert Next(MAX_CONSUMED_FLOWS, w0, acts[0], w1);
    assert Next(MAX_CONSUMED_FLOWS, w1, acts[1], w2);
    assert Next(MAX_CONSUMED_FLOWS, w2, acts[2], w3);
  }

  /** The registry never outgrows its capacity, and only a full one turns a fresh state away. */
  lemma RegistryIsBounded(capacity: int, ws: seq<World>, acts: seq<Action>, n: nat)
    requires capacity >= 0 && Run(capacity, ws, acts) && n < |ws|
    ensures |ws[n].used| <= capacity
  {
    RunKeepsInv(capacity, ws, acts, n);
  }

  /** An entry lasts exactly as long as some consumption of its state said. */
  lemma {:induction false} EntriesComeFromUse(capacity: int, ws: seq<World>, acts: seq<Action>, n: nat, s: string)
    requires capacity >= 0 && Run(capacity, ws, acts) && n < |ws| && s in ws[n].used
    ensures exists i :: 0 <= i < |ws[n].done| && ws[n].done[i].state == s && ws[n].done[i].until == ws[n].used[s]
  {
    var w, w' := ws[n - 1], ws[n];
    assert Next(capacity, w, acts[n - 1], w');
    if s in w.used && w.used[s] == w'.used[s] {
      EntriesComeFromUse(capacity, ws, acts, n - 1, s);
      var i :| 0 <= i < |w.done| && w.done[i].state == s && w.done[i].until == w.used[s];
      assert w'.done[i] == w.done[i];
    } else {
      assert w'.done[|w.done|].state == s;
    }
  }

  /** Whether some consumption of a state still keeps it out at a moment. */
  predicate Blocked(done: seq<Consumption>, state: string, now: Time) {
    exists i | 0 <= i < |done| :: done[i].state == state && now < done[i].until
  }

  /** The registry holds a state at a moment exactly when a consumption of it still keeps it out. */
  lemma LiveIff(capacity: int, ws: seq<World>, acts: seq<Action>, n: nat, state: string, now: Time)
    requires capacity >= 0 && Run(capacity, ws, acts) && n < |ws| && ws[n].clock <= now
    ensures state in Live(ws[n].used, now) <==> Blocked(ws[n].done, state, now)
  {
    RunKeepsInv(capacity, ws, acts, n);
    if state in Live(ws[n].used, now) {
      EntriesComeFromUse(capacity, ws, acts, n, state);
    }
    if Blocked(ws[n].done, state, now) {
      var i :| 0 <= i < |ws[n].done| && ws[n].done[i].state == state && now < ws[n].done[i].until;
      assert Blocks(ws[n], ws[n].done[i]);
    }
  }

  /** Exactly when a callback gets through, in every run: when every earlier consumption of its
      state has run out, and there is room in the registry. */
  lemma ConsumedIff(capacity: int, ws: seq<World>, acts: seq<Action>, n: nat)
    requires capacity >= 0 && Run(capacity, ws, acts) && n < |acts| && acts[n].Consume?
    ensures |ws[n + 1].done| == |ws[n].done| + 1 <==>
            (forall i | 0 <= i < |ws[n].done| && ws[n].done[i].state == acts[n].state :: ws[n + 1].clock >= ws[n].done[i].until) &&
            |Live(ws[n].used, ws[n + 1].clock)| < capacity
  {
    assert Next(capacity, ws[n], acts[n], ws[n + 1]);
    LiveIff(capacity, ws, acts, n, acts[n].state, ws[n + 1].clock);
  }

  /** A login that has not been completed before is refused only because the registry is full. */
  lemma FirstUseSucceeds(capacity: int, ws: seq<World>, acts: seq<Action>, n: nat)
    requires capacity >= 0 && Run(capacity, ws, acts) && n < |acts| && acts[n].Consume?
    requires forall i | 0 <= i < |ws[n].done| :: ws[n].done[i].state != acts[n].state
    ensures |ws[n + 1].done| == |ws[n].done| + 1 || |Live(ws[n].used, ws[n + 1].clock)| >= capacity
  {
    ConsumedIff(capacity, ws, acts, n);
  }
}
