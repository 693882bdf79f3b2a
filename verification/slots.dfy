/** Slots for access reviews (internal/access/access.go). */
module ReviewSlots {
  // Many goroutines take slots and give them back at once, each in two steps, and the asks of one
  // review run eight at a time among them.

  import opened Options

  const GLOBAL_REVIEW_LIMIT := 32
  const AT_ONCE := 8

  // ---------------------------------------------------------------------------
  // Taken and given back by many at once
  // ---------------------------------------------------------------------------

  /** Taking a slot is two steps, and so is giving it back: the global slot comes first and goes
      last. A claim goes by its number. */
  datatype Phase =
    | Reserved(who: string)
    | TurnedAway(who: string)
    | Holding(who: string)
    | Leaving(who: string)
    | Done

  datatype Slots = Slots(global: nat, inFlight: map<string, nat>, claims: seq<Phase>)

  datatype Step = TakeGlobal(who: string) | TakeIdentity(claim: nat) | BackOff(claim: nat) | LeaveIdentity(claim: nat) | LeaveGlobal(claim: nat)

  function InFlight(inFlight: map<string, nat>, who: string): nat {
    if who in inFlight then inFlight[who] else 0
  }

  function FewerFlights(inFlight: map<string, nat>, who: string): map<string, nat> {
    if InFlight(inFlight, who) <= 1 then inFlight - {who} else inFlight[who := inFlight[who] - 1]
  }

  ghost predicate Taken(a: Slots, step: Step, b: Slots, perIdentity: nat) {
    match step
    case TakeGlobal(who) =>
      if a.global < GLOBAL_REVIEW_LIMIT then b == a.(global := a.global + 1, claims := a.claims + [Reserved(who)]) else b == a
    case TakeIdentity(claim) =>
      claim < |a.claims| && a.claims[claim].Reserved? &&
      var who := a.claims[claim].who;
      if InFlight(a.inFlight, who) >= perIdentity then b == a.(claims := a.claims[claim := TurnedAway(who)])
      else b == a.(inFlight := a.inFlight[who := InFlight(a.inFlight, who) + 1], claims := a.claims[claim := Holding(who)])
    case BackOff(claim) =>
      claim < |a.claims| && a.claims[claim].TurnedAway? && a.global > 0 &&
      b == a.(global := a.global - 1, claims := a.claims[claim := Done])
    case LeaveIdentity(claim) =>
      claim < |a.claims| && a.claims[claim].Holding? &&
      b == a.(inFlight := FewerFlights(a.inFlight, a.claims[claim].who), claims := a.claims[claim := Leaving(a.claims[claim].who)])
    case LeaveGlobal(claim) =>
      claim < |a.claims| && a.claims[claim].Leaving? && a.global > 0 &&
      b == a.(global := a.global - 1, claims := a.claims[claim := Done])
  }

  ghost predicate SlotsRun(states: seq<Slots>, steps: seq<Step>, perIdentity: nat) {
    |states| == |steps| + 1 && states[0] == Slots(0, map[], []) &&
    forall i | 0 <= i < |steps| :: Taken(states[i], steps[i], states[i + 1], perIdentity)
  }

  function Open(claims: seq<Phase>): nat {
    if claims == [] then 0 else Open(claims[..|claims| - 1]) + if claims[|claims| - 1].Done? then 0 else 1
  }

  function Held(claims: seq<Phase>, who: string): nat {
    if claims == [] then 0 else Held(claims[..|claims| - 1], who) + if claims[|claims| - 1] == Holding(who) then 1 else 0
  }

  function HeldByAnyone(claims: seq<Phase>): nat {
    if claims == [] then 0
    else HeldByAnyone(claims[..|claims| - 1]) + if claims[|claims| - 1].Holding? then 1 else 0
  }

  lemma {:induction false} CountsMove(claims: seq<Phase>, i: nat, phase: Phase, who: string)
    requires i < |claims|
    ensures Open(claims[i := phase]) == Open(claims) + (if phase.Done? then 0 else 1) - if claims[i].Done? then 0 else 1
    ensures Held(claims[i := phase], who) ==
            Held(claims, who) + (if phase == Holding(who) then 1 else 0) - if claims[i] == Holding(who) then 1 else 0
  {
    var last := |claims| - 1;
    if i < last {
      CountsMove(claims[..last], i, phase, who);
      assert claims[i := phase][..last] == claims[..last][i := phase];
    } else {
      assert claims[i := phase][..last] == claims[..last];
    }
  }

  ghost predicate SlotsInv(s: Slots, perIdentity: nat) {
    s.global == Open(s.claims) && s.global <= GLOBAL_REVIEW_LIMIT &&
    (forall who | who in s.inFlight :: s.inFlight[who] > 0) &&
    forall who :: InFlight(s.inFlight, who) == Held(s.claims, who) <= perIdentity
  }

  lemma TakenKeepsSlots(a: Slots, step: Step, b: Slots, perIdentity: nat)
    requires SlotsInv(a, perIdentity) && Taken(a, step, b, perIdentity)
    ensures SlotsInv(b, perIdentity)
  {
    forall who ensures InFlight(b.inFlight, who) == Held(b.claims, who) <= perIdentity {
      TakenKeepsCounts(a, step, b, perIdentity, who);
    }
    TakenKeepsCounts(a, step, b, perIdentity, "");
  }

  lemma TakenKeepsCounts(a: Slots, step: Step, b: Slots, perIdentity: nat, who: string)
    requires SlotsInv(a, perIdentity) && Taken(a, step, b, perIdentity)
    ensures InFlight(b.inFlight, who) == Held(b.claims, who) <= perIdentity
    ensures b.global == Open(b.claims) <= GLOBAL_REVIEW_LIMIT
  {
    assert InFlight(a.inFlight, who) == Held(a.claims, who) <= perIdentity;
    if step.TakeGlobal? {
      assert b != a ==> b.claims[..|a.claims|] == a.claims;
    } else {
      CountsMove(a.claims, step.claim, b.claims[step.claim], who);
    }
  }

  lemma {:induction false} SlotsRunKeepsInv(states: seq<Slots>, steps: seq<Step>, perIdentity: nat, i: nat)
    requires SlotsRun(states, steps, perIdentity) && i < |states|
    ensures SlotsInv(states[i], perIdentity)
  {
    if i > 0 {
      SlotsRunKeepsInv(states, steps, perIdentity, i - 1);
      TakenKeepsSlots(states[i - 1], steps[i - 1], states[i], perIdentity);
    }
  }

  /** The in-flight counts added up. */
  ghost function Sum(counts: map<string, nat>): nat {
    if counts == map[] then 0
    else
      var who :| who in counts;
      counts[who] + Sum(counts - {who})
  }

  lemma {:induction false} SumWithout(counts: map<string, nat>, who: string)
    requires who in counts
    ensures Sum(counts) == counts[who] + Sum(counts - {who})
    decreases |counts.Keys|
  {
    var first :| first in counts && Sum(counts) == counts[first] + Sum(counts - {first});
    if first != who {
      SumWithout(counts - {first}, who);
      SumWithout(counts - {who}, first);
      assert counts - {first} - {who} == counts - {who} - {first};
    }
  }

  ghost predicate CountsHeld(counts: map<string, nat>, claims: seq<Phase>) {
    (forall who | who in counts :: counts[who] > 0) &&
    forall who :: InFlight(counts, who) == Held(claims, who)
  }

  lemma {:induction false} SumOfHeld(counts: map<string, nat>, claims: seq<Phase>)
    requires CountsHeld(counts, claims)
    ensures Sum(counts) == HeldByAnyone(claims)
  {
    if claims == [] {
      forall who ensures who !in counts { assert InFlight(counts, who) == Held(claims, who); }
      assert counts == map[];
    } else {
      var last := |claims| - 1;
      if claims[last].Holding? {
        var who := claims[last].who;
        assert InFlight(counts, who) == Held(claims, who) == Held(claims[..last], who) + 1;
        var fewer := FewerFlights(counts, who);
        forall other ensures InFlight(fewer, other) == Held(claims[..last], other) {
          assert InFlight(counts, other) == Held(claims, other);
        }
        SumOfHeld(fewer, claims[..last]);
        SumWithout(counts, who);
        if counts[who] > 1 {
          SumWithout(fewer, who);
          assert fewer - {who} == counts - {who};
        }
      } else {
        forall other ensures InFlight(counts, other) == Held(claims[..last], other) {
          assert InFlight(counts, other) == Held(claims, other);
        }
        SumOfHeld(counts, claims[..last]);
      }
    }
  }

  lemma {:induction false} HeldWhenSettled(claims: seq<Phase>)
    requires forall i | 0 <= i < |claims| :: claims[i].Holding? || claims[i].Done?
    ensures Open(claims) == HeldByAnyone(claims)
  {
    if claims != [] {
      HeldWhenSettled(claims[..|claims| - 1]);
    }
  }

  /** Whatever the interleaving, neither limit is ever passed, and while nobody is between two
      steps the global slots taken are the in-flight counts added up. */
  lemma SlotsAddUp(states: seq<Slots>, steps: seq<Step>, perIdentity: nat, i: nat)
    requires SlotsRun(states, steps, perIdentity) && i < |states|
    ensures states[i].global <= GLOBAL_REVIEW_LIMIT
    ensures forall who :: InFlight(states[i].inFlight, who) <= perIdentity
    ensures (forall c | 0 <= c < |states[i].claims| :: states[i].claims[c].Holding? || states[i].claims[c].Done?) ==>
              states[i].global == Sum(states[i].inFlight)
  {
    SlotsRunKeepsInv(states, steps, perIdentity, i);
    SumOfHeld(states[i].inFlight, states[i].claims);
    if forall c | 0 <= c < |states[i].claims| :: states[i].claims[c].Holding? || states[i].claims[c].Done? {
      HeldWhenSettled(states[i].claims);
    }
  }

  /** A release in progress can always be finished: its global slot is there to give back. */
  lemma SlotsAreThereToGiveBack(states: seq<Slots>, steps: seq<Step>, perIdentity: nat, i: nat, c: nat)
    requires SlotsRun(states, steps, perIdentity) && i < |states|
    requires c < |states[i].claims| && !states[i].claims[c].Done?
    ensures states[i].global > 0
    ensures states[i].claims[c].Holding? ==> InFlight(states[i].inFlight, states[i].claims[c].who) > 0
  {
    SlotsRunKeepsInv(states, steps, perIdentity, i);
    var phase := states[i].claims[c];
    CountsMove(states[i].claims, c, Done, if phase.Holding? then phase.who else "");
    if phase.Holding? {
      assert InFlight(states[i].inFlight, phase.who) == Held(states[i].claims, phase.who);
    }
  }

  // ---------------------------------------------------------------------------
  // The asks of one review
  // ---------------------------------------------------------------------------

  /** Where one ask stands: not started, with a global slot, turned away by the limit of its
      identity, asking, with an answer, without its identity slot, or done either way. */
  datatype Progress = Waiting | Global | Excess | Asking | Replied | Going | Refused | Answered

  /** The slots and the asks of one review; an ask that runs goes by its claim. */
  datatype Batch = Batch(slots: Slots, who: string, asks: seq<Progress>, claims: seq<nat>)

  /** One step of an ask of this review, or of somebody else. */
  datatype Move = Mine(k: nat) | Theirs(step: Step)

  predicate IsRunning(p: Progress) {
    p.Global? || p.Excess? || p.Asking? || p.Replied? || p.Going?
  }

  predicate IsDone(p: Progress) {
    p.Refused? || p.Answered?
  }

  function PhaseOf(p: Progress, who: string): Phase
    requires IsRunning(p)
  {
    match p
    case Global => Reserved(who)
    case Excess => TurnedAway(who)
    case Asking => Holding(who)
    case Replied => Holding(who)
    case Going => Leaving(who)
  }

  function Running(asks: seq<Progress>): nat {
    if asks == [] then 0 else Running(asks[..|asks| - 1]) + if IsRunning(asks[|asks| - 1]) then 1 else 0
  }

  function InIdentity(asks: seq<Progress>): nat {
    if asks == [] then 0
    else InIdentity(asks[..|asks| - 1]) + if asks[|asks| - 1].Asking? || asks[|asks| - 1].Replied? then 1 else 0
  }

  predicate Owns(b: Batch, claim: nat) {
    exists k | 0 <= k < |b.asks| && k < |b.claims| :: IsRunning(b.asks[k]) && b.claims[k] == claim
  }

  ghost predicate Moved(b: Batch, move: Move, c: Batch, perIdentity: nat) {
    match move
    case Mine(k) => k < |b.asks| && k < |b.claims| && MovedMine(b, k, c, perIdentity)
    case Theirs(step) =>
      Taken(b.slots, step, c.slots, perIdentity) && c == b.(slots := c.slots) &&
      (!step.TakeGlobal? ==> !Owns(b, step.claim))
  }

  ghost predicate MovedMine(b: Batch, k: nat, c: Batch, perIdentity: nat)
    requires k < |b.asks| && k < |b.claims|
  {
    var claim := b.claims[k];
    match b.asks[k]
    case Waiting =>
      Running(b.asks) < AT_ONCE && Taken(b.slots, TakeGlobal(b.who), c.slots, perIdentity) &&
      if b.slots.global < GLOBAL_REVIEW_LIMIT then
        c == b.(slots := c.slots, asks := b.asks[k := Global], claims := b.claims[k := |b.slots.claims|])
      else c == b.(slots := c.slots, asks := b.asks[k := Refused])
    case Global =>
      Taken(b.slots, TakeIdentity(claim), c.slots, perIdentity) &&
      c == b.(slots := c.slots, asks := b.asks[k := if InFlight(b.slots.inFlight, b.who) >= perIdentity then Excess else Asking])
    case Excess => Taken(b.slots, BackOff(claim), c.slots, perIdentity) && c == b.(slots := c.slots, asks := b.asks[k := Refused])
    case Asking => c == b.(asks := b.asks[k := Replied])
    case Replied => Taken(b.slots, LeaveIdentity(claim), c.slots, perIdentity) && c == b.(slots := c.slots, asks := b.asks[k := Going])
    case Going => Taken(b.slots, LeaveGlobal(claim), c.slots, perIdentity) && c == b.(slots := c.slots, asks := b.asks[k := Answered])
    case Refused => false
    case Answered => false
  }

  /** A run of moves; `alone` means that nobody else moves meanwhile. */
  ghost predicate BatchRun(states: seq<Batch>, moves: seq<Move>, perIdentity: nat, alone: bool) {
    |states| == |moves| + 1 &&
    forall i: nat | i < |moves| :: MoveAt(states, moves, i, perIdentity, alone)
  }

  ghost predicate MoveAt(states: seq<Batch>, moves: seq<Move>, i: nat, perIdentity: nat, alone: bool)
    requires |states| == |moves| + 1 && i < |moves|
  {
    Moved(states[i], moves[i], states[i + 1], perIdentity) && (alone ==> moves[i].Mine?)
  }

  ghost predicate Reaches(b: Batch, c: Batch, perIdentity: nat, alone: bool) {
    exists states, moves :: BatchRun(states, moves, perIdentity, alone) && states[0] == b && states[|states| - 1] == c
  }

  lemma ReachesItself(b: Batch, perIdentity: nat, alone: bool)
    ensures Reaches(b, b, perIdentity, alone)
  {
    assert BatchRun([b], [], perIdentity, alone);
  }

  lemma ReachesOn(b: Batch, c: Batch, move: Move, d: Batch, perIdentity: nat, alone: bool)
    requires Reaches(b, c, perIdentity, alone) && Moved(c, move, d, perIdentity) && (alone ==> move.Mine?)
    ensures Reaches(b, d, perIdentity, alone)
  {
    var states, moves :| BatchRun(states, moves, perIdentity, alone) && states[0] == b && states[|states| - 1] == c;
    var longer, more := states + [d], moves + [move];
    forall i: nat | i < |more| ensures MoveAt(longer, more, i, perIdentity, alone) {
      if i < |moves| {
        assert MoveAt(states, moves, i, perIdentity, alone);
        assert longer[i] == states[i] && longer[i + 1] == states[i + 1];
      }
    }
    assert BatchRun(longer, more, perIdentity, alone);
  }

  ghost predicate OwnClaim(b: Batch, k: nat)
    requires k < |b.asks| == |b.claims| && IsRunning(b.asks[k])
  {
    b.claims[k] < |b.slots.claims| && b.slots.claims[b.claims[k]] == PhaseOf(b.asks[k], b.who)
  }

  /** Every running ask holds its own claim in the phase it stands in, and at most eight run. */
  ghost predicate BatchInv(b: Batch, perIdentity: nat) {
    SlotsInv(b.slots, perIdentity) && |b.claims| == |b.asks| && Running(b.asks) <= AT_ONCE &&
    (forall k: nat | k < |b.asks| && IsRunning(b.asks[k]) :: OwnClaim(b, k)) &&
    (forall k: nat, l: nat | k < l < |b.asks| && IsRunning(b.asks[k]) && IsRunning(b.asks[l]) :: b.claims[k] != b.claims[l])
  }

  lemma {:induction false} AskMoves(asks: seq<Progress>, k: nat, p: Progress)
    requires k < |asks|
    ensures Running(asks[k := p]) == Running(asks) + (if IsRunning(p) then 1 else 0) - if IsRunning(asks[k]) then 1 else 0
    ensures InIdentity(asks[k := p]) == InIdentity(asks) + (if p.Asking? || p.Replied? then 1 else 0)
                                        - if asks[k].Asking? || asks[k].Replied? then 1 else 0
  {
    var last := |asks| - 1;
    if k < last {
      AskMoves(asks[..last], k, p);
      assert asks[k := p][..last] == asks[..last][k := p];
    } else {
      assert asks[k := p][..last] == asks[..last];
    }
  }

  /** What one of this review's steps does to its slots. */
  lemma MineTakes(b: Batch, k: nat, c: Batch, perIdentity: nat)
    requires BatchInv(b, perIdentity) && Moved(b, Mine(k), c, perIdentity)
    ensures SlotsInv(c.slots, perIdentity)
  {
    match b.asks[k]
    case Waiting => TakenKeepsSlots(b.slots, TakeGlobal(b.who), c.slots, perIdentity);
    case Global => TakenKeepsSlots(b.slots, TakeIdentity(b.claims[k]), c.slots, perIdentity);
    case Excess => TakenKeepsSlots(b.slots, BackOff(b.claims[k]), c.slots, perIdentity);
    case Replied => TakenKeepsSlots(b.slots, LeaveIdentity(b.claims[k]), c.slots, perIdentity);
    case Going => TakenKeepsSlots(b.slots, LeaveGlobal(b.claims[k]), c.slots, perIdentity);
    case _ =>
  }

  lemma TheirsKeepsInv(b: Batch, step: Step, c: Batch, perIdentity: nat)
    requires BatchInv(b, perIdentity) && Moved(b, Theirs(step), c, perIdentity)
    ensures BatchInv(c, perIdentity)
  {
    TakenKeepsSlots(b.slots, step, c.slots, perIdentity);
    forall k: nat | k < |c.asks| && IsRunning(c.asks[k]) ensures OwnClaim(c, k) {
      assert OwnClaim(b, k);
      assert Owns(b, b.claims[k]);
    }
  }

  lemma MineKeepsOwn(b: Batch, k: nat, c: Batch, perIdentity: nat, l: nat)
    requires BatchInv(b, perIdentity) && Moved(b, Mine(k), c, perIdentity) && l < |c.asks| && IsRunning(c.asks[l])
    ensures |c.claims| == |c.asks| && OwnClaim(c, l)
    ensures l != k ==> IsRunning(b.asks[l]) && c.claims[l] == b.claims[l] < |b.slots.claims|
    ensures l == k ==> c.claims[k] == if b.asks[k].Waiting? then |b.slots.claims| else b.claims[k]
  {
    if IsRunning(b.asks[l]) {
      assert OwnClaim(b, l);
    }
    if IsRunning(b.asks[k]) {
      assert OwnClaim(b, k);
    }
  }

  lemma MineKeepsInv(b: Batch, k: nat, c: Batch, perIdentity: nat)
    requires BatchInv(b, perIdentity) && Moved(b, Mine(k), c, perIdentity)
    ensures BatchInv(c, perIdentity)
  {
    MineTakes(b, k, c, perIdentity);
    AskMoves(b.asks, k, c.asks[k]);
    forall l: nat | l < |c.asks| && IsRunning(c.asks[l]) ensures OwnClaim(c, l) {
      MineKeepsOwn(b, k, c, perIdentity, l);
    }
    forall l: nat, m: nat | l < m < |c.asks| && IsRunning(c.asks[l]) && IsRunning(c.asks[m])
      ensures c.claims[l] != c.claims[m]
    {
      MineKeepsOwn(b, k, c, perIdentity, l);
      MineKeepsOwn(b, k, c, perIdentity, m);
    }
  }

  lemma MovedKeepsInv(b: Batch, move: Move, c: Batch, perIdentity: nat)
    requires BatchInv(b, perIdentity) && Moved(b, move, c, perIdentity)
    ensures BatchInv(c, perIdentity)
  {
    match move
    case Theirs(step) => TheirsKeepsInv(b, step, c, perIdentity);
    case Mine(k) => MineKeepsInv(b, k, c, perIdentity);
  }

  /** Nobody of this review has been refused. */
  predicate NoneRefused(asks: seq<Progress>) {
    forall k | 0 <= k < |asks| :: !asks[k].Refused? && !asks[k].Excess?
  }

  predicate AllWaiting(asks: seq<Progress>) {
    forall k | 0 <= k < |asks| :: asks[k].Waiting?
  }

  function Min(a: nat, b: nat): nat {
    if a < b then a else b
  }

  /** There is room for as many asks as can run at once. */
  predicate Room(slots: Slots, who: string, n: nat, perIdentity: nat) {
    InFlight(slots.inFlight, who) + Min(AT_ONCE, n) <= perIdentity && slots.global + Min(AT_ONCE, n) <= GLOBAL_REVIEW_LIMIT
  }

  /** While nobody else moves, exactly the running asks have taken more slots than at the start. */
  predicate OnlyOurs(b: Batch, c: Batch) {
    c.who == b.who && |c.asks| == |b.asks| && c.slots.global == b.slots.global + Running(c.asks) &&
    InFlight(c.slots.inFlight, c.who) == InFlight(b.slots.inFlight, b.who) + InIdentity(c.asks)
  }

  lemma {:induction false} RunningLeaves(asks: seq<Progress>, k: nat)
    requires k < |asks|
    ensures Running(asks) + (if IsRunning(asks[k]) then 0 else 1) <= |asks|
    ensures InIdentity(asks) + (if asks[k].Global? then 1 else 0) <= Running(asks)
  {
    var last := |asks| - 1;
    if k < last {
      RunningLeaves(asks[..last], k);
    } else {
      RunningAtMost(asks[..last]);
    }
  }

  lemma {:induction false} RunningAtMost(asks: seq<Progress>)
    ensures InIdentity(asks) <= Running(asks) <= |asks|
  {
    if asks != [] {
      RunningAtMost(asks[..|asks| - 1]);
    }
  }

  lemma MoveIsOurs(b: Batch, c: Batch, k: nat, d: Batch, perIdentity: nat)
    requires OnlyOurs(b, c) && BatchInv(c, perIdentity) && Moved(c, Mine(k), d, perIdentity)
    ensures OnlyOurs(b, d)
  {
    AskMoves(c.asks, k, d.asks[k]);
    if IsRunning(c.asks[k]) {
      assert OwnClaim(c, k);
    }
  }

  lemma MoveIsNotRefused(b: Batch, c: Batch, k: nat, d: Batch, perIdentity: nat)
    requires OnlyOurs(b, c) && BatchInv(c, perIdentity) && Moved(c, Mine(k), d, perIdentity)
    requires NoneRefused(c.asks) && Room(b.slots, b.who, |b.asks|, perIdentity)
    ensures NoneRefused(d.asks)
  {
    RunningLeaves(c.asks, k);
  }

  lemma {:induction false} RunStaysOurs(b: Batch, states: seq<Batch>, moves: seq<Move>, i: nat, perIdentity: nat)
    requires BatchInv(b, perIdentity) && AllWaiting(b.asks) && BatchRun(states, moves, perIdentity, true)
    requires states[0] == b && i < |states|
    ensures BatchInv(states[i], perIdentity) && OnlyOurs(b, states[i])
    ensures Room(b.slots, b.who, |b.asks|, perIdentity) ==> NoneRefused(states[i].asks)
  {
    if i == 0 {
      NoneRunning(b.asks);
    } else {
      RunStaysOurs(b, states, moves, i - 1, perIdentity);
      assert MoveAt(states, moves, i - 1, perIdentity, true);
      var k := moves[i - 1].k;
      MovedKeepsInv(states[i - 1], moves[i - 1], states[i], perIdentity);
      MoveIsOurs(b, states[i - 1], k, states[i], perIdentity);
      if Room(b.slots, b.who, |b.asks|, perIdentity) {
        MoveIsNotRefused(b, states[i - 1], k, states[i], perIdentity);
      }
    }
  }

  lemma {:induction false} NoneRunning(asks: seq<Progress>)
    requires forall k | 0 <= k < |asks| :: !IsRunning(asks[k])
    ensures Running(asks) == 0 && InIdentity(asks) == 0
  {
    if asks != [] {
      NoneRunning(asks[..|asks| - 1]);
    }
  }

  // ---------------------------------------------------------------------------
  // Exactly when nobody can be refused
  // ---------------------------------------------------------------------------

  /** The state after an ask has taken a global slot. */
  function Begun(c: Batch, k: nat): Batch
    requires k < |c.asks| == |c.claims|
  {
    c.(slots := c.slots.(global := c.slots.global + 1, claims := c.slots.claims + [Reserved(c.who)]),
       asks := c.asks[k := Global], claims := c.claims[k := |c.slots.claims|])
  }

  /** The state after it has taken an identity slot. */
  function Granted(c: Batch, k: nat): Batch
    requires k < |c.asks| == |c.claims| && c.claims[k] < |c.slots.claims|
  {
    c.(slots := c.slots.(inFlight := c.slots.inFlight[c.who := InFlight(c.slots.inFlight, c.who) + 1],
                         claims := c.slots.claims[c.claims[k] := Holding(c.who)]),
       asks := c.asks[k := Asking])
  }

  /** The first few asks are asking and the others wait. */
  predicate Filled(asks: seq<Progress>, j: nat) {
    forall k | 0 <= k < |asks| :: asks[k] == if k < j then Asking else Waiting
  }

  lemma {:induction false} FilledCounts(asks: seq<Progress>, j: nat)
    requires Filled(asks, j) && j <= |asks|
    ensures Running(asks) == j && InIdentity(asks) == j
  {
    if asks != [] {
      FilledCounts(asks[..|asks| - 1], if j == |asks| then j - 1 else j);
    }
  }

  /** As many asks as there is room for can all be asking at once. */
  lemma {:induction false} FillUp(b: Batch, j: nat, perIdentity: nat) returns (c: Batch)
    requires BatchInv(b, perIdentity) && AllWaiting(b.asks) && j <= Min(AT_ONCE, |b.asks|)
    requires b.slots.global + j <= GLOBAL_REVIEW_LIMIT && InFlight(b.slots.inFlight, b.who) + j <= perIdentity
    ensures Reaches(b, c, perIdentity, true) && BatchInv(c, perIdentity) && OnlyOurs(b, c) && Filled(c.asks, j)
  {
    if j == 0 {
      c := b;
      ReachesItself(b, perIdentity, true);
      NoneRunning(b.asks);
    } else {
      var d := FillUp(b, j - 1, perIdentity);
      FilledCounts(d.asks, j - 1);
      var e := BeginOne(b, d, j - 1, perIdentity);
      c := GrantOne(b, e, j - 1, perIdentity);
    }
  }

  lemma BeginOne(b: Batch, d: Batch, k: nat, perIdentity: nat) returns (e: Batch)
    requires Reaches(b, d, perIdentity, true) && BatchInv(d, perIdentity) && OnlyOurs(b, d)
    requires k < |d.asks| && d.asks[k].Waiting? && Running(d.asks) < AT_ONCE && d.slots.global < GLOBAL_REVIEW_LIMIT
    ensures Reaches(b, e, perIdentity, true) && BatchInv(e, perIdentity) && OnlyOurs(b, e)
    ensures e.asks == d.asks[k := Global] && e.slots.inFlight == d.slots.inFlight
  {
    e := Begun(d, k);
    assert Moved(d, Mine(k), e, perIdentity);
    ReachesOn(b, d, Mine(k), e, perIdentity, true);
    MovedKeepsInv(d, Mine(k), e, perIdentity);
    MoveIsOurs(b, d, k, e, perIdentity);
  }

  lemma GrantOne(b: Batch, e: Batch, k: nat, perIdentity: nat) returns (c: Batch)
    requires Reaches(b, e, perIdentity, true) && BatchInv(e, perIdentity) && OnlyOurs(b, e)
    requires k < |e.asks| && e.asks[k].Global? && InFlight(e.slots.inFlight, e.who) < perIdentity
    ensures Reaches(b, c, perIdentity, true) && BatchInv(c, perIdentity) && OnlyOurs(b, c)
    ensures c.asks == e.asks[k := Asking]
  {
    assert OwnClaim(e, k);
    c := Granted(e, k);
    assert Moved(e, Mine(k), c, perIdentity);
    ReachesOn(b, e, Mine(k), c, perIdentity, true);
    MovedKeepsInv(e, Mine(k), c, perIdentity);
    MoveIsOurs(b, e, k, c, perIdentity);
  }

  /** Where there is too little room, some order of steps gets an ask turned away. */
  lemma SomebodyIsRefused(b: Batch, perIdentity: nat) returns (c: Batch)
    requires BatchInv(b, perIdentity) && AllWaiting(b.asks) && !Room(b.slots, b.who, |b.asks|, perIdentity)
    ensures Reaches(b, c, perIdentity, true) && !NoneRefused(c.asks)
  {
    assert InFlight(b.slots.inFlight, b.who) == Held(b.slots.claims, b.who) <= perIdentity;
    var global, flying := GLOBAL_REVIEW_LIMIT - b.slots.global, perIdentity - InFlight(b.slots.inFlight, b.who);
    var j := if global < flying then global else flying;
    assert j < Min(AT_ONCE, |b.asks|);
    var d := FillUp(b, j, perIdentity);
    FilledCounts(d.asks, j);
    if d.slots.global >= GLOBAL_REVIEW_LIMIT {
      c := d.(asks := d.asks[j := Refused]);
      assert Moved(d, Mine(j), c, perIdentity);
      ReachesOn(b, d, Mine(j), c, perIdentity, true);
      assert c.asks[j].Refused?;
    } else {
      var e := BeginOne(b, d, j, perIdentity);
      c := TurnOneAway(b, e, j, perIdentity);
    }
  }

  lemma TurnOneAway(b: Batch, e: Batch, k: nat, perIdentity: nat) returns (c: Batch)
    requires Reaches(b, e, perIdentity, true) && BatchInv(e, perIdentity)
    requires k < |e.asks| && e.asks[k].Global? && InFlight(e.slots.inFlight, e.who) >= perIdentity
    ensures Reaches(b, c, perIdentity, true) && !NoneRefused(c.asks)
  {
    assert OwnClaim(e, k);
    c := e.(slots := e.slots.(claims := e.slots.claims[e.claims[k] := TurnedAway(e.who)]), asks := e.asks[k := Excess]);
    assert Moved(e, Mine(k), c, perIdentity);
    ReachesOn(b, e, Mine(k), c, perIdentity, true);
    assert c.asks[k].Excess?;
  }

  /** A review that has the slots to itself is never refused any of its asks, whatever their
      order, exactly when there is room for as many of them as can run at once beside the slots
      that are taken already. */
  lemma NoneRefusedIff(b: Batch, perIdentity: nat)
    requires BatchInv(b, perIdentity) && AllWaiting(b.asks)
    ensures Room(b.slots, b.who, |b.asks|, perIdentity) <==> forall c | Reaches(b, c, perIdentity, true) :: NoneRefused(c.asks)
  {
    if Room(b.slots, b.who, |b.asks|, perIdentity) {
      forall c | Reaches(b, c, perIdentity, true) ensures NoneRefused(c.asks) {
        var states, moves :| BatchRun(states, moves, perIdentity, true) && states[0] == b && states[|states| - 1] == c;
        RunStaysOurs(b, states, moves, |states| - 1, perIdentity);
      }
    } else {
      var c := SomebodyIsRefused(b, perIdentity);
    }
  }

  /** With others about, room at the start promises nothing: whatever the limits, they can take
      every global slot before this review takes one, so only a review without asks is safe. */
  lemma OthersTakeTheRoom(b: Batch, perIdentity: nat)
    requires BatchInv(b, perIdentity) && AllWaiting(b.asks)
    ensures (forall c | Reaches(b, c, perIdentity, false) :: NoneRefused(c.asks)) <==> b.asks == []
  {
    if b.asks == [] {
      forall c | Reaches(b, c, perIdentity, false) ensures NoneRefused(c.asks) {
        var states, moves :| BatchRun(states, moves, perIdentity, false) && states[0] == b && states[|states| - 1] == c;
        AsksStay(states, moves, |states| - 1, perIdentity, false);
      }
    } else {
      ReachesItself(b, perIdentity, false);
      var full := TheyTakeAll(b, b, perIdentity);
      var c := full.(asks := full.asks[0 := Refused]);
      NoneRunning(full.asks);
      assert Moved(full, Mine(0), c, perIdentity);
      ReachesOn(b, full, Mine(0), c, perIdentity, false);
      assert c.asks[0].Refused?;
    }
  }

  lemma {:induction false} AsksStay(states: seq<Batch>, moves: seq<Move>, i: nat, perIdentity: nat, alone: bool)
    requires BatchRun(states, moves, perIdentity, alone) && i < |states|
    ensures |states[i].asks| == |states[0].asks| && states[i].who == states[0].who
  {
    if i > 0 {
      AsksStay(states, moves, i - 1, perIdentity, alone);
      assert MoveAt(states, moves, i - 1, perIdentity, alone);
    }
  }

  lemma {:induction false} TheyTakeAll(b: Batch, c: Batch, perIdentity: nat) returns (full: Batch)
    requires Reaches(b, c, perIdentity, false) && BatchInv(c, perIdentity)
    ensures Reaches(b, full, perIdentity, false) && BatchInv(full, perIdentity)
    ensures full.slots.global == GLOBAL_REVIEW_LIMIT && full.asks == c.asks
    decreases GLOBAL_REVIEW_LIMIT - c.slots.global
  {
    full := c;
    if c.slots.global < GLOBAL_REVIEW_LIMIT {
      var d := c.(slots := c.slots.(global := c.slots.global + 1, claims := c.slots.claims + [Reserved("")]));
      assert Moved(c, Theirs(TakeGlobal("")), d, perIdentity);
      ReachesOn(b, c, Theirs(TakeGlobal("")), d, perIdentity, false);
      MovedKeepsInv(c, Theirs(TakeGlobal("")), d, perIdentity);
      full := TheyTakeAll(b, d, perIdentity);
    }
  }

  // ---------------------------------------------------------------------------
  // Exactly who is refused
  // ---------------------------------------------------------------------------

  /** How the asks of one review went, among everybody else's steps. */
  datatype Course = Course(states: seq<Batch>, moves: seq<Move>)

  /** An ask about to take a slot when there is none to take. */
  predicate FindsNoRoom(b: Batch, k: nat, perIdentity: nat)
    requires k < |b.asks|
  {
    (b.asks[k].Waiting? && b.slots.global >= GLOBAL_REVIEW_LIMIT) ||
    (b.asks[k].Global? && InFlight(b.slots.inFlight, b.who) >= perIdentity)
  }

  /** The claim of an ask was turned away at this move. */
  predicate TurnedAwayAt(course: Course, k: nat, i: nat, perIdentity: nat) {
    i < |course.moves| && i < |course.states| && course.moves[i] == Mine(k) &&
    k < |course.states[i].asks| && FindsNoRoom(course.states[i], k, perIdentity)
  }

  predicate IsRefused(p: Progress) {
    p.Refused? || p.Excess?
  }

  lemma OneMoreMove(course: Course, n: nat, k: nat, perIdentity: nat)
    requires BatchRun(course.states, course.moves, perIdentity, false) && 0 < n < |course.states|
    requires k < |course.states[n - 1].asks|
    ensures |course.states[n].asks| == |course.states[n - 1].asks|
    ensures IsRefused(course.states[n].asks[k]) <==>
            IsRefused(course.states[n - 1].asks[k]) || TurnedAwayAt(course, k, n - 1, perIdentity)
  {
    assert MoveAt(course.states, course.moves, n - 1, perIdentity, false);
  }

  /** An ask stands refused exactly when its own claim was turned away, for want of a global slot
      or of one of its identity. */
  lemma {:induction false} RefusedIffTurnedAway(course: Course, n: nat, k: nat, perIdentity: nat)
    requires BatchRun(course.states, course.moves, perIdentity, false) && n < |course.states|
    requires AllWaiting(course.states[0].asks) && k < |course.states[0].asks|
    ensures |course.states[n].asks| == |course.states[0].asks|
    ensures IsRefused(course.states[n].asks[k]) <==> exists i: nat :: i < n && TurnedAwayAt(course, k, i, perIdentity)
  {
    if n > 0 {
      RefusedIffTurnedAway(course, n - 1, k, perIdentity);
      OneMoreMove(course, n, k, perIdentity);
    }
  }

  // ---------------------------------------------------------------------------
  // The program
  // ---------------------------------------------------------------------------

  /** The counters the goroutines share. `claims` says where each goroutine that ever took a
      global slot stands; a goroutine keeps its own on its stack. */
  class Pool {
    var globalSlots: nat
    var inFlight: map<string, nat>
    var claims: seq<Phase>
    const perIdentity: nat

    constructor (perIdentity: nat)
      ensures Valid() && Now() == Slots(0, map[], []) && this.perIdentity == perIdentity
    {
      globalSlots, inFlight, claims := 0, map[], [];
      this.perIdentity := perIdentity;
    }

    function Now(): Slots
      reads this
    {
      Slots(globalSlots, inFlight, claims)
    }

    ghost predicate Valid()
      reads this
    {
      SlotsInv(Now(), perIdentity)
    }

    /** The first half of claiming: a slot of the channel, if there is one. */
    method TakeGlobal(who: string) returns (claim: Option<nat>)
      requires Valid()
      modifies this
      ensures Valid() && Taken(old(Now()), Step.TakeGlobal(who), Now(), perIdentity)
      ensures claim == if old(globalSlots) < GLOBAL_REVIEW_LIMIT then Some(|old(claims)|) else None
    {
      ghost var was := Now();
      if globalSlots >= GLOBAL_REVIEW_LIMIT {
        TakenKeepsSlots(was, Step.TakeGlobal(who), Now(), perIdentity);
        return None;
      }
      claim := Some(|claims|);
      globalSlots := globalSlots + 1;
      claims := claims + [Reserved(who)];
      TakenKeepsSlots(was, Step.TakeGlobal(who), Now(), perIdentity);
    }

    /** The second half, under the lock: a slot of the identity, if there is one. */
    method TakeIdentity(claim: nat) returns (ok: bool)
      requires Valid() && claim < |claims| && claims[claim].Reserved?
      modifies this
      ensures Valid() && Taken(old(Now()), Step.TakeIdentity(claim), Now(), perIdentity)
      ensures ok <==> InFlight(old(inFlight), old(claims)[claim].who) < perIdentity
    {
      ghost var was := Now();
      var who := claims[claim].who;
      ok := InFlight(inFlight, who) < perIdentity;
      if ok {
        inFlight := inFlight[who := InFlight(inFlight, who) + 1];
      }
      claims := claims[claim := if ok then Holding(who) else TurnedAway(who)];
      TakenKeepsSlots(was, Step.TakeIdentity(claim), Now(), perIdentity);
    }

    /** Whoever is turned away gives the global slot back. */
    method BackOff(claim: nat)
      requires Valid() && claim < |claims| && claims[claim].TurnedAway?
      modifies this
      ensures Valid() && Taken(old(Now()), Step.BackOff(claim), Now(), perIdentity)
    {
      ghost var was := Now();
      CountsMove(claims, claim, Done, "");
      globalSlots := globalSlots - 1;
      claims := claims[claim := Done];
      TakenKeepsSlots(was, Step.BackOff(claim), Now(), perIdentity);
    }

    /** The first half of the release, under the lock; no counter is left standing at nothing. */
    method LeaveIdentity(claim: nat)
      requires Valid() && claim < |claims| && claims[claim].Holding?
      modifies this
      ensures Valid() && Taken(old(Now()), Step.LeaveIdentity(claim), Now(), perIdentity)
    {
      ghost var was := Now();
      var who := claims[claim].who;
      CountsMove(claims, claim, Done, who);
      assert InFlight(inFlight, who) == Held(claims, who);
      inFlight := inFlight[who := inFlight[who] - 1];
      if inFlight[who] == 0 {
        inFlight := inFlight - {who};
      }
      claims := claims[claim := Leaving(who)];
      assert inFlight == FewerFlights(was.inFlight, who);
      TakenKeepsSlots(was, Step.LeaveIdentity(claim), Now(), perIdentity);
    }

    /** The second half: the slot of the channel. */
    method LeaveGlobal(claim: nat)
      requires Valid() && claim < |claims| && claims[claim].Leaving?
      modifies this
      ensures Valid() && Taken(old(Now()), Step.LeaveGlobal(claim), Now(), perIdentity)
    {
      ghost var was := Now();
      CountsMove(claims, claim, Done, "");
      globalSlots := globalSlots - 1;
      claims := claims[claim := Done];
      TakenKeepsSlots(was, Step.LeaveGlobal(claim), Now(), perIdentity);
    }

    /** Whether a step can be taken now. */
    predicate Enabled(step: Step)
      reads this
    {
      match step
      case TakeGlobal(_) => true
      case TakeIdentity(claim) => claim < |claims| && claims[claim].Reserved?
      case BackOff(claim) => claim < |claims| && claims[claim].TurnedAway?
      case LeaveIdentity(claim) => claim < |claims| && claims[claim].Holding?
      case LeaveGlobal(claim) => claim < |claims| && claims[claim].Leaving?
    }

    /** A step of somebody else. */
    method Take(step: Step)
      requires Valid() && Enabled(step)
      modifies this
      ensures Valid() && Taken(old(Now()), step, Now(), perIdentity)
    {
      match step
      case TakeGlobal(who) => var _ := TakeGlobal(who);
      case TakeIdentity(claim) => var _ := TakeIdentity(claim);
      case BackOff(claim) => BackOff(claim);
      case LeaveIdentity(claim) => LeaveIdentity(claim);
      case LeaveGlobal(claim) => LeaveGlobal(claim);
    }
  }

  /** The asks of a review have got this far from where they started. */
  ghost predicate Underway(course: Course, start: Batch, now: Batch, perIdentity: nat) {
    BatchInv(now, perIdentity) && BatchRun(course.states, course.moves, perIdentity, false) &&
    course.states[0] == start && course.states[|course.states| - 1] == now
  }

  /** The course with one more move. */
  function Then(course: Course, move: Move, now: Batch): Course {
    Course(course.states + [now], course.moves + [move])
  }

  lemma UnderwayOn(course: Course, start: Batch, now: Batch, move: Move, next: Batch, perIdentity: nat)
    requires Underway(course, start, now, perIdentity) && Moved(now, move, next, perIdentity)
    ensures Underway(Then(course, move, next), start, next, perIdentity)
  {
    var longer := Then(course, move, next);
    MovedKeepsInv(now, move, next, perIdentity);
    forall i: nat | i < |longer.moves| ensures MoveAt(longer.states, longer.moves, i, perIdentity, false) {
      if i < |course.moves| {
        assert MoveAt(course.states, course.moves, i, perIdentity, false);
        assert longer.states[i] == course.states[i] && longer.states[i + 1] == course.states[i + 1];
      }
    }
  }

  /** The steps of everybody else, in order. */
  function Others(moves: seq<Move>): seq<Step> {
    if moves == [] then []
    else
      var last := moves[|moves| - 1];
      Others(moves[..|moves| - 1]) + if last.Theirs? then [last.step] else []
  }

  /** Some of these steps, in the same order. */
  predicate Among(some: seq<Step>, steps: seq<Step>) {
    some == [] ||
    (steps != [] &&
     (Among(some, steps[..|steps| - 1]) ||
      (some[|some| - 1] == steps[|steps| - 1] && Among(some[..|some| - 1], steps[..|steps| - 1]))))
  }

  lemma OthersThen(moves: seq<Move>, move: Move)
    ensures Others(moves + [move]) == if move.Theirs? then Others(moves) + [move.step] else Others(moves)
  {
    assert (moves + [move])[..|moves|] == moves;
    assert Others(moves) + [] == Others(moves);
  }

  lemma AmongMore(some: seq<Step>, steps: seq<Step>, step: Step)
    requires Among(some, steps)
    ensures Among(some, steps + [step]) && Among(some + [step], steps + [step])
  {
    assert (steps + [step])[..|steps|] == steps && (some + [step])[..|some|] == some;
  }

  /** When nobody else moves, a course is a run of this review alone. */
  lemma {:induction false} NoOthers(moves: seq<Move>)
    requires Others(moves) == []
    ensures forall i | 0 <= i < |moves| :: moves[i].Mine?
  {
    if moves != [] {
      NoOthers(moves[..|moves| - 1]);
    }
  }

  /** Somebody else takes a step, if it can be taken and is not this review's to take. */
  method Yield(pool: Pool, who: string, asks: seq<Progress>, claims: seq<nat>, step: Step, ghost start: Batch, ghost before: Course)
    returns (ghost course: Course)
    requires Underway(before, start, Batch(pool.Now(), who, asks, claims), pool.perIdentity)
    modifies pool
    ensures Underway(course, start, Batch(pool.Now(), who, asks, claims), pool.perIdentity)
    ensures course.moves in {before.moves, before.moves + [Theirs(step)]}
  {
    var now := Batch(pool.Now(), who, asks, claims);
    course := before;
    if pool.Enabled(step) && (!step.TakeGlobal? ==> !Owns(now, step.claim)) {
      pool.Take(step);
      ghost var next := Batch(pool.Now(), who, asks, claims);
      UnderwayOn(before, start, now, Theirs(step), next, pool.perIdentity);
      course := Then(before, Theirs(step), next);
    }
  }

  /** Whether an ask can take its next step now. */
  predicate CanMove(asks: seq<Progress>, k: nat) {
    k < |asks| && !IsDone(asks[k]) && (asks[k].Waiting? ==> Running(asks) < AT_ONCE)
  }

  /** The next step of one ask of a review that is underway. */
  method Proceed(pool: Pool, who: string, asks: seq<Progress>, claims: seq<nat>, k: nat, ghost start: Batch, ghost before: Course)
    returns (moved: seq<Progress>, held: seq<nat>, ghost course: Course)
    requires Underway(before, start, Batch(pool.Now(), who, asks, claims), pool.perIdentity) && CanMove(asks, k)
    modifies pool
    ensures Underway(course, start, Batch(pool.Now(), who, moved, held), pool.perIdentity)
    ensures course.moves == before.moves + [Mine(k)]
    ensures |moved| == |asks| && moved == asks[k := moved[k]] && AllLeft(moved) < AllLeft(asks)
    ensures moved[k].Replied? <==> asks[k].Asking?
    ensures moved[k].Going? || moved[k].Answered? <==> asks[k].Replied? || asks[k].Going?
  {
    ghost var now := Batch(pool.Now(), who, asks, claims);
    moved, held := Advance(pool, who, asks, claims, k);
    ghost var next := Batch(pool.Now(), who, moved, held);
    LeftFalls(asks, k, moved[k]);
    UnderwayOn(before, start, now, Mine(k), next, pool.perIdentity);
    course := Then(before, Mine(k), next);
  }

  method Advance(pool: Pool, who: string, asks: seq<Progress>, claims: seq<nat>, k: nat)
    returns (moved: seq<Progress>, held: seq<nat>)
    requires BatchInv(Batch(pool.Now(), who, asks, claims), pool.perIdentity) && CanMove(asks, k)
    modifies pool
    ensures Moved(Batch(old(pool.Now()), who, asks, claims), Mine(k), Batch(pool.Now(), who, moved, held), pool.perIdentity)
    ensures BatchInv(Batch(pool.Now(), who, moved, held), pool.perIdentity)
    ensures |moved| == |asks| && moved == asks[k := moved[k]] && Left(moved[k]) < Left(asks[k])
    ensures moved[k].Replied? <==> asks[k].Asking?
    ensures moved[k].Going? || moved[k].Answered? ==> asks[k].Replied? || asks[k].Going?
    ensures asks[k].Replied? || asks[k].Going? ==> moved[k].Going? || moved[k].Answered?
  {
    ghost var b := Batch(pool.Now(), who, asks, claims);
    moved, held := asks, claims;
    if IsRunning(asks[k]) {
      assert OwnClaim(b, k);
    }
    match asks[k] {
      case Waiting =>
        var claim := pool.TakeGlobal(who);
        if claim.Some? {
          moved, held := asks[k := Global], claims[k := claim.value];
        } else {
          moved := asks[k := Refused];
        }
      case Global =>
        var ok := pool.TakeIdentity(claims[k]);
        moved := asks[k := if ok then Asking else Excess];
      case Excess =>
        pool.BackOff(claims[k]);
        moved := asks[k := Refused];
      case Asking =>
        moved := asks[k := Replied];
      case Replied =>
        pool.LeaveIdentity(claims[k]);
        moved := asks[k := Going];
      case Going =>
        pool.LeaveGlobal(claims[k]);
        moved := asks[k := Answered];
    }
    MovedKeepsInv(b, Mine(k), Batch(pool.Now(), who, moved, held), pool.perIdentity);
  }

  /** How many steps an ask has left at most. */
  function Left(p: Progress): nat {
    match p
    case Waiting => 6
    case Global => 5
    case Asking => 4
    case Replied => 3
    case Going => 2
    case Excess => 1
    case Refused => 0
    case Answered => 0
  }

  function AllLeft(asks: seq<Progress>): nat {
    if asks == [] then 0 else AllLeft(asks[..|asks| - 1]) + Left(asks[|asks| - 1])
  }

  lemma {:induction false} LeftFalls(asks: seq<Progress>, k: nat, p: Progress)
    requires k < |asks|
    ensures AllLeft(asks[k := p]) == AllLeft(asks) - Left(asks[k]) + Left(p)
  {
    var last := |asks| - 1;
    if k < last {
      LeftFalls(asks[..last], k, p);
      assert asks[k := p][..last] == asks[..last][k := p];
    } else {
      assert asks[k := p][..last] == asks[..last];
    }
  }

  /** Some ask that can take its next step, as long as one is not done. */
  method Pick(asks: seq<Progress>) returns (k: Option<nat>)
    ensures k.Some? ==> CanMove(asks, k.value)
    ensures k.None? ==> forall i | 0 <= i < |asks| :: IsDone(asks[i])
  {
    k := None;
    for i := 0 to |asks|
      invariant forall j | 0 <= j < i :: !IsRunning(asks[j])
      invariant k.None? ==> forall j | 0 <= j < i :: IsDone(asks[j])
      invariant k.Some? ==> k.value < i && asks[k.value].Waiting?
    {
      if IsRunning(asks[i]) {
        return Some(i);
      }
      if asks[i].Waiting? {
        k := Some(i);
      }
    }
    NoneRunning(asks);
  }
}
