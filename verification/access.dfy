/** Asking the cluster what somebody may do (internal/access). */
module Access {
  // Answers are remembered for a while, questions are asked in batches, and only so many at once.

  import opened Options
  import opened Sizes
  import opened Order
  import opened ReviewSlots

  type Time = int

  const REMEMBERED_LIMIT := 4096
  const IDENTITY_REVIEW_LIMIT := 8

  datatype Check = Check(verb: string, group: string, resource: string, subresource: string, namespace_: string, name: string)

  datatype Question = Question(who: string, check: Check)

  datatype Decision = Decision(allowed: bool, answered: bool, reason: string)

  datatype Answer = Answer(decision: Decision, asked: Time)

  /** What the cluster makes of a question. */
  datatype Reply = Failed(error: string) | Status(allowed: bool, evaluationError: string, reason: string)

  /** The cluster; without a client everything is allowed. */
  datatype Cluster = NoClient | Client(reply: Question -> Reply)

  const CAPACITY_FULL := Decision(false, false, "authorization check capacity is full")

  /** What asking one question alone gives when there is room to ask it. */
  function Direct(cluster: Cluster, want: Question): Decision {
    match cluster
    case NoClient => Decision(true, false, "")
    case Client(reply) =>
      match reply(want)
      case Failed(error) => Decision(false, false, error)
      case Status(allowed, evaluationError, reason) =>
        if evaluationError != "" && !allowed then Decision(false, false, evaluationError)
        else Decision(allowed, true, if allowed then "" else reason)
  }

  // ---------------------------------------------------------------------------
  // Remembered answers and slots
  // ---------------------------------------------------------------------------

  /** An answer the cluster gave, and when. */
  datatype Given = Given(want: Question, decision: Decision, at: Time)

  class Service {
    var seen: map<Question, Answer>
    const pool: Pool
    const cluster: Cluster
    const ttl: Time
    const capacity: int

    /** Every answer there ever was. */
    ghost var given: set<Given>

    constructor (cluster: Cluster, ttl: Time, capacity: int, identityLimit: int)
      ensures Valid() && given == {} && fresh(pool) && pool.Valid() && pool.Now() == Slots(0, map[], [])
      ensures this.cluster == cluster && this.ttl == ttl && this.capacity == capacity
      ensures pool.perIdentity == if identityLimit <= 0 then IDENTITY_REVIEW_LIMIT else identityLimit
    {
      seen, given := map[], {};
      pool := new Pool(if identityLimit <= 0 then IDENTITY_REVIEW_LIMIT else identityLimit);
      this.cluster, this.ttl, this.capacity := cluster, ttl, capacity;
    }

    function Room(): (room: nat)
      ensures room > 0
    {
      if capacity <= 0 then REMEMBERED_LIMIT else capacity
    }

    /** The cache is bounded, holds only answers that were given, and nothing but answers. */
    ghost predicate Valid()
      reads this
    {
      |seen| <= Room() &&
      (forall want | want in seen :: Given(want, seen[want].decision, seen[want].asked) in given) &&
      (forall one | one in given :: one.decision == Direct(cluster, one.want) && one.decision.answered)
    }

    method Recall(want: Question, now: Time) returns (held: Option<Decision>)
      requires Valid()
      modifies this`seen
      ensures Valid()
      ensures held == if want in old(seen) && now - old(seen)[want].asked <= ttl then Some(old(seen)[want].decision) else None
      ensures seen == if held.None? then old(seen) - {want} else old(seen)
      ensures held.Some? ==> exists at :: now - at <= ttl && Given(want, held.value, at) in given
    {
      if want !in seen {
        assert seen - {want} == seen;
        return None;
      }
      if now - seen[want].asked > ttl {
        DroppedSize(seen, want);
        seen := seen - {want};
        return None;
      }
      assert Given(want, seen[want].decision, seen[want].asked) in given;
      return Some(seen[want].decision);
    }

    method Remember(want: Question, decision: Decision, now: Time)
      requires Valid() && decision == Direct(cluster, want) && decision.answered
      modifies this`seen, this`given
      ensures Valid() && given == old(given) + {Given(want, decision, now)}
      ensures want in seen && seen[want] == Answer(decision, now)
      ensures MadeRoom(old(seen), seen - {want}, want, now, ttl, Room())
    {
      ghost var before := seen;
      var left := MakeRoom(want, now);
      AddedSize(left, want, Answer(decision, now));
      seen := left[want := Answer(decision, now)];
      given := given + {Given(want, decision, now)};
      assert seen - {want} == left - {want};
    }

    /** The entries worth keeping beside a new one. */
    method MakeRoom(want: Question, now: Time) returns (left: map<Question, Answer>)
      requires |seen| <= Room()
      ensures want in left || |left| < Room()
      ensures forall other | other in left :: other in seen && left[other] == seen[other]
      ensures |left| <= Room()
      ensures MadeRoom(seen, left - {want}, want, now, ttl, Room())
    {
      left := Fresh(now);
      if want in seen && want !in left {
        FewerKeys(left, seen, want);
      }
      if want !in left && |left| >= Room() {
        var oldest := Oldest(left);
        DroppedSize(left, oldest);
        left := left - {oldest};
      }
    }

    /** The entries that are still fresh. */
    method Fresh(now: Time) returns (left: map<Question, Answer>)
      ensures left == StillFresh(seen, now, ttl) && |left| <= |seen|
    {
      left := seen;
      var keys := seen.Keys;
      while keys != {}
        invariant keys <= seen.Keys
        invariant left == map want | want in seen && (want in keys || now - seen[want].asked <= ttl) :: seen[want]
        invariant |left| <= |seen|
        decreases keys
      {
        var want :| want in keys;
        if now - seen[want].asked > ttl {
          DroppedSize(left, want);
          left := left - {want};
        }
        keys := keys - {want};
      }
    }

    /** Some entry none is older than. */
    method Oldest(left: map<Question, Answer>) returns (oldest: Question)
      requires left != map[]
      ensures oldest in left && forall want | want in left :: left[oldest].asked <= left[want].asked
    {
      oldest :| oldest in left;
      var keys := left.Keys - {oldest};
      while keys != {}
        invariant keys <= left.Keys && oldest in left && oldest !in keys
        invariant forall want | want in left && want !in keys :: left[oldest].asked <= left[want].asked
        decreases keys
      {
        var want :| want in keys;
        keys := keys - {want};
        if left[want].asked < left[oldest].asked {
          oldest := want;
        }
      }
    }
  }

  function StillFresh(seen: map<Question, Answer>, now: Time, ttl: Time): map<Question, Answer> {
    map want | want in seen && now - seen[want].asked <= ttl :: seen[want]
  }

  /** What is left beside a new entry: entries that are still fresh, as they were; all of them
      unless the cache was full, and then none older than one that had to go. */
  ghost predicate MadeRoom(before: map<Question, Answer>, left: map<Question, Answer>, want: Question, now: Time, ttl: Time, room: nat) {
    (forall other | other in left :: other in before && left[other] == before[other] && now - left[other].asked <= ttl) &&
    (|before| < room || want in before ==>
      forall other | other in before && other != want && now - before[other].asked <= ttl :: other in left) &&
    (forall gone, kept | gone in before && gone != want && gone !in left && now - before[gone].asked <= ttl && kept in left ::
      before[gone].asked <= left[kept].asked)
  }

  // ---------------------------------------------------------------------------
  // A batch of questions
  // ---------------------------------------------------------------------------

  /** What asking each check alone would give. */
  function Decisions(cluster: Cluster, who: string, checks: seq<Check>): (decisions: seq<Decision>)
    ensures |decisions| == |checks|
    ensures forall i | 0 <= i < |checks| :: decisions[i] == Direct(cluster, Question(who, checks[i]))
  {
    seq(|checks|, i requires 0 <= i < |checks| => Direct(cluster, Question(who, checks[i])))
  }

  /** The answer to a check, or, when its own claim was turned away, that there was no room to ask. */
  function Told(cluster: Cluster, who: string, refused: set<Check>, check: Check): Decision {
    if check in refused then CAPACITY_FULL else Direct(cluster, Question(who, check))
  }

  predicate HasReply(p: Progress) {
    p.Replied? || p.Going? || p.Answered?
  }

  /** An ask that has its answer holds the cluster's, and every other stands refused so far. */
  ghost predicate Replies(cluster: Cluster, who: string, asked: seq<Check>, asks: seq<Progress>, decisions: seq<Decision>) {
    |asks| == |decisions| == |asked| &&
    forall k | 0 <= k < |asked| ::
      decisions[k] == if HasReply(asks[k]) then Direct(cluster, Question(who, asked[k])) else CAPACITY_FULL
  }

  /** Every answer that came was given for good, and nothing given before is lost. */
  ghost predicate Logged(cluster: Cluster, who: string, asked: seq<Check>, asks: seq<Progress>, before: set<Given>, given: set<Given>) {
    before <= given && |asks| == |asked| && forall k | 0 <= k < |asked| && HasReply(asks[k]) :: IsLogged(cluster, Question(who, asked[k]), given)
  }

  ghost predicate IsLogged(cluster: Cluster, want: Question, given: set<Given>) {
    Direct(cluster, want).answered ==> exists at :: Given(want, Direct(cluster, want), at) in given
  }

  /** Everything said of the asks while they run. */
  ghost predicate InStep(service: Service, who: string, asked: seq<Check>, asks: seq<Progress>, claims: seq<nat>,
                         decisions: seq<Decision>, before: set<Given>, start: Batch, course: Course)
    reads service, service.pool
  {
    var now := Batch(service.pool.Now(), who, asks, claims);
    service.Valid() && Underway(course, start, now, service.pool.perIdentity) &&
    Replies(service.cluster, who, asked, asks, decisions) && Logged(service.cluster, who, asked, asks, before, service.given)
  }

  /** One ask takes one step; the answer is remembered as it comes. */
  method Step(service: Service, who: string, asked: seq<Check>, asks: seq<Progress>, claims: seq<nat>, decisions: seq<Decision>,
              k: nat, now: Time, ghost before: set<Given>, ghost start: Batch, ghost course: Course)
    returns (moved: seq<Progress>, held: seq<nat>, replied: seq<Decision>, ghost further: Course)
    requires service.cluster.Client? && CanMove(asks, k)
    requires InStep(service, who, asked, asks, claims, decisions, before, start, course)
    modifies service, service.pool
    ensures InStep(service, who, asked, moved, held, replied, before, start, further) && AllLeft(moved) < AllLeft(asks)
    ensures further.moves == course.moves + [Mine(k)]
  {
    replied := Hear(service, who, asked, asks, decisions, k, now);
    moved, held, further := Proceed(service.pool, who, asks, claims, k, start, course);
  }

  method Hear(service: Service, who: string, asked: seq<Check>, asks: seq<Progress>, decisions: seq<Decision>, k: nat, now: Time)
    returns (replied: seq<Decision>)
    requires service.Valid() && k < |asked| && Replies(service.cluster, who, asked, asks, decisions)
    modifies service
    ensures service.Valid() && old(service.given) <= service.given
    ensures asks[k].Asking? ==> IsLogged(service.cluster, Question(who, asked[k]), service.given)
    ensures replied == if asks[k].Asking? then decisions[k := Direct(service.cluster, Question(who, asked[k]))] else decisions
  {
    if !asks[k].Asking? {
      return decisions;
    }
    var decision := Direct(service.cluster, Question(who, asked[k]));
    if decision.answered {
      service.Remember(Question(who, asked[k]), decision, now);
      assert Given(Question(who, asked[k]), decision, now) in service.given;
    }
    return decisions[k := decision];
  }

  /** Everybody else's steps are some of those a schedule has, in its order. */
  ghost predicate Scheduled(course: Course, schedule: seq<Move>) {
    Among(Others(course.moves), Others(schedule))
  }

  lemma OneMoreScheduled(course: Course, further: Course, schedule: seq<Move>, move: Move)
    requires Scheduled(course, schedule)
    requires further.moves == course.moves || (move.Theirs? && further.moves == course.moves + [move])
          || exists k :: further.moves == course.moves + [Mine(k)]
    ensures Scheduled(further, schedule + [move])
  {
    OthersThen(schedule, move);
    if move.Theirs? {
      OthersThen(course.moves, move);
      AmongMore(Others(course.moves), Others(schedule), move.step);
    }
    if k :| further.moves == course.moves + [Mine(k)] {
      OthersThen(course.moves, Mine(k));
    }
  }

  function Unstarted(asked: seq<Check>): seq<Progress> {
    seq(|asked|, _ => Waiting)
  }

  function NoClaims(asked: seq<Check>): seq<nat> {
    seq(|asked|, _ => 0)
  }

  /** The asks take their steps in the order a schedule says, with others taking their own in
      between; a step that cannot be taken is passed over. */
  method Follow(service: Service, who: string, asked: seq<Check>, clock: nat -> Time, schedule: seq<Move>, ghost start: Batch)
    returns (asks: seq<Progress>, claims: seq<nat>, decisions: seq<Decision>, ghost course: Course)
    requires service.Valid() && service.pool.Valid() && service.cluster.Client?
    requires start == Batch(service.pool.Now(), who, Unstarted(asked), NoClaims(asked))
    modifies service, service.pool
    ensures InStep(service, who, asked, asks, claims, decisions, old(service.given), start, course)
    ensures Scheduled(course, schedule)
  {
    ghost var before := service.given;
    asks, claims, decisions := Unstarted(asked), NoClaims(asked), seq(|asked|, _ => CAPACITY_FULL);
    course := Course([start], []);
    NoneRunning(asks);
    for i := 0 to |schedule|
      invariant InStep(service, who, asked, asks, claims, decisions, before, start, course)
      invariant Scheduled(course, schedule[..i])
    {
      var move := schedule[i];
      ghost var so := course;
      if move.Theirs? {
        course := Yield(service.pool, who, asks, claims, move.step, start, course);
      } else if CanMove(asks, move.k) {
        asks, claims, decisions, course :=
          Step(service, who, asked, asks, claims, decisions, move.k, clock(i), before, start, course);
      }
      OneMoreScheduled(so, course, schedule[..i], move);
      assert schedule[..i + 1] == schedule[..i] + [move];
    }
    assert schedule[..|schedule|] == schedule;
  }

  /** All the asks of one review went from one state of the slots to another, everybody else's steps
      being some of a schedule's, and each stands answered or refused. */
  ghost predicate Went(course: Course, who: string, asked: seq<Check>, before: Slots, after: Slots, perIdentity: nat,
                       schedule: seq<Move>)
  {
    BatchRun(course.states, course.moves, perIdentity, false) && Scheduled(course, schedule) &&
    course.states[0] == Batch(before, who, Unstarted(asked), NoClaims(asked)) &&
    var last := course.states[|course.states| - 1];
    last.slots == after && |last.asks| == |asked| && forall k | 0 <= k < |asked| :: IsDone(last.asks[k])
  }

  /** How the asks of a course stand in the end. */
  function Ends(course: Course): seq<Progress> {
    if course.states == [] then [] else course.states[|course.states| - 1].asks
  }

  /** All the asks of one review, to their end: as the schedule says, and what it leaves unfinished
      after that. An ask has the cluster's answer unless its own claim was turned away. */
  method AskAll(service: Service, who: string, asked: seq<Check>, clock: nat -> Time, schedule: seq<Move>)
    returns (decisions: seq<Decision>, ghost course: Course)
    requires service.Valid() && service.pool.Valid() && service.cluster.Client?
    modifies service, service.pool
    ensures service.Valid() && service.pool.Valid()
    ensures Went(course, who, asked, old(service.pool.Now()), service.pool.Now(), service.pool.perIdentity, schedule)
    ensures Decided(service.cluster, who, asked, Ends(course), decisions)
    ensures Logged(service.cluster, who, asked, Ends(course), old(service.given), service.given)
  {
    ghost var before := service.given;
    ghost var start := Batch(service.pool.Now(), who, Unstarted(asked), NoClaims(asked));
    var asks, claims;
    asks, claims, decisions, course := Follow(service, who, asked, clock, schedule, start);
    while true
      invariant InStep(service, who, asked, asks, claims, decisions, before, start, course)
      invariant Scheduled(course, schedule)
      decreases AllLeft(asks)
    {
      var k := Pick(asks);
      if k.None? {
        break;
      }
      OthersThen(course.moves, Mine(k.value));
      asks, claims, decisions, course :=
        Step(service, who, asked, asks, claims, decisions, k.value, clock(|schedule|), before, start, course);
    }
    Concluded(service.cluster, who, asked, asks, decisions);
  }

  lemma Concluded(cluster: Cluster, who: string, asked: seq<Check>, asks: seq<Progress>, decisions: seq<Decision>)
    requires Replies(cluster, who, asked, asks, decisions) && forall k | 0 <= k < |asks| :: IsDone(asks[k])
    ensures Decided(cluster, who, asked, asks, decisions)
  {}

  /** Every ask is done, with the cluster's answer or turned away. */
  ghost predicate Decided(cluster: Cluster, who: string, asked: seq<Check>, asks: seq<Progress>, decisions: seq<Decision>) {
    |asks| == |decisions| == |asked| &&
    forall k | 0 <= k < |asked| ::
      IsDone(asks[k]) && decisions[k] == if asks[k].Refused? then CAPACITY_FULL else Direct(cluster, Question(who, asked[k]))
  }

  predicate Apart(asked: seq<Check>) {
    forall k, l | 0 <= k < l < |asked| :: asked[k] != asked[l]
  }

  function TurnedAway(asked: seq<Check>, asks: seq<Progress>): set<Check> {
    set k | 0 <= k < |asked| && k < |asks| && asks[k].Refused? :: asked[k]
  }

  lemma DecidedIsTold(cluster: Cluster, who: string, asked: seq<Check>, asks: seq<Progress>, decisions: seq<Decision>)
    requires Decided(cluster, who, asked, asks, decisions) && Apart(asked)
    ensures forall k | 0 <= k < |asked| :: decisions[k] == Told(cluster, who, TurnedAway(asked, asks), asked[k])
  {
    forall k | 0 <= k < |asked| ensures asked[k] in TurnedAway(asked, asks) <==> asks[k].Refused? {
      if asked[k] in TurnedAway(asked, asks) {
        var l :| 0 <= l < |asked| && asks[l].Refused? && asked[l] == asked[k];
        assert l == k;
      }
    }
  }

  /** With nobody else about and room for as many as run at once nothing is turned away. */
  lemma AloneWithRoom(course: Course, who: string, asked: seq<Check>, before: Slots, after: Slots, perIdentity: nat, schedule: seq<Move>)
    requires Went(course, who, asked, before, after, perIdentity, schedule) && SlotsInv(before, perIdentity)
    requires Others(schedule) == [] && Room(before, who, |asked|, perIdentity)
    ensures TurnedAway(asked, Ends(course)) == {}
  {
    var start, last := course.states[0], course.states[|course.states| - 1];
    NoneRunning(start.asks);
    NoneIsAmong(Others(course.moves));
    NoOthers(course.moves);
    forall i: nat | i < |course.moves| ensures MoveAt(course.states, course.moves, i, perIdentity, true) {
      assert MoveAt(course.states, course.moves, i, perIdentity, false);
    }
    assert BatchRun(course.states, course.moves, perIdentity, true);
    RunStaysOurs(start, course.states, course.moves, |course.moves|, perIdentity);
  }

  lemma NoneIsAmong(some: seq<ReviewSlots.Step>)
    requires Among(some, [])
    ensures some == []
  {}

  // ---------------------------------------------------------------------------
  // From memory, and by asking
  // ---------------------------------------------------------------------------

  predicate StillKnown(memory: map<Question, Answer>, ttl: Time, want: Question, now: Time) {
    want in memory && now - memory[want].asked <= ttl
  }

  /** A place is answered from memory when its check was remembered, and was not found too old
      there or at an earlier place. */
  predicate FromMemory(memory: map<Question, Answer>, ttl: Time, who: string, checks: seq<Check>, clock: nat -> Time, i: nat)
    requires i < |checks|
  {
    forall j | 0 <= j <= i && checks[j] == checks[i] :: StillKnown(memory, ttl, Question(who, checks[i]), clock(j))
  }

  /** These of the first few places are answered from memory. */
  ghost predicate AreRemembered(remembered: set<nat>, memory: map<Question, Answer>, ttl: Time, who: string, checks: seq<Check>,
                                clock: nat -> Time, n: nat)
    requires n <= |checks|
  {
    forall i: nat :: i in remembered <==> i < n && FromMemory(memory, ttl, who, checks, clock, i)
  }

  /** A check waits to be asked for every place not answered from memory. */
  ghost predicate Places(checks: seq<Check>, n: nat, remembered: set<nat>, pending: map<Check, seq<nat>>) {
    n <= |checks| &&
    (forall check, k | check in pending && 0 <= k < |pending[check]| ::
      pending[check][k] < n && pending[check][k] !in remembered && checks[pending[check][k]] == check) &&
    (forall check | check in pending :: pending[check] != []) &&
    forall i: nat | i < n && i !in remembered :: StandsIn(checks, i, pending)
  }

  ghost predicate StandsIn(checks: seq<Check>, i: nat, pending: map<Check, seq<nat>>)
    requires i < |checks|
  {
    checks[i] in pending && i in pending[checks[i]]
  }

  function Queued(checks: seq<Check>, i: nat, pending: map<Check, seq<nat>>): map<Check, seq<nat>>
    requires i < |checks|
  {
    pending[checks[i] := (if checks[i] in pending then pending[checks[i]] else []) + [i]]
  }

  lemma NowWaits(checks: seq<Check>, i: nat, remembered: set<nat>, pending: map<Check, seq<nat>>)
    requires i < |checks| && Places(checks, i, remembered, pending) && i !in remembered
    ensures Places(checks, i + 1, remembered, Queued(checks, i, pending))
  {
    var queued := Queued(checks, i, pending);
    assert queued[checks[i]][|queued[checks[i]]| - 1] == i;
    forall check, k | check in queued && 0 <= k < |queued[check]|
      ensures queued[check][k] < i + 1 && queued[check][k] !in remembered && checks[queued[check][k]] == check
    {
      if check in pending && k < |pending[check]| {
        assert queued[check][k] == pending[check][k];
      }
    }
    forall j: nat | j < i && j !in remembered ensures StandsIn(checks, j, queued) {
      assert StandsIn(checks, j, pending);
    }
  }

  /** The first few checks are answered from memory or wait to be asked. */
  ghost predicate Dealt(cluster: Cluster, who: string, checks: seq<Check>, n: nat, out: seq<Decision>, remembered: set<nat>,
                        pending: map<Check, seq<nat>>)
  {
    |out| == |checks| && Places(checks, n, remembered, pending) &&
    forall i | i in remembered :: i < n && out[i] == Direct(cluster, Question(who, checks[i]))
  }

  /** What the cache still holds after the first few checks have been looked up. */
  ghost predicate LookedUp(memory: map<Question, Answer>, seen: map<Question, Answer>, ttl: Time, who: string, checks: seq<Check>,
                           clock: nat -> Time, n: nat)
    requires n <= |checks|
  {
    forall check ::
      (Question(who, check) in seen ==> Question(who, check) in memory && seen[Question(who, check)] == memory[Question(who, check)]) &&
      (Question(who, check) in seen <==> Question(who, check) in memory && NeverTooOld(memory, ttl, who, checks, clock, n, check))
  }

  predicate NeverTooOld(memory: map<Question, Answer>, ttl: Time, who: string, checks: seq<Check>, clock: nat -> Time, n: nat, check: Check)
    requires n <= |checks|
  {
    forall j | 0 <= j < n && checks[j] == check :: StillKnown(memory, ttl, Question(who, check), clock(j))
  }

  lemma LooksUp(memory: map<Question, Answer>, seen: map<Question, Answer>, after: map<Question, Answer>, ttl: Time, who: string,
                checks: seq<Check>, clock: nat -> Time, n: nat)
    requires n < |checks| && LookedUp(memory, seen, ttl, who, checks, clock, n)
    requires after == if StillKnown(seen, ttl, Question(who, checks[n]), clock(n)) then seen else seen - {Question(who, checks[n])}
    ensures StillKnown(seen, ttl, Question(who, checks[n]), clock(n)) <==> FromMemory(memory, ttl, who, checks, clock, n)
    ensures LookedUp(memory, after, ttl, who, checks, clock, n + 1)
  {
    var want := Question(who, checks[n]);
    assert want in seen <==> want in memory && NeverTooOld(memory, ttl, who, checks, clock, n, checks[n]);
  }

  method Remembered(service: Service, who: string, checks: seq<Check>, clock: nat -> Time)
    returns (out: seq<Decision>, ghost remembered: set<nat>, pending: map<Check, seq<nat>>)
    requires service.Valid()
    modifies service`seen
    ensures service.Valid() && Dealt(service.cluster, who, checks, |checks|, out, remembered, pending)
    ensures AreRemembered(remembered, old(service.seen), service.ttl, who, checks, clock, |checks|)
  {
    ghost var memory := service.seen;
    out := seq(|checks|, _ => Decision(false, false, ""));
    remembered, pending := {}, map[];
    for i := 0 to |checks|
      invariant service.Valid() && Dealt(service.cluster, who, checks, i, out, remembered, pending)
      invariant LookedUp(memory, service.seen, service.ttl, who, checks, clock, i)
      invariant AreRemembered(remembered, memory, service.ttl, who, checks, clock, i)
    {
      ghost var seen := service.seen;
      var held := service.Recall(Question(who, checks[i]), clock(i));
      LooksUp(memory, seen, service.seen, service.ttl, who, checks, clock, i);
      OneMoreRemembered(remembered, memory, service.ttl, who, checks, clock, i);
      if held.Some? {
        DealtFromMemory(service.cluster, who, checks, i, out, remembered, pending, held.value);
        out, remembered := out[i := held.value], remembered + {i};
        continue;
      }
      DealtToBeAsked(service.cluster, who, checks, i, out, remembered, pending);
      pending := Queued(checks, i, pending);
    }
  }

  lemma OneMoreRemembered(remembered: set<nat>, memory: map<Question, Answer>, ttl: Time, who: string, checks: seq<Check>,
                          clock: nat -> Time, n: nat)
    requires n < |checks| && AreRemembered(remembered, memory, ttl, who, checks, clock, n)
    ensures AreRemembered(if FromMemory(memory, ttl, who, checks, clock, n) then remembered + {n} else remembered,
                          memory, ttl, who, checks, clock, n + 1)
  {}

  lemma DealtFromMemory(cluster: Cluster, who: string, checks: seq<Check>, n: nat, out: seq<Decision>, remembered: set<nat>,
                        pending: map<Check, seq<nat>>, held: Decision)
    requires n < |checks| && Dealt(cluster, who, checks, n, out, remembered, pending)
    requires held == Direct(cluster, Question(who, checks[n]))
    ensures Dealt(cluster, who, checks, n + 1, out[n := held], remembered + {n}, pending)
  {}

  lemma DealtToBeAsked(cluster: Cluster, who: string, checks: seq<Check>, n: nat, out: seq<Decision>, remembered: set<nat>,
                       pending: map<Check, seq<nat>>)
    requires n < |checks| && Dealt(cluster, who, checks, n, out, remembered, pending)
    ensures Dealt(cluster, who, checks, n + 1, out, remembered, Queued(checks, n, pending))
  {
    NowWaits(checks, n, remembered, pending);
  }

  /** The checks to ask, each once, in any order. */
  method Distinct(pending: map<Check, seq<nat>>) returns (asked: seq<Check>)
    ensures |asked| == |pending.Keys| && forall check :: check in asked <==> check in pending
    ensures Apart(asked)
  {
    asked := [];
    var left := pending.Keys;
    while left != {}
      invariant left <= pending.Keys && |asked| + |left| == |pending.Keys|
      invariant forall check :: check in asked <==> check in pending && check !in left
      invariant forall k, l | 0 <= k < l < |asked| :: asked[k] != asked[l]
      decreases left
    {
      var check :| check in left;
      asked := asked + [check];
      left := left - {check};
    }
  }

  /** One decision at each of these places. */
  method PutAt(out: seq<Decision>, places: seq<nat>, decision: Decision) returns (filled: seq<Decision>)
    requires forall k | 0 <= k < |places| :: places[k] < |out|
    ensures |filled| == |out|
    ensures forall i | 0 <= i < |out| :: filled[i] == if i in places then decision else out[i]
  {
    filled := out;
    for k := 0 to |places|
      invariant |filled| == |out|
      invariant forall i | 0 <= i < |out| :: filled[i] == if i in places[..k] then decision else out[i]
    {
      filled := filled[places[k] := decision];
    }
    assert places[..|places|] == places;
  }

  /** Every decision at the places its check stands at. */
  method PutAll(cluster: Cluster, who: string, checks: seq<Check>, found: seq<Decision>, ghost remembered: set<nat>,
                pending: map<Check, seq<nat>>, asked: seq<Check>, decisions: seq<Decision>, ghost refused: set<Check>)
    returns (out: seq<Decision>)
    requires Dealt(cluster, who, checks, |checks|, found, remembered, pending) && |decisions| == |asked|
    requires forall check :: check in asked <==> check in pending
    requires forall k | 0 <= k < |asked| :: decisions[k] == Told(cluster, who, refused, asked[k])
    ensures Answers(cluster, who, checks, remembered, refused, out)
  {
    out := found;
    for k := 0 to |asked|
      invariant |out| == |checks|
      invariant AllPut(cluster, who, checks, remembered, refused, asked[..k], out)
    {
      ghost var before, done := out, asked[..k + 1];
      out := PutAt(out, pending[asked[k]], decisions[k]);
      forall i: nat | i < |checks| ensures PutSoFar(cluster, who, checks, remembered, refused, done, out, i) {
        OnePut(cluster, who, checks, k, asked, remembered, pending, refused, before, out, i);
      }
    }
    assert asked[..|asked|] == asked;
    AllIsPut(cluster, who, checks, remembered, pending, refused, asked, out);
  }

  lemma AllIsPut(cluster: Cluster, who: string, checks: seq<Check>, remembered: set<nat>, pending: map<Check, seq<nat>>,
                 refused: set<Check>, asked: seq<Check>, out: seq<Decision>)
    requires |out| == |checks| && AllPut(cluster, who, checks, remembered, refused, asked, out)
    requires Places(checks, |checks|, remembered, pending) && forall check :: check in asked <==> check in pending
    ensures Answers(cluster, who, checks, remembered, refused, out)
  {
    forall i: nat | i < |checks|
      ensures out[i] == if i in remembered then Direct(cluster, Question(who, checks[i])) else Told(cluster, who, refused, checks[i])
    {
      assert PutSoFar(cluster, who, checks, remembered, refused, asked, out, i);
      assert i in remembered || StandsIn(checks, i, pending);
    }
  }

  ghost predicate AllPut(cluster: Cluster, who: string, checks: seq<Check>, remembered: set<nat>, refused: set<Check>,
                         asked: seq<Check>, out: seq<Decision>)
    requires |checks| == |out|
  {
    forall i: nat | i < |checks| :: PutSoFar(cluster, who, checks, remembered, refused, asked, out, i)
  }

  ghost predicate PutSoFar(cluster: Cluster, who: string, checks: seq<Check>, remembered: set<nat>, refused: set<Check>,
                           asked: seq<Check>, out: seq<Decision>, i: nat)
    requires i < |checks| == |out|
  {
    (i in remembered ==> out[i] == Direct(cluster, Question(who, checks[i]))) &&
    (i !in remembered && checks[i] in asked ==> out[i] == Told(cluster, who, refused, checks[i]))
  }

  lemma OnePut(cluster: Cluster, who: string, checks: seq<Check>, k: nat, asked: seq<Check>, remembered: set<nat>,
               pending: map<Check, seq<nat>>, refused: set<Check>, before: seq<Decision>, out: seq<Decision>, i: nat)
    requires k < |asked| && asked[k] in pending && i < |checks| == |before| == |out|
    requires Places(checks, |checks|, remembered, pending)
    requires out[i] == if i in pending[asked[k]] then Told(cluster, who, refused, asked[k]) else before[i]
    requires AllPut(cluster, who, checks, remembered, refused, asked[..k], before)
    ensures PutSoFar(cluster, who, checks, remembered, refused, asked[..k + 1], out, i)
  {
    assert asked[..k + 1] == asked[..k] + [asked[k]];
    assert PutSoFar(cluster, who, checks, remembered, refused, asked[..k], before, i);
    if i in pending[asked[k]] {
      var at :| 0 <= at < |pending[asked[k]]| && pending[asked[k]][at] == i;
      assert i !in remembered && checks[i] == asked[k];
    } else if i !in remembered {
      assert StandsIn(checks, i, pending);
    }
  }

  /** What stands at each place: the cluster's answer where it was remembered, and elsewhere the
      answer too unless the check was turned away. */
  predicate Answers(cluster: Cluster, who: string, checks: seq<Check>, remembered: set<nat>, refused: set<Check>, out: seq<Decision>) {
    |out| == |checks| &&
    forall i: nat | i < |checks| ::
      out[i] == if i in remembered then Direct(cluster, Question(who, checks[i])) else Told(cluster, who, refused, checks[i])
  }

  /** How a review went: the places it answered from memory, what it asked, and how the asks went. */
  datatype Account = Account(remembered: set<nat>, asked: seq<Check>, course: Course)

  /** The checks whose own claims were turned away. */
  function Refused(account: Account): set<Check> {
    TurnedAway(account.asked, Ends(account.course))
  }

  /** Exactly the checks not answered from memory at some place are asked, each once. */
  ghost predicate AsksEachOnce(account: Account, checks: seq<Check>) {
    Apart(account.asked) && forall check :: check in account.asked <==> IsAsked(account.remembered, checks, check)
  }

  ghost predicate LookUp(account: Account, who: string, checks: seq<Check>, clock: nat -> Time, memory: map<Question, Answer>, ttl: Time) {
    AreRemembered(account.remembered, memory, ttl, who, checks, clock, |checks|) && AsksEachOnce(account, checks)
  }

  ghost predicate IsAsked(remembered: set<nat>, checks: seq<Check>, check: Check) {
    exists i: nat :: i < |checks| && i !in remembered && checks[i] == check
  }

  lemma PendingIsAsked(checks: seq<Check>, remembered: set<nat>, pending: map<Check, seq<nat>>, check: Check)
    requires Places(checks, |checks|, remembered, pending)
    ensures check in pending <==> IsAsked(remembered, checks, check)
  {
    if check in pending {
      var i := pending[check][0];
      assert i < |checks| && i !in remembered && checks[i] == check;
    }
    if i: nat :| i < |checks| && i !in remembered && checks[i] == check {
      assert StandsIn(checks, i, pending);
    }
  }

  /** The check at a place was asked there and its claim turned away. */
  predicate Away(account: Account, check: Check, place: nat) {
    place !in account.remembered && check in Refused(account)
  }

  /** What a decision says, told from the reply of the cluster alone, or that nobody was asked. */
  predicate Says(reply: Reply, away: bool, d: Decision) {
    (d.allowed <==> !away && reply.Status? && reply.allowed) &&
    (d.answered <==> !away && reply.Status? && (reply.allowed || reply.evaluationError == "")) &&
    d.reason == if away then "authorization check capacity is full"
                else if reply.Failed? then reply.error
                else if reply.allowed then ""
                else if reply.evaluationError != "" then reply.evaluationError
                else reply.reason
  }

  ghost predicate SaysEach(cluster: Cluster, who: string, checks: seq<Check>, account: Account, from: nat, out: seq<Decision>)
    requires cluster.Client?
  {
    |out| == |checks| &&
    forall i: nat | i < |checks| ::
      Says(cluster.reply(Question(who, checks[i])), Away(account, checks[i], from + i), out[i])
  }

  lemma AnswersSay(cluster: Cluster, who: string, checks: seq<Check>, account: Account, out: seq<Decision>)
    requires cluster.Client? && Answers(cluster, who, checks, account.remembered, Refused(account), out)
    ensures SaysEach(cluster, who, checks, account, 0, out)
  {}

  /** First what is remembered, then every other check once, eight at a time among everybody else's:
      at every place the answer of the cluster, or, exactly where the check was not remembered and
      its own claim was turned away, that there was no room. */
  method Review(service: Service, who: string, checks: seq<Check>, clock: nat -> Time, schedule: seq<Move>)
    returns (out: seq<Decision>, ghost account: Account)
    requires service.Valid() && service.pool.Valid()
    modifies service, service.pool
    ensures service.Valid() && service.pool.Valid()
    ensures Answers(service.cluster, who, checks, account.remembered, Refused(account), out)
    ensures service.cluster.NoClient? ==> Refused(account) == {} && service.pool.Now() == old(service.pool.Now())
    ensures service.cluster.Client? ==>
              LookUp(account, who, checks, clock, old(service.seen), service.ttl) &&
              Went(account.course, who, account.asked, old(service.pool.Now()), service.pool.Now(), service.pool.perIdentity, schedule) &&
              Logged(service.cluster, who, account.asked, Ends(account.course), old(service.given), service.given)
    ensures Others(schedule) == [] && Room(old(service.pool.Now()), who, |account.asked|, service.pool.perIdentity) ==>
              Refused(account) == {}
    ensures Refused(account) == {} ==> out == Decisions(service.cluster, who, checks)
    ensures service.cluster.Client? ==> SaysEach(service.cluster, who, checks, account, 0, out)
    ensures service.cluster.NoClient? ==> out == seq(|checks|, _ => Decision(true, false, ""))
  {
    if service.cluster.NoClient? {
      out := Decisions(service.cluster, who, checks);
      account := Account({}, [], Course([], []));
      return;
    }
    var pending;
    ghost var remembered;
    out, remembered, pending := Remembered(service, who, checks, clock);
    out, account := AskPending(service, who, checks, out, remembered, pending, clock, schedule);
    NothingTurnedAway(service.cluster, who, checks, account.remembered, Refused(account), out);
    AnswersSay(service.cluster, who, checks, account, out);
  }

  lemma NothingTurnedAway(cluster: Cluster, who: string, checks: seq<Check>, remembered: set<nat>, refused: set<Check>, out: seq<Decision>)
    requires Answers(cluster, who, checks, remembered, refused, out)
    ensures refused == {} ==> out == Decisions(cluster, who, checks)
  {}

  /** The asks of a review, and their decisions put where they belong. */
  method AskPending(service: Service, who: string, checks: seq<Check>, found: seq<Decision>, ghost remembered: set<nat>,
                    pending: map<Check, seq<nat>>, clock: nat -> Time, schedule: seq<Move>)
    returns (out: seq<Decision>, ghost account: Account)
    requires service.Valid() && service.pool.Valid() && service.cluster.Client?
    requires Dealt(service.cluster, who, checks, |checks|, found, remembered, pending)
    modifies service, service.pool
    ensures service.Valid() && service.pool.Valid()
    ensures account.remembered == remembered && AsksEachOnce(account, checks)
    ensures Answers(service.cluster, who, checks, remembered, Refused(account), out)
    ensures Went(account.course, who, account.asked, old(service.pool.Now()), service.pool.Now(), service.pool.perIdentity, schedule)
    ensures Logged(service.cluster, who, account.asked, Ends(account.course), old(service.given), service.given)
    ensures Others(schedule) == [] && Room(old(service.pool.Now()), who, |account.asked|, service.pool.perIdentity) ==>
              Refused(account) == {}
  {
    ghost var before := service.pool.Now();
    var asked := Distinct(pending);
    forall check ensures check in asked <==> IsAsked(remembered, checks, check) {
      PendingIsAsked(checks, remembered, pending, check);
    }
    var decisions;
    ghost var course;
    decisions, course := AskAll(service, who, asked, clock, schedule);
    account := Account(remembered, asked, course);
    DecidedIsTold(service.cluster, who, asked, Ends(course), decisions);
    out := PutAll(service.cluster, who, checks, found, remembered, pending, asked, decisions, Refused(account));
    if Others(schedule) == [] && Room(before, who, |asked|, service.pool.perIdentity) {
      AloneWithRoom(course, who, asked, before, service.pool.Now(), service.pool.perIdentity, schedule);
    }
  }

  /** A check is turned away exactly when its own claim found no global slot, or none of its
      identity, at some moment of the course. */
  lemma RefusedIffNoRoom(account: Account, who: string, before: Slots, after: Slots, perIdentity: nat, schedule: seq<Move>, k: nat)
    requires Went(account.course, who, account.asked, before, after, perIdentity, schedule)
    requires Apart(account.asked) && k < |account.asked|
    ensures account.asked[k] in Refused(account) <==>
            exists i: nat :: i < |account.course.moves| && TurnedAwayAt(account.course, k, i, perIdentity)
  {
    var asks := Ends(account.course);
    RefusedIffTurnedAway(account.course, |account.course.moves|, k, perIdentity);
    assert IsDone(asks[k]);
    if account.asked[k] in Refused(account) {
      var l :| 0 <= l < |account.asked| && asks[l].Refused? && account.asked[l] == account.asked[k];
      assert l == k;
    }
  }

  // ---------------------------------------------------------------------------
  // Flattened, and split again
  // ---------------------------------------------------------------------------

  function Flatten(groups: seq<seq<Check>>): seq<Check> {
    if groups == [] then [] else Flatten(groups[..|groups| - 1]) + groups[|groups| - 1]
  }

  /** Where a group stands among the flattened checks. */
  lemma {:induction false} GroupStands(groups: seq<seq<Check>>, k: nat)
    requires k < |groups|
    ensures var at := |Flatten(groups[..k])|;
            at + |groups[k]| == |Flatten(groups[..k + 1])| <= |Flatten(groups)| &&
            Flatten(groups)[at..at + |groups[k]|] == groups[k]
  {
    var front := groups[..|groups| - 1];
    assert groups[..k + 1][..k] == groups[..k];
    if k < |groups| - 1 {
      GroupStands(front, k);
      assert front[..k] == groups[..k] && front[..k + 1] == groups[..k + 1];
    } else {
      assert groups[..k + 1] == groups && front == groups[..k];
    }
  }

  /** Where a group's checks stand in the batch. */
  function Start(groups: seq<seq<Check>>, k: nat): nat
    requires k < |groups|
  {
    |Flatten(groups[..k])|
  }

  /** The decisions on one group's own checks, which stand in the batch from a place on. */
  predicate RowAnswers(cluster: Cluster, who: string, checks: seq<Check>, from: nat, remembered: set<nat>, refused: set<Check>,
                       answers: seq<Decision>)
  {
    |answers| == |checks| &&
    forall j: nat | j < |checks| ::
      answers[j] == if from + j in remembered then Direct(cluster, Question(who, checks[j])) else Told(cluster, who, refused, checks[j])
  }

  predicate RowsAnswer(cluster: Cluster, who: string, groups: seq<seq<Check>>, remembered: set<nat>, refused: set<Check>, rows: seq<seq<Decision>>) {
    |rows| == |groups| && forall k: nat | k < |groups| :: RowAnswers(cluster, who, groups[k], Start(groups, k), remembered, refused, rows[k])
  }

  /** Each row is what asking its group alone would give. */
  predicate RowsDirect(cluster: Cluster, who: string, groups: seq<seq<Check>>, rows: seq<seq<Decision>>) {
    |rows| == |groups| && forall k | 0 <= k < |groups| :: rows[k] == Decisions(cluster, who, groups[k])
  }

  function Row(groups: seq<seq<Check>>, out: seq<Decision>, k: nat): (row: seq<Decision>)
    requires k < |groups| && |out| == |Flatten(groups)|
    ensures |row| == |groups[k]|
  {
    GroupStands(groups, k);
    var at := |Flatten(groups[..k])|;
    out[at..at + |groups[k]|]
  }

  function Rows(groups: seq<seq<Check>>, out: seq<Decision>): (rows: seq<seq<Decision>>)
    requires |out| == |Flatten(groups)|
    ensures |rows| == |groups| && forall k | 0 <= k < |groups| :: rows[k] == Row(groups, out, k)
  {
    seq(|groups|, k requires 0 <= k < |groups| => Row(groups, out, k))
  }

  /** The slice of a batch that belongs to a group answers that group's own checks, whatever the
      lengths of the groups. */
  lemma SlicesAnswerTheirGroups(cluster: Cluster, who: string, groups: seq<seq<Check>>, remembered: set<nat>, refused: set<Check>, out: seq<Decision>)
    requires Answers(cluster, who, Flatten(groups), remembered, refused, out)
    ensures RowsAnswer(cluster, who, groups, remembered, refused, Rows(groups, out))
    ensures refused == {} ==> RowsDirect(cluster, who, groups, Rows(groups, out))
  {
    forall k: nat | k < |groups|
      ensures RowAnswers(cluster, who, groups[k], Start(groups, k), remembered, refused, Row(groups, out, k))
    {
      SliceAnswers(cluster, who, groups, remembered, refused, out, k);
    }
    if refused == {} {
      forall k: nat | k < |groups| ensures Row(groups, out, k) == Decisions(cluster, who, groups[k]) {
        SliceAnswers(cluster, who, groups, remembered, refused, out, k);
      }
    }
  }

  lemma SliceAnswers(cluster: Cluster, who: string, groups: seq<seq<Check>>, remembered: set<nat>, refused: set<Check>,
                     out: seq<Decision>, k: nat)
    requires Answers(cluster, who, Flatten(groups), remembered, refused, out) && k < |groups|
    ensures RowAnswers(cluster, who, groups[k], Start(groups, k), remembered, refused, Row(groups, out, k))
  {
    forall j: nat | j < |groups[k]|
      ensures Start(groups, k) + j < |out| && Flatten(groups)[Start(groups, k) + j] == groups[k][j] &&
              Row(groups, out, k)[j] == out[Start(groups, k) + j]
    {
      SliceStands(groups, out, k, j);
    }
  }

  lemma SliceStands(groups: seq<seq<Check>>, out: seq<Decision>, k: nat, j: nat)
    requires k < |groups| && |out| == |Flatten(groups)| && j < |groups[k]|
    ensures var at := Start(groups, k);
            at + j < |out| && Flatten(groups)[at + j] == groups[k][j] && Row(groups, out, k)[j] == out[at + j]
  {
    var at := Start(groups, k);
    GroupStands(groups, k);
    assert Flatten(groups)[at..at + |groups[k]|][j] == Flatten(groups)[at + j];
  }

  datatype Refusal = Refusal(check: Check, reason: string)

  /** The first check that is not allowed, with the reason its answer gives. */
  function FirstRefused(checks: seq<Check>, answers: seq<Decision>): Option<Refusal>
    requires |answers| == |checks|
  {
    if checks == [] then None
    else if answers[0].allowed then FirstRefused(checks[1..], answers[1..])
    else Some(Refusal(checks[0], answers[0].reason))
  }

  method FirstRefusal(checks: seq<Check>, answers: seq<Decision>) returns (stopped: Option<Refusal>)
    requires |answers| == |checks|
    ensures stopped == FirstRefused(checks, answers)
    ensures stopped.None? <==> forall j | 0 <= j < |answers| :: answers[j].allowed
  {
    assert checks[0..] == checks && answers[0..] == answers;
    for i := 0 to |answers|
      invariant FirstRefused(checks, answers) == FirstRefused(checks[i..], answers[i..])
      invariant forall j | 0 <= j < i :: answers[j].allowed
    {
      assert checks[i..][1..] == checks[i + 1..] && answers[i..][1..] == answers[i + 1..];
      if answers[i].allowed {
        continue;
      }
      return Some(Refusal(checks[i], answers[i].reason));
    }
    return None;
  }

  /** The row each refused group stands at, and why; a row without checks is never refused. */
  function Refusals(groups: seq<seq<Check>>, rows: seq<seq<Decision>>): seq<(nat, Refusal)>
    requires |rows| == |groups| && forall k | 0 <= k < |groups| :: |rows[k]| == |groups[k]|
  {
    if groups == [] then []
    else
      var last := |groups| - 1;
      Refusals(groups[..last], rows[..last]) +
      match FirstRefused(groups[last], rows[last])
      case None => []
      case Some(refusal) => [(last, refusal)]
  }

  /** Each row says what the replies to its own checks say. */
  ghost predicate RowsSay(cluster: Cluster, who: string, groups: seq<seq<Check>>, account: Account, rows: seq<seq<Decision>>)
    requires cluster.Client?
  {
    |rows| == |groups| && forall k: nat | k < |groups| :: SaysEach(cluster, who, groups[k], account, Start(groups, k), rows[k])
  }

  lemma RowsAnswersSay(cluster: Cluster, who: string, groups: seq<seq<Check>>, account: Account, rows: seq<seq<Decision>>)
    requires cluster.Client? && RowsAnswer(cluster, who, groups, account.remembered, Refused(account), rows)
    ensures RowsSay(cluster, who, groups, account, rows)
  {
    forall k: nat | k < |groups| ensures SaysEach(cluster, who, groups[k], account, Start(groups, k), rows[k]) {
      RowAnswersSay(cluster, who, groups[k], account, Start(groups, k), rows[k]);
    }
  }

  lemma RowAnswersSay(cluster: Cluster, who: string, checks: seq<Check>, account: Account, from: nat, answers: seq<Decision>)
    requires cluster.Client? && RowAnswers(cluster, who, checks, from, account.remembered, Refused(account), answers)
    ensures SaysEach(cluster, who, checks, account, from, answers)
  {}

  /** The first of these checks that is not allowed, and what its answer says. */
  ghost predicate StopsAt(checks: seq<Check>, answers: seq<Decision>, refusal: Refusal) {
    exists j: nat :: j < |checks| == |answers| && !answers[j].allowed && (forall l | 0 <= l < j :: answers[l].allowed) &&
      refusal == Refusal(checks[j], answers[j].reason)
  }

  lemma {:induction false} FirstRefusedStops(checks: seq<Check>, answers: seq<Decision>, refusal: Refusal)
    requires |answers| == |checks|
    ensures FirstRefused(checks, answers) == Some(refusal) <==> StopsAt(checks, answers, refusal)
  {
    if checks != [] && answers[0].allowed {
      FirstRefusedStops(checks[1..], answers[1..], refusal);
      if StopsAt(checks[1..], answers[1..], refusal) {
        var j: nat :| j < |checks[1..]| && !answers[1..][j].allowed && (forall l | 0 <= l < j :: answers[1..][l].allowed) &&
          refusal == Refusal(checks[1..][j], answers[1..][j].reason);
        forall l | 0 <= l < j + 1 ensures answers[l].allowed {
          assert l > 0 ==> answers[1..][l - 1].allowed;
        }
        assert checks[j + 1] == checks[1..][j] && answers[j + 1] == answers[1..][j];
      }
      if StopsAt(checks, answers, refusal) {
        var j: nat :| j < |checks| && !answers[j].allowed && (forall l | 0 <= l < j :: answers[l].allowed) &&
          refusal == Refusal(checks[j], answers[j].reason);
        assert checks[j] == checks[1..][j - 1] && answers[j] == answers[1..][j - 1];
      }
    }
  }

  /** A row is stopped exactly at its first check that is not allowed. */
  lemma {:induction false} RefusalsIff(groups: seq<seq<Check>>, rows: seq<seq<Decision>>, k: nat, refusal: Refusal)
    requires |rows| == |groups| && forall i | 0 <= i < |groups| :: |rows[i]| == |groups[i]|
    ensures (k, refusal) in Refusals(groups, rows) <==> k < |groups| && StopsAt(groups[k], rows[k], refusal)
  {
    if groups != [] {
      var last := |groups| - 1;
      RefusalsIff(groups[..last], rows[..last], k, refusal);
      if k == last {
        FirstRefusedStops(groups[last], rows[last], refusal);
      }
    }
  }

  /** What a batch ensures of the rows it is split into. */
  ghost predicate RowsOf(service: Service, who: string, groups: seq<seq<Check>>, account: Account, rows: seq<seq<Decision>>) {
    RowsAnswer(service.cluster, who, groups, account.remembered, Refused(account), rows) &&
    (Refused(account) == {} ==> RowsDirect(service.cluster, who, groups, rows)) &&
    (service.cluster.Client? ==> RowsSay(service.cluster, who, groups, account, rows))
  }

  lemma RowsAre(service: Service, who: string, groups: seq<seq<Check>>, account: Account, out: seq<Decision>)
    requires Answers(service.cluster, who, Flatten(groups), account.remembered, Refused(account), out)
    ensures RowsOf(service, who, groups, account, Rows(groups, out))
  {
    SlicesAnswerTheirGroups(service.cluster, who, groups, account.remembered, Refused(account), out);
    if service.cluster.Client? {
      RowsAnswersSay(service.cluster, who, groups, account, Rows(groups, out));
    }
  }

  /** The loop `answer` and `ReviewEach` share: one batch for all rows, and each row judged by its
      own answers, those that found no room included. */
  method ReviewEach(service: Service, who: string, groups: seq<seq<Check>>, clock: nat -> Time, schedule: seq<Move>)
    returns (stopped: seq<(nat, Refusal)>, ghost rows: seq<seq<Decision>>, ghost account: Account)
    requires service.Valid() && service.pool.Valid()
    modifies service, service.pool
    ensures service.Valid() && service.pool.Valid()
    ensures RowsOf(service, who, groups, account, rows) && stopped == Refusals(groups, rows)
    ensures forall k: nat, refusal :: (k, refusal) in stopped <==> k < |groups| && StopsAt(groups[k], rows[k], refusal)
    ensures service.cluster.NoClient? ==> Refused(account) == {} && service.pool.Now() == old(service.pool.Now())
    ensures service.cluster.Client? ==>
              LookUp(account, who, Flatten(groups), clock, old(service.seen), service.ttl) &&
              Went(account.course, who, account.asked, old(service.pool.Now()), service.pool.Now(), service.pool.perIdentity, schedule) &&
              Logged(service.cluster, who, account.asked, Ends(account.course), old(service.given), service.given)
    ensures Others(schedule) == [] && Room(old(service.pool.Now()), who, |account.asked|, service.pool.perIdentity) ==>
              Refused(account) == {}
  {
    var checks := Flattened(groups);
    var decisions;
    decisions, account := Review(service, who, checks, clock, schedule);
    rows := Rows(groups, decisions);
    RowsAre(service, who, groups, account, decisions);
    stopped := EachRow(groups, decisions);
    forall k: nat, refusal ensures (k, refusal) in stopped <==> k < |groups| && StopsAt(groups[k], rows[k], refusal) {
      RefusalsIff(groups, rows, k, refusal);
    }
  }

  method EachRow(groups: seq<seq<Check>>, decisions: seq<Decision>) returns (stopped: seq<(nat, Refusal)>)
    requires |decisions| == |Flatten(groups)|
    ensures stopped == Refusals(groups, Rows(groups, decisions))
  {
    ghost var rows := Rows(groups, decisions);
    stopped := [];
    var at := 0;
    for i := 0 to |groups|
      invariant at == |Flatten(groups[..i])|
      invariant stopped == Refusals(groups[..i], rows[..i])
    {
      GroupStands(groups, i);
      assert groups[..i + 1][..i] == groups[..i] && rows[..i + 1][..i] == rows[..i];
      var answers := decisions[at..at + |groups[i]|];
      at := at + |groups[i]|;
      var refusal := FirstRefusal(groups[i], answers);
      if refusal.Some? {
        stopped := stopped + [(i, refusal.value)];
      }
    }
    assert groups[..|groups|] == groups && rows[..|groups|] == rows;
  }

  method Flattened(groups: seq<seq<Check>>) returns (checks: seq<Check>)
    ensures checks == Flatten(groups)
  {
    checks := [];
    for i := 0 to |groups|
      invariant checks == Flatten(groups[..i])
    {
      assert groups[..i + 1][..i] == groups[..i];
      checks := checks + groups[i];
    }
    assert groups[..|groups|] == groups;
  }

  // ---------------------------------------------------------------------------
  // Where somebody may read
  // ---------------------------------------------------------------------------

  datatype Verdict = Unanswered | Denied | Allowed

  method Decide(decisions: seq<Decision>) returns (verdict: Verdict)
    ensures verdict == VerdictOn(decisions)
  {
    if |decisions| == 0 {
      return Unanswered;
    }
    verdict := Allowed;
    for i := 0 to |decisions|
      invariant verdict == if forall j | 0 <= j < i :: decisions[j].answered then Allowed else Unanswered
      invariant forall j | 0 <= j < i :: decisions[j].answered ==> decisions[j].allowed
    {
      if !decisions[i].answered {
        verdict := Unanswered;
        continue;
      }
      if !decisions[i].allowed {
        return Denied;
      }
    }
  }

  /** One refusal decides; without any, one missing answer leaves it open. */
  function VerdictOn(decisions: seq<Decision>): Verdict {
    if exists i | 0 <= i < |decisions| :: decisions[i].answered && !decisions[i].allowed then Denied
    else if decisions != [] && forall i | 0 <= i < |decisions| :: decisions[i].answered then Allowed
    else Unanswered
  }

  type ChecksIn = string -> seq<Check>

  /** The names whose own answers come to a verdict. */
  function NamesWith(names: seq<string>, rows: seq<seq<Decision>>, verdict: Verdict): seq<string>
    requires |rows| == |names|
  {
    if names == [] then []
    else
      var last := |names| - 1;
      NamesWith(names[..last], rows[..last], verdict) + if VerdictOn(rows[last]) == verdict then [names[last]] else []
  }

  function Groups(names: seq<string>, checksIn: ChecksIn): (groups: seq<seq<Check>>)
    ensures |groups| == |names| && forall i | 0 <= i < |names| :: groups[i] == checksIn(names[i])
  {
    seq(|names|, i requires 0 <= i < |names| => checksIn(names[i]))
  }

  datatype Scope = Scope(namespaces: seq<string>, undecided: seq<string>)

  /** Every name goes by the verdict on its own checks; one that found no room to ask is undecided,
      unless another of its checks was refused by the cluster. */
  method Where(service: Service, who: string, names: seq<string>, checksIn: ChecksIn, clock: nat -> Time, schedule: seq<Move>)
    returns (scope: Scope, ghost rows: seq<seq<Decision>>, ghost account: Account)
    requires service.Valid() && service.pool.Valid()
    modifies service, service.pool
    ensures service.Valid() && service.pool.Valid()
    ensures RowsOf(service, who, Groups(names, checksIn), account, rows)
    ensures scope.namespaces == Sorted(NamesWith(names, rows, Allowed))
    ensures scope.undecided == Sorted(NamesWith(names, rows, Unanswered))
    ensures service.cluster.Client? ==> forall name ::
              (name in scope.namespaces <==> IsReadable(service.cluster, who, names, checksIn, account, name)) &&
              (name in scope.undecided <==> IsUndecided(service.cluster, who, names, checksIn, account, name))
    ensures service.cluster.NoClient? ==> Refused(account) == {} && service.pool.Now() == old(service.pool.Now())
    ensures service.cluster.Client? ==>
              LookUp(account, who, Flatten(Groups(names, checksIn)), clock, old(service.seen), service.ttl) &&
              Went(account.course, who, account.asked, old(service.pool.Now()), service.pool.Now(), service.pool.perIdentity, schedule) &&
              Logged(service.cluster, who, account.asked, Ends(account.course), old(service.given), service.given)
    ensures Others(schedule) == [] && Room(old(service.pool.Now()), who, |account.asked|, service.pool.perIdentity) ==>
              Refused(account) == {}
  {
    var checks, bounds := Bounded(names, checksIn);
    var decisions;
    decisions, account := Review(service, who, checks, clock, schedule);
    rows := Rows(Groups(names, checksIn), decisions);
    RowsAre(service, who, Groups(names, checksIn), account, decisions);
    var readable, unsure := EachName(names, bounds, decisions, Groups(names, checksIn));
    scope := Scope(Sorted(readable), Sorted(unsure));
    if service.cluster.Client? {
      forall name
        ensures name in scope.namespaces <==> IsReadable(service.cluster, who, names, checksIn, account, name)
        ensures name in scope.undecided <==> IsUndecided(service.cluster, who, names, checksIn, account, name)
      {
        SortedHolds(readable, name);
        SortedHolds(unsure, name);
        NamesAreJudged(service.cluster, who, names, checksIn, account, rows, name);
      }
    }
  }

  predicate AllowedAt(cluster: Cluster, who: string, check: Check, account: Account, place: nat)
    requires cluster.Client?
  {
    var reply := cluster.reply(Question(who, check));
    !Away(account, check, place) && reply.Status? && reply.allowed
  }

  predicate DeniedAt(cluster: Cluster, who: string, check: Check, account: Account, place: nat)
    requires cluster.Client?
  {
    var reply := cluster.reply(Question(who, check));
    !Away(account, check, place) && reply.Status? && !reply.allowed && reply.evaluationError == ""
  }

  /** There is something to check, and the cluster's own reply allows each of it. */
  predicate AllowsAll(cluster: Cluster, who: string, checks: seq<Check>, account: Account, from: nat)
    requires cluster.Client?
  {
    checks != [] && forall j: nat | j < |checks| :: AllowedAt(cluster, who, checks[j], account, from + j)
  }

  predicate DeniesSome(cluster: Cluster, who: string, checks: seq<Check>, account: Account, from: nat)
    requires cluster.Client?
  {
    exists j: nat :: j < |checks| && DeniedAt(cluster, who, checks[j], account, from + j)
  }

  lemma VerdictIs(cluster: Cluster, who: string, checks: seq<Check>, account: Account, from: nat, answers: seq<Decision>)
    requires cluster.Client? && SaysEach(cluster, who, checks, account, from, answers)
    ensures VerdictOn(answers) == Allowed <==> AllowsAll(cluster, who, checks, account, from)
    ensures VerdictOn(answers) == Denied <==> DeniesSome(cluster, who, checks, account, from)
  {
    forall j: nat | j < |checks|
      ensures answers[j].answered && !answers[j].allowed <==> DeniedAt(cluster, who, checks[j], account, from + j)
      ensures answers[j].allowed <==> AllowedAt(cluster, who, checks[j], account, from + j)
      ensures answers[j].allowed ==> answers[j].answered
    {
      assert Says(cluster.reply(Question(who, checks[j])), Away(account, checks[j], from + j), answers[j]);
    }
  }

  /** One of the places a name stands at is allowed all its checks. */
  ghost predicate IsReadable(cluster: Cluster, who: string, names: seq<string>, checksIn: ChecksIn, account: Account, name: string)
    requires cluster.Client?
  {
    exists i: nat :: i < |names| && names[i] == name &&
      AllowsAll(cluster, who, checksIn(name), account, Start(Groups(names, checksIn), i))
  }

  /** At one of its places a name is neither allowed everything nor denied anything. */
  ghost predicate IsUndecided(cluster: Cluster, who: string, names: seq<string>, checksIn: ChecksIn, account: Account, name: string)
    requires cluster.Client?
  {
    exists i: nat :: i < |names| && names[i] == name &&
      !AllowsAll(cluster, who, checksIn(name), account, Start(Groups(names, checksIn), i)) &&
      !DeniesSome(cluster, who, checksIn(name), account, Start(Groups(names, checksIn), i))
  }

  lemma {:induction false} NamesWithHolds(names: seq<string>, rows: seq<seq<Decision>>, verdict: Verdict, name: string)
    requires |rows| == |names|
    ensures name in NamesWith(names, rows, verdict) <==>
            exists i: nat :: i < |names| && names[i] == name && VerdictOn(rows[i]) == verdict
  {
    if names != [] {
      var last := |names| - 1;
      NamesWithHolds(names[..last], rows[..last], verdict, name);
      if i: nat :| i < |names| && names[i] == name && VerdictOn(rows[i]) == verdict {
        if i < last {
          assert names[..last][i] == name && rows[..last][i] == rows[i];
        }
      }
    }
  }

  lemma NamesAreJudged(cluster: Cluster, who: string, names: seq<string>, checksIn: ChecksIn, account: Account,
                       rows: seq<seq<Decision>>, name: string)
    requires cluster.Client? && RowsSay(cluster, who, Groups(names, checksIn), account, rows)
    ensures name in NamesWith(names, rows, Allowed) <==> IsReadable(cluster, who, names, checksIn, account, name)
    ensures name in NamesWith(names, rows, Unanswered) <==> IsUndecided(cluster, who, names, checksIn, account, name)
  {
    NamesWithHolds(names, rows, Allowed, name);
    NamesWithHolds(names, rows, Unanswered, name);
    var groups := Groups(names, checksIn);
    forall i: nat | i < |names| && names[i] == name
      ensures VerdictOn(rows[i]) == Allowed <==> AllowsAll(cluster, who, checksIn(name), account, Start(groups, i))
      ensures VerdictOn(rows[i]) == Denied <==> DeniesSome(cluster, who, checksIn(name), account, Start(groups, i))
    {
      assert groups[i] == checksIn(name);
      VerdictIs(cluster, who, groups[i], account, Start(groups, i), rows[i]);
    }
  }

  method EachName(names: seq<string>, bounds: seq<nat>, decisions: seq<Decision>, ghost groups: seq<seq<Check>>)
    returns (readable: seq<string>, unsure: seq<string>)
    requires |groups| == |names| && |decisions| == |Flatten(groups)|
    requires |bounds| == |names| + 1 && forall i | 0 <= i <= |names| :: bounds[i] == |Flatten(groups[..i])|
    ensures readable == NamesWith(names, Rows(groups, decisions), Allowed)
    ensures unsure == NamesWith(names, Rows(groups, decisions), Unanswered)
  {
    ghost var rows := Rows(groups, decisions);
    readable, unsure := [], [];
    for at := 0 to |names|
      invariant readable == NamesWith(names[..at], rows[..at], Allowed)
      invariant unsure == NamesWith(names[..at], rows[..at], Unanswered)
    {
      GroupStands(groups, at);
      OneMoreName(names, rows, at);
      var verdict := Decide(decisions[bounds[at]..bounds[at + 1]]);
      if verdict == Allowed {
        readable := readable + [names[at]];
      }
      if verdict == Unanswered {
        unsure := unsure + [names[at]];
      }
    }
    assert names[..|names|] == names && rows[..|names|] == rows;
  }

  lemma OneMoreName(names: seq<string>, rows: seq<seq<Decision>>, at: nat)
    requires at < |names| == |rows|
    ensures forall verdict :: NamesWith(names[..at + 1], rows[..at + 1], verdict) ==
              NamesWith(names[..at], rows[..at], verdict) + if VerdictOn(rows[at]) == verdict then [names[at]] else []
  {
    assert names[..at + 1][..at] == names[..at] && rows[..at + 1][..at] == rows[..at];
  }

  method Bounded(names: seq<string>, checksIn: ChecksIn) returns (checks: seq<Check>, bounds: seq<nat>)
    ensures checks == Flatten(Groups(names, checksIn)) && |bounds| == |names| + 1
    ensures forall i | 0 <= i <= |names| :: bounds[i] == |Flatten(Groups(names, checksIn)[..i])|
  {
    ghost var groups := Groups(names, checksIn);
    checks, bounds := [], [0];
    for i := 0 to |names|
      invariant checks == Flatten(groups[..i]) && |bounds| == i + 1
      invariant forall j | 0 <= j <= i :: bounds[j] == |Flatten(groups[..j])|
    {
      assert groups[..i + 1][..i] == groups[..i];
      checks := checks + checksIn(names[i]);
      bounds := bounds + [|checks|];
    }
    assert groups[..|names|] == groups;
  }
}
