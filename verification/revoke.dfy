/** The list of ended sessions (internal/auth/revoke.go). */
module Revocations {
  // It is taken together with the store that keeps it across restarts
  // (internal/store/revocations.go), which cuts times to milliseconds.

  import opened Options
  import opened Sessions

  const MILLI := 1_000_000

  function CutToMilli(t: Time): Time {
    t / MILLI * MILLI
  }

  const EMPTY: map<string, Time> := map[]

  // ---------------------------------------------------------------------------
  // What one call does
  // ---------------------------------------------------------------------------

  function Unexpired(gone: map<string, Time>, now: Time): map<string, Time> {
    map s | s in gone && now < gone[s] :: gone[s]
  }

  /** The sweep reads the clock before the revocation does. */
  function AfterRevoke(gone: map<string, Time>, session: string, swept: Time, now: Time, within: int): map<string, Time> {
    if session == "" then gone else Unexpired(gone, swept)[session := now + within]
  }

  predicate IsRevoked(gone: map<string, Time>, session: string, now: Time) {
    session != "" && session in gone && now < gone[session]
  }

  function AfterLook(gone: map<string, Time>, session: string, now: Time): map<string, Time> {
    if session != "" && session in gone && now >= gone[session] then gone - {session} else gone
  }

  function StillStored(stored: map<string, Time>, now: Time): map<string, Time> {
    map s | s in stored && stored[s] > CutToMilli(now) :: stored[s]
  }

  /** The store's upsert, after it has deleted what has run out; the last write wins. */
  function AfterWrite(stored: map<string, Time>, session: string, until: Time, now: Time): map<string, Time> {
    if session == "" then stored else StillStored(stored, now)[session := CutToMilli(until)]
  }

  /** The table of ended sessions; `works` says whether a call to the database comes through. */
  class Store {
    var rows: map<string, Time>

    constructor ()
      ensures rows == EMPTY
    {
      rows := EMPTY;
    }

    method Revoke(session: string, until: Time, now: Time, works: bool)
      modifies this
      ensures rows == if works then AfterWrite(old(rows), session, until, now) else old(rows)
    {
      if !works || session == "" {
        return;
      }
      var left := rows.Keys;
      while left != {}
        invariant left <= rows.Keys
        invariant rows == map s | s in old(rows) && (s in left || old(rows)[s] > CutToMilli(now)) :: old(rows)[s]
        decreases |left|
      {
        var one :| one in left;
        left := left - {one};
        if rows[one] <= CutToMilli(now) {
          rows := rows - {one};
        }
      }
      rows := rows[session := CutToMilli(until)];
    }

    method Revocations(now: Time, works: bool) returns (held: Option<map<string, Time>>)
      ensures held == if works then Some(StillStored(rows, now)) else None
    {
      if !works {
        return None;
      }
      return Some(StillStored(rows, now));
    }
  }

  class Revocations {
    var gone: map<string, Time>
    const within: int

    constructor (within: int)
      ensures gone == EMPTY && this.within == within
    {
      gone := EMPTY;
      this.within := within;
    }

    /** Takes over what the store still holds, if it can be read, as the process starts: nobody
        was listed before, and then exactly the store's sessions are out, each for as long as the
        store says. */
    method Keep(kept: Store, now: Time, works: bool)
      requires gone == EMPTY
      modifies this
      ensures forall s, t | now <= t ::
                IsRevoked(gone, s, t) <==> works && s != "" && s in kept.rows && t < kept.rows[s]
      ensures gone == if works then StillStored(kept.rows, now) else EMPTY
    {
      var held := kept.Revocations(now, works);
      if held.Some? {
        gone := gone + held.value;
      }
    }

    /** Returns what is to be written to the store, if anything. */
    method Revoke(session: string, swept: Time, now: Time) returns (until: Option<Time>)
      modifies this
      ensures gone == AfterRevoke(old(gone), session, swept, now, within)
      ensures until == if session == "" then None else Some(now + within)
    {
      if session == "" {
        return None;
      }
      Sweep(swept);
      gone := gone[session := now + within];
      return Some(now + within);
    }

    method Revoked(session: string, now: Time) returns (ended: bool)
      modifies this
      ensures ended == IsRevoked(old(gone), session, now)
      ensures gone == AfterLook(old(gone), session, now)
    {
      if session == "" || session !in gone {
        return false;
      }
      if now >= gone[session] {
        gone := gone - {session};
        return false;
      }
      return true;
    }

    method Sweep(now: Time)
      modifies this
      ensures gone == Unexpired(old(gone), now)
    {
      var left := gone.Keys;
      while left != {}
        invariant left <= gone.Keys
        invariant gone == map s | s in old(gone) && (s in left || now < old(gone)[s]) :: old(gone)[s]
        decreases |left|
      {
        var session :| session in left;
        left := left - {session};
        if now >= gone[session] {
          gone := gone - {session};
        }
      }
    }
  }

  // ---------------------------------------------------------------------------
  // Whole runs
  // ---------------------------------------------------------------------------

  /** A cookie handed out by this server, in the name of the sign-in it goes back to. */
  datatype Minted = Minted(cookie: Cookie, login: Time)

  /** A revocation that was asked for. */
  datatype Ended = Ended(session: string, at: Time)

  /** What a list owes a revocation: the session is out until then. */
  datatype Due = Due(session: string, at: Time, until: Time)

  /** `due` is what the list owes and `kept` what the store does; neither ever forgets by the
      clock. `unwritten` are the revocations whose write to the store has not come through. */
  datatype World = World(
    gone: map<string, Time>,
    stored: map<string, Time>,
    minted: set<Minted>,
    ended: set<Ended>,
    due: set<Due>,
    kept: set<Due>,
    unwritten: set<Ended>,
    clock: Time)

  datatype Action =
    | Login(who: Identity, at: Time)
    | Renew(from: Minted)
    | Look(session: string)
    | Revoke(session: string, swept: Time)
    | Write(ended: Ended)
    | Restart(readBack: bool)

  function Owed(cfg: Settings, e: Ended): Due {
    Due(e.session, e.at, e.at + cfg.maxAge)
  }

  function Stored(cfg: Settings, e: Ended): Due {
    Due(e.session, e.at, CutToMilli(e.at + cfg.maxAge))
  }

  function Overwritten(kept: set<Due>, d: Due): set<Due> {
    (set k | k in kept && k.session != d.session) + {d}
  }

  /** One step at the time the clock then reads. A renewal may happen at any moment after its
      cookie was accepted, so it is allowed for every cookie ever handed out. A write to the store
      comes some time after its revocation, in any order, or never. */
  ghost predicate Next(cfg: Settings, w: World, a: Action, w': World) {
    && w.clock <= w'.clock
    && match a
       case Login(who, at) =>
         at <= w'.clock &&
         w' == w.(minted := w.minted + {Minted(Encode(cfg, who, at, w'.clock), at)}, clock := w'.clock)
       case Renew(m) =>
         m in w.minted &&
         w' == w.(minted := w.minted + {Minted(Encode(cfg, m.cookie.who, FromUnix(m.cookie.issued), w'.clock), m.login)},
                  clock := w'.clock)
       case Look(session) =>
         w' == w.(gone := AfterLook(w.gone, session, w'.clock), clock := w'.clock)
       case Revoke(session, swept) =>
         w.clock <= swept <= w'.clock && Revokes(cfg, w, session, swept, w')
       case Write(e) =>
         e in w.unwritten &&
         w' == w.(stored := AfterWrite(w.stored, e.session, e.at + cfg.maxAge, e.at),
                  kept := Overwritten(w.kept, Stored(cfg, e)), unwritten := w.unwritten - {e}, clock := w'.clock)
       case Restart(readBack) =>
         w' == w.(gone := if readBack then StillStored(w.stored, w'.clock) else EMPTY,
                  due := if readBack then w.kept else {}, unwritten := {}, clock := w'.clock)
  }

  ghost predicate Revokes(cfg: Settings, w: World, session: string, swept: Time, w': World) {
    var e := Ended(session, w'.clock);
    if session == "" then w' == w.(clock := w'.clock)
    else
      w' == w.(gone := AfterRevoke(w.gone, session, swept, w'.clock, cfg.maxAge), ended := w.ended + {e},
               due := w.due + {Owed(cfg, e)}, unwritten := w.unwritten + {e}, clock := w'.clock)
  }

  ghost predicate Run(cfg: Settings, ws: seq<World>, acts: seq<Action>) {
    && |ws| == |acts| + 1
    && ws[0] == World(EMPTY, EMPTY, {}, {}, {}, {}, {}, ws[0].clock)
    && forall i: nat | i < |acts| :: Stepped(cfg, ws, acts, i)
  }

  ghost predicate Stepped(cfg: Settings, ws: seq<World>, acts: seq<Action>, i: nat)
    requires |ws| == |acts| + 1 && i < |acts|
  {
    Next(cfg, ws[i], acts[i], ws[i + 1])
  }

  /** A process that starts takes exactly the restart step. */
  method Start(cfg: Settings, kept: Store, now: Time, works: bool, ghost w: World) returns (rv: Revocations, ghost w': World)
    requires w.stored == kept.rows && w.clock <= now
    ensures fresh(rv) && rv.within == cfg.maxAge
    ensures Next(cfg, w, Restart(works), w') && w'.gone == rv.gone && w'.clock == now
  {
    rv := new Revocations(cfg.maxAge);
    rv.Keep(kept, now, works);
    w' := w.(gone := rv.gone, due := if works then w.kept else {}, unwritten := {}, clock := now);
  }

  // ---------------------------------------------------------------------------
  // The list against one that never forgets
  // ---------------------------------------------------------------------------

  ghost predicate IsDue(dues: set<Due>, s: string, t: Time) {
    exists d :: d in dues && d.session == s && t < d.until
  }

  /** From now on a list says of every session what one that never forgets would say. */
  ghost predicate Matches(held: map<string, Time>, dues: set<Due>, clock: Time) {
    forall s, t | clock <= t :: Agrees(held, dues, s, t)
  }

  ghost predicate Agrees(held: map<string, Time>, dues: set<Due>, s: string, t: Time) {
    IsRevoked(held, s, t) <==> s != "" && IsDue(dues, s, t)
  }

  ghost predicate Honest(cfg: Settings, minted: set<Minted>, clock: Time) {
    forall m | m in minted :: IsHonest(cfg, m, clock)
  }

  /** A cookie goes back to its sign-in, to the second, and expires with its age cap at the latest. */
  predicate IsHonest(cfg: Settings, m: Minted, clock: Time) {
    m.login <= clock && m.cookie.issued == Unix(m.login) && FromUnix(m.cookie.expires) <= m.login + cfg.maxAge
  }

  /** What is due goes back to a revocation, and ends with its age cap, to the millisecond. */
  ghost predicate Founded(cfg: Settings, dues: set<Due>, ended: set<Ended>) {
    forall d | d in dues ::
      Ended(d.session, d.at) in ended && CutToMilli(d.at + cfg.maxAge) <= d.until <= d.at + cfg.maxAge
  }

  ghost predicate Inv(cfg: Settings, w: World) {
    && (forall e | e in w.ended :: e.at <= w.clock && e.session != "")
    && w.unwritten <= w.ended
    && Honest(cfg, w.minted, w.clock)
    && Founded(cfg, w.due, w.ended) && Founded(cfg, w.kept, w.ended)
    && Matches(w.gone, w.due, w.clock) && Matches(w.stored, w.kept, w.clock)
  }

  /** A list may lose what has run out, to the millisecond, and no more. */
  lemma ForgettingIsSafe(held: map<string, Time>, left: map<string, Time>, dues: set<Due>, before: Time, now: Time)
    requires Matches(held, dues, before) && before <= now
    requires forall s | s in left :: s in held && left[s] == held[s]
    requires forall s | s in held && s !in left :: held[s] <= now
    ensures Matches(left, dues, now)
  {
    forall s, t | now <= t ensures Agrees(left, dues, s, t) {
      assert Agrees(held, dues, s, t);
    }
  }

  /** One more entry, later than everything due before. */
  lemma AddingOne(held: map<string, Time>, dues: set<Due>, d: Due, now: Time)
    requires Matches(held, dues, now) && d.session != ""
    requires forall o | o in dues :: o.until <= d.until
    ensures Matches(held[d.session := d.until], dues + {d}, now)
  {
    var after, more := held[d.session := d.until], dues + {d};
    forall s, t | now <= t ensures Agrees(after, more, s, t) {
      assert Agrees(held, dues, s, t);
      if s == d.session && t < d.until {
        assert d in more;
      }
      if IsDue(dues, s, t) {
        var o :| o in dues && o.session == s && t < o.until;
        assert o in more;
      }
    }
  }

  /** The last write of a session stands for it. */
  lemma Overwriting(held: map<string, Time>, dues: set<Due>, d: Due, now: Time)
    requires Matches(held, dues, now) && d.session != ""
    ensures Matches(held[d.session := d.until], Overwritten(dues, d), now)
  {
    var after, more := held[d.session := d.until], Overwritten(dues, d);
    forall s, t | now <= t ensures Agrees(after, more, s, t) {
      assert Agrees(held, dues, s, t);
      assert d in more;
      if s != d.session && IsDue(dues, s, t) {
        var o :| o in dues && o.session == s && t < o.until;
        assert o in more;
      }
    }
  }

  lemma CutInOrder(a: Time, b: Time)
    requires a <= b
    ensures CutToMilli(a) <= CutToMilli(b) && CutToMilli(a) <= a
  {}

  lemma RevokeKeepsInv(cfg: Settings, w: World, session: string, swept: Time, w': World)
    requires Inv(cfg, w) && Next(cfg, w, Revoke(session, swept), w')
    ensures Inv(cfg, w')
  {
    ForgettingIsSafe(w.stored, w.stored, w.kept, w.clock, w'.clock);
    if session == "" {
      ForgettingIsSafe(w.gone, w.gone, w.due, w.clock, w'.clock);
    } else {
      var e := Ended(session, w'.clock);
      ForgettingIsSafe(w.gone, Unexpired(w.gone, swept), w.due, w.clock, w'.clock);
      AddingOne(Unexpired(w.gone, swept), w.due, Owed(cfg, e), w'.clock);
      CutInOrder(e.at + cfg.maxAge, e.at + cfg.maxAge);
    }
  }

  lemma WriteKeepsInv(cfg: Settings, w: World, e: Ended, w': World)
    requires Inv(cfg, w) && Next(cfg, w, Write(e), w')
    ensures Inv(cfg, w')
  {
    ForgettingIsSafe(w.gone, w.gone, w.due, w.clock, w'.clock);
    CutInOrder(e.at, w'.clock);
    ForgettingIsSafe(w.stored, StillStored(w.stored, e.at), w.kept, w.clock, w'.clock);
    Overwriting(StillStored(w.stored, e.at), w.kept, Stored(cfg, e), w'.clock);
    CutInOrder(e.at + cfg.maxAge, e.at + cfg.maxAge);
  }

  lemma RestartKeepsInv(cfg: Settings, w: World, readBack: bool, w': World)
    requires Inv(cfg, w) && Next(cfg, w, Restart(readBack), w')
    ensures Inv(cfg, w')
  {
    CutInOrder(w'.clock, w'.clock);
    ForgettingIsSafe(w.stored, w.stored, w.kept, w.clock, w'.clock);
    if readBack {
      ForgettingIsSafe(w.stored, w'.gone, w.kept, w.clock, w'.clock);
    }
  }

  lemma NextKeepsInv(cfg: Settings, w: World, a: Action, w': World)
    requires Inv(cfg, w) && Next(cfg, w, a, w')
    ensures Inv(cfg, w')
  {
    match a
    case Revoke(session, swept) => RevokeKeepsInv(cfg, w, session, swept, w');
    case Write(e) => WriteKeepsInv(cfg, w, e, w');
    case Restart(readBack) => RestartKeepsInv(cfg, w, readBack, w');
    case _ =>
      ForgettingIsSafe(w.stored, w.stored, w.kept, w.clock, w'.clock);
      ForgettingIsSafe(w.gone, w'.gone, w.due, w.clock, w'.clock);
      MintingIsHonest(cfg, w, a, w');
  }

  lemma MintingIsHonest(cfg: Settings, w: World, a: Action, w': World)
    requires Honest(cfg, w.minted, w.clock) && Next(cfg, w, a, w')
    ensures Honest(cfg, w'.minted, w'.clock)
  {
    if a.Login? {
      Truncates(Expiry(cfg, a.at, w'.clock));
    } else if a.Renew? {
      var m := a.from;
      assert IsHonest(cfg, m, w.clock);
      Truncates(m.login);
      Truncates(Expiry(cfg, FromUnix(m.cookie.issued), w'.clock));
    }
  }

  lemma {:induction false} RunKeepsInv(cfg: Settings, ws: seq<World>, acts: seq<Action>, i: nat)
    requires Run(cfg, ws, acts) && i < |ws|
    ensures Inv(cfg, ws[i])
  {
    if i > 0 {
      RunKeepsInv(cfg, ws, acts, i - 1);
      assert Stepped(cfg, ws, acts, i - 1);
      NextKeepsInv(cfg, ws[i - 1], acts[i - 1], ws[i]);
    }
  }

  // ---------------------------------------------------------------------------
  // Theorems about every run
  // ---------------------------------------------------------------------------

  /** Whether a request carrying `c` is let in: the cookie is read at `read`, and the list of
      ended sessions is asked at `asked`. */
  predicate LetIn(cfg: Settings, gone: map<string, Time>, c: Cookie, read: Time, asked: Time) {
    Decode(cfg, c, read).Some? && !IsRevoked(gone, c.who.session, asked)
  }

  /** Exactly who is let in, in every run, with renewals, look-ups, sweeps, writes that race and
      restarts: whoever's cookie reads and for whose session nothing is due any more. Forgetting
      by the clock makes no difference to anybody. */
  lemma LetInIff(cfg: Settings, ws: seq<World>, acts: seq<Action>, i: nat, c: Cookie, read: Time, asked: Time)
    requires Run(cfg, ws, acts) && i < |ws| && ws[i].clock <= asked
    ensures LetIn(cfg, ws[i].gone, c, read, asked) <==>
            Decode(cfg, c, read).Some? &&
            (c.who.session == "" || forall d | d in ws[i].due && d.session == c.who.session :: asked >= d.until)
  {
    RunKeepsInv(cfg, ws, acts, i);
    assert Agrees(ws[i].gone, ws[i].due, c.who.session, asked);
  }

  /** Until the first restart everything that was revoked is due, for the whole age cap. */
  lemma {:induction false} EverythingIsDue(cfg: Settings, ws: seq<World>, acts: seq<Action>, i: nat)
    requires Run(cfg, ws, acts) && i < |ws|
    requires forall k | 0 <= k < i :: !acts[k].Restart?
    ensures ws[i].due == set e | e in ws[i].ended :: Owed(cfg, e)
  {
    if i > 0 {
      EverythingIsDue(cfg, ws, acts, i - 1);
      assert Stepped(cfg, ws, acts, i - 1);
    }
  }

  /** Without a restart: exactly those are let in whose cookie reads and whose session was last
      revoked an age cap ago or longer. */
  lemma LetInIffRevokedLongAgo(cfg: Settings, ws: seq<World>, acts: seq<Action>, i: nat, c: Cookie, read: Time, asked: Time)
    requires Run(cfg, ws, acts) && i < |ws| && ws[i].clock <= asked
    requires forall k | 0 <= k < i :: !acts[k].Restart?
    ensures LetIn(cfg, ws[i].gone, c, read, asked) <==>
            Decode(cfg, c, read).Some? &&
            forall e | e in ws[i].ended && e.session == c.who.session :: asked >= e.at + cfg.maxAge
  {
    RunKeepsInv(cfg, ws, acts, i);
    LetInIff(cfg, ws, acts, i, c, read, asked);
    EverythingIsDue(cfg, ws, acts, i);
    forall e | e in ws[i].ended ensures Owed(cfg, e) in ws[i].due {}
  }

  /** A revocation made at step k. */
  predicate RevokedAt(acts: seq<Action>, k: nat, session: string) {
    k < |acts| && acts[k].Revoke? && acts[k].session == session && session != ""
  }

  /** The revocation at step k made this due. */
  predicate DueFrom(cfg: Settings, ws: seq<World>, acts: seq<Action>, k: nat, d: Due)
    requires |ws| == |acts| + 1
  {
    RevokedAt(acts, k, d.session) && d == Owed(cfg, Ended(d.session, ws[k + 1].clock))
  }

  lemma OneMoreDue(cfg: Settings, ws: seq<World>, acts: seq<Action>, k: nat, d: Due)
    requires Run(cfg, ws, acts) && k < |acts| && !acts[k].Restart?
    ensures d in ws[k + 1].due <==> d in ws[k].due || DueFrom(cfg, ws, acts, k, d)
  {
    assert Stepped(cfg, ws, acts, k);
  }

  /** What is due is what was due after a step, and everything revoked since, until the next restart. */
  lemma {:induction false} DueSince(cfg: Settings, ws: seq<World>, acts: seq<Action>, r: nat, i: nat, d: Due)
    requires Run(cfg, ws, acts) && r < i < |ws|
    requires forall k | r < k < i :: !acts[k].Restart?
    ensures d in ws[i].due <==> (d in ws[r + 1].due || exists k: nat :: r < k < i && DueFrom(cfg, ws, acts, k, d))
  {
    if i > r + 1 {
      DueSince(cfg, ws, acts, r, i - 1, d);
      OneMoreDue(cfg, ws, acts, i - 1, d);
    }
  }

  /** Whether the writes up to the restart at step r keep a session out at a moment: the last of it
      does, its horizon cut to milliseconds. */
  predicate ReadBack(cfg: Settings, acts: seq<Action>, r: nat, session: string, asked: Time)
    requires r < |acts|
  {
    exists k: nat :: k < r && acts[k].Write? && acts[k].ended.session == session && LastWrite(acts, k, r) &&
      asked < CutToMilli(acts[k].ended.at + cfg.maxAge)
  }

  predicate RevokedSince(cfg: Settings, ws: seq<World>, acts: seq<Action>, r: nat, i: nat, session: string, asked: Time)
    requires i < |ws| == |acts| + 1
  {
    exists k: nat :: r < k < i && RevokedAt(acts, k, session) && asked < ws[k + 1].clock + cfg.maxAge
  }

  /** At any moment after a restart: exactly those are let in whose cookie reads, whose session was
      not revoked within an age cap since, and is not kept out by the last write of it to the store,
      where the restart could read it. */
  lemma LetInIffAfterRestart(cfg: Settings, ws: seq<World>, acts: seq<Action>, r: nat, i: nat, c: Cookie, read: Time, asked: Time)
    requires Run(cfg, ws, acts) && r < i < |ws| && acts[r].Restart? && ws[i].clock <= asked
    requires forall k | r < k < i :: !acts[k].Restart?
    ensures LetIn(cfg, ws[i].gone, c, read, asked) <==>
            Decode(cfg, c, read).Some? &&
            !RevokedSince(cfg, ws, acts, r, i, c.who.session, asked) &&
            !(acts[r].readBack && ReadBack(cfg, acts, r, c.who.session, asked))
  {
    LetInIff(cfg, ws, acts, i, c, read, asked);
    var session := c.who.session;
    if d :| d in ws[i].due && d.session == session && session != "" && asked < d.until {
      DueSince(cfg, ws, acts, r, i, d);
      if d in ws[r + 1].due {
        ReadBackIsDue(cfg, ws, acts, r, d, asked);
      } else {
        var k: nat :| r < k < i && DueFrom(cfg, ws, acts, k, d);
        assert RevokedAt(acts, k, session);
      }
    }
    if RevokedSince(cfg, ws, acts, r, i, session, asked) {
      var k: nat :| r < k < i && RevokedAt(acts, k, session) && asked < ws[k + 1].clock + cfg.maxAge;
      var d := Owed(cfg, Ended(session, ws[k + 1].clock));
      assert DueFrom(cfg, ws, acts, k, d);
      DueSince(cfg, ws, acts, r, i, d);
    }
    if acts[r].readBack && ReadBack(cfg, acts, r, session, asked) {
      var d := WriteIsDue(cfg, ws, acts, r, session, asked);
      DueSince(cfg, ws, acts, r, i, d);
    }
  }

  lemma ReadBackIsDue(cfg: Settings, ws: seq<World>, acts: seq<Action>, r: nat, d: Due, asked: Time)
    requires Run(cfg, ws, acts) && r < |acts| && acts[r].Restart? && d in ws[r + 1].due && asked < d.until
    ensures acts[r].readBack && ReadBack(cfg, acts, r, d.session, asked)
  {
    assert Stepped(cfg, ws, acts, r);
    KeptWasWritten(cfg, ws, acts, r, d);
  }

  lemma WriteIsDue(cfg: Settings, ws: seq<World>, acts: seq<Action>, r: nat, session: string, asked: Time) returns (d: Due)
    requires Run(cfg, ws, acts) && r < |acts| && acts[r] == Restart(true) && ReadBack(cfg, acts, r, session, asked)
    ensures d in ws[r + 1].due && d.session == session != "" && asked < d.until
  {
    var k: nat :| k < r && acts[k].Write? && acts[k].ended.session == session && LastWrite(acts, k, r) &&
      asked < CutToMilli(acts[k].ended.at + cfg.maxAge);
    assert Stepped(cfg, ws, acts, r);
    LastWriteIsKept(cfg, ws, acts, k, r);
    WritesName(cfg, ws, acts, k);
    d := Stored(cfg, acts[k].ended);
  }

  lemma WritesName(cfg: Settings, ws: seq<World>, acts: seq<Action>, k: nat)
    requires Run(cfg, ws, acts) && k < |acts| && acts[k].Write?
    ensures acts[k].ended.session != ""
  {
    RunKeepsInv(cfg, ws, acts, k);
    assert Stepped(cfg, ws, acts, k);
  }

  /** No later write before step i names the session this one does. */
  predicate LastWrite(acts: seq<Action>, k: nat, i: nat)
    requires k < i <= |acts| && acts[k].Write?
  {
    forall j | k < j < i && acts[j].Write? :: acts[j].ended.session != acts[k].ended.session
  }

  /** The last write of a session is what the store keeps of it. */
  lemma {:induction false} LastWriteIsKept(cfg: Settings, ws: seq<World>, acts: seq<Action>, k: nat, i: nat)
    requires Run(cfg, ws, acts) && k < i < |ws| && acts[k].Write? && LastWrite(acts, k, i)
    ensures Stored(cfg, acts[k].ended) in ws[i].kept
    ensures forall d | d in ws[i].kept && d.session == acts[k].ended.session :: d == Stored(cfg, acts[k].ended)
  {
    assert Stepped(cfg, ws, acts, i - 1);
    if k < i - 1 {
      LastWriteIsKept(cfg, ws, acts, k, i - 1);
    }
  }

  lemma {:induction false} KeptWasWritten(cfg: Settings, ws: seq<World>, acts: seq<Action>, i: nat, d: Due)
    requires Run(cfg, ws, acts) && i < |ws| && d in ws[i].kept
    ensures exists k: nat :: k < i && acts[k].Write? && LastWrite(acts, k, i) && Stored(cfg, acts[k].ended) == d
  {
    assert Stepped(cfg, ws, acts, i - 1);
    var a := acts[i - 1];
    if a.Write? && d == Stored(cfg, a.ended) {
      assert LastWrite(acts, i - 1, i);
    } else {
      KeptWasWritten(cfg, ws, acts, i - 1, d);
      var k: nat :| k < i - 1 && acts[k].Write? && LastWrite(acts, k, i - 1) && Stored(cfg, acts[k].ended) == d;
      assert LastWrite(acts, k, i);
    }
  }

  /** The instant up to which a revocation made at `at` is remembered whatever happens to the
      process: the store keeps no finer time. */
  function Horizon(cfg: Settings, at: Time): Time {
    CutToMilli(at + cfg.maxAge)
  }

  /** Whatever the age cap, every cookie of every run that goes back to a sign-in no later than
      `at` is dead by the horizon of a revocation made then. */
  lemma CookiesDieByTheHorizon(cfg: Settings, ws: seq<World>, acts: seq<Action>, i: nat, m: Minted, at: Time, t: Time)
    requires Run(cfg, ws, acts) && i < |ws| && m in ws[i].minted && m.login <= at
    requires t >= Horizon(cfg, at)
    ensures Decode(cfg, m.cookie, t).None?
  {
    RunKeepsInv(cfg, ws, acts, i);
    assert IsHonest(cfg, m, ws[i].clock);
    WholeSecondsAreKept(m.cookie.expires);
    CutInOrder(FromUnix(m.cookie.expires), at + cfg.maxAge);
  }

  lemma WholeSecondsAreKept(seconds: int)
    ensures CutToMilli(FromUnix(seconds)) == FromUnix(seconds)
  {
    assert FromUnix(seconds) == seconds * 1000 * MILLI;
  }

  /** The main result. In every run, renewals, look-ups, sweeps, later revocations, racing writes
      and restarts included, a cookie that goes back to a sign-in no later than a revocation that
      is due is let in only if it dies while the request is being judged. */
  lemma RevokedStaysOut(cfg: Settings, ws: seq<World>, acts: seq<Action>, i: nat, d: Due, m: Minted, read: Time, asked: Time)
    requires Run(cfg, ws, acts) && i < |ws|
    requires d in ws[i].due && m in ws[i].minted
    requires m.cookie.who.session == d.session && m.login <= d.at
    requires read <= asked && ws[i].clock <= asked
    ensures LetIn(cfg, ws[i].gone, m.cookie, read, asked) ==> Decode(cfg, m.cookie, asked).None?
  {
    RunKeepsInv(cfg, ws, acts, i);
    LetInIff(cfg, ws, acts, i, m.cookie, read, asked);
    assert Ended(d.session, d.at) in ws[i].ended;
    if asked >= d.until {
      CookiesDieByTheHorizon(cfg, ws, acts, i, m, d.at, asked);
    }
  }

  /** Nobody is locked out without cause, nor for longer than any cookie could live: an entry
      in force goes back to a revocation of that session less than the age cap ago. */
  lemma OnlyRevokedAreRefused(cfg: Settings, ws: seq<World>, acts: seq<Action>, i: nat, session: string, now: Time)
    requires Run(cfg, ws, acts) && i < |ws| && ws[i].clock <= now && IsRevoked(ws[i].gone, session, now)
    ensures exists e :: e in ws[i].ended && e.session == session && now < e.at + cfg.maxAge
  {
    RunKeepsInv(cfg, ws, acts, i);
    assert Agrees(ws[i].gone, ws[i].due, session, now);
    var d :| d in ws[i].due && d.session == session && now < d.until;
    assert Ended(session, d.at) in ws[i].ended;
  }

  // ---------------------------------------------------------------------------
  // Two runs that show the exceptions
  // ---------------------------------------------------------------------------

  /** The list forgets a session at the very moment its last cookie dies, so a request read just
      before and judged just after is let in. */
  lemma DyingCookieSlipsThrough(cfg: Settings, who: Identity)
    returns (ws: seq<World>, acts: seq<Action>, m: Minted, e: Ended, read: Time, asked: Time)
    requires cfg.ttl >= cfg.maxAge > 0 && cfg.maxAge % SECOND == 0
    requires who.user != "" && who.session != ""
    ensures Run(cfg, ws, acts) && e in ws[|acts|].ended && m in ws[|acts|].minted
    ensures m.cookie.who.session == e.session && m.login <= e.at
    ensures ws[|acts|].clock <= read <= asked
    ensures LetIn(cfg, ws[|acts|].gone, m.cookie, read, asked)
  {
    m, e := Minted(Encode(cfg, who, 0, 0), 0), Ended(who.session, 0);
    var w0 := World(EMPTY, EMPTY, {}, {}, {}, {}, {}, 0);
    var w1 := w0.(minted := {m});
    var w2 := w1.(gone := map[who.session := cfg.maxAge], ended := {e}, due := {Owed(cfg, e)}, unwritten := {e});
    acts := [Login(who, 0), Revoke(who.session, 0)];
    ws := [w0, w1, w2];
    read, asked := cfg.maxAge - 1, cfg.maxAge;
    assert AfterRevoke(EMPTY, who.session, 0, 0, cfg.maxAge) == w2.gone;
    assert Next(cfg, w0, acts[0], w1) && Next(cfg, w1, acts[1], w2);
    assert Stepped(cfg, ws, acts, 0) && Stepped(cfg, ws, acts, 1);
  }

  /** Two revocations of one session whose writes come through in the other order: after a
      restart a cookie the later one ended is let in while it is still good. */
  lemma RacingWritesForget(cfg: Settings, who: Identity)
    returns (ws: seq<World>, acts: seq<Action>, m: Minted, e: Ended, asked: Time)
    requires cfg.ttl >= cfg.maxAge > 2 * SECOND && cfg.maxAge % SECOND == 0
    requires who.user != "" && who.session != ""
    ensures Run(cfg, ws, acts) && e in ws[|acts|].ended && Write(e) in acts && m in ws[|acts|].minted
    ensures m.cookie.who.session == e.session && m.login <= e.at && ws[|acts|].clock <= asked
    ensures LetIn(cfg, ws[|acts|].gone, m.cookie, asked, asked)
  {
    var e1 := Ended(who.session, 0);
    var s := SECOND;
    e := Ended(who.session, 2 * s);
    m := Minted(Encode(cfg, who, s, s), s);
    asked := cfg.maxAge;
    var w0 := World(EMPTY, EMPTY, {}, {}, {}, {}, {}, 0);
    var w1 := w0.(gone := map[who.session := cfg.maxAge], ended := {e1}, due := {Owed(cfg, e1)}, unwritten := {e1});
    var w2 := w1.(minted := {m}, clock := s);
    var w3 := w2.(gone := map[who.session := 2 * s + cfg.maxAge], ended := {e1, e}, due := {Owed(cfg, e1), Owed(cfg, e)},
                  unwritten := {e1, e}, clock := 2 * s);
    var w4 := w3.(stored := map[who.session := 2 * s + cfg.maxAge], kept := {Stored(cfg, e)}, unwritten := {e1});
    var w5 := w4.(stored := map[who.session := cfg.maxAge], kept := {Stored(cfg, e1)}, unwritten := {});
    var w6 := w5.(gone := map[who.session := cfg.maxAge], due := {Stored(cfg, e1)});
    acts := [Revoke(who.session, 0), Login(who, s), Revoke(who.session, 2 * s), Write(e), Write(e1), Restart(true)];
    ws := [w0, w1, w2, w3, w4, w5, w6];
    RaceInMemory(cfg, who, w0, w1, w2, w3, e1, e);
    RaceInTheStore(cfg, who.session, w3, w4, w5, w6, e1, e);
    assert Stepped(cfg, ws, acts, 0) && Stepped(cfg, ws, acts, 1) && Stepped(cfg, ws, acts, 2);
    assert Stepped(cfg, ws, acts, 3) && Stepped(cfg, ws, acts, 4) && Stepped(cfg, ws, acts, 5);
    assert acts[3] == Write(e);
    Truncates(Expiry(cfg, s, s));
  }

  lemma RaceInMemory(cfg: Settings, who: Identity, w0: World, w1: World, w2: World, w3: World, e1: Ended, e: Ended)
    requires cfg.maxAge > 2 * SECOND && who.session != ""
    requires e1 == Ended(who.session, 0) && e == Ended(who.session, 2 * SECOND)
    requires w0 == World(EMPTY, EMPTY, {}, {}, {}, {}, {}, 0)
    requires w1 == w0.(gone := map[who.session := cfg.maxAge], ended := {e1}, due := {Owed(cfg, e1)}, unwritten := {e1})
    requires w2 == w1.(minted := {Minted(Encode(cfg, who, SECOND, SECOND), SECOND)}, clock := SECOND)
    requires w3 == w2.(gone := map[who.session := 2 * SECOND + cfg.maxAge], ended := {e1, e},
                       due := {Owed(cfg, e1), Owed(cfg, e)}, unwritten := {e1, e}, clock := 2 * SECOND)
    ensures Next(cfg, w0, Revoke(who.session, 0), w1) && Next(cfg, w1, Login(who, SECOND), w2)
    ensures Next(cfg, w2, Revoke(who.session, 2 * SECOND), w3)
  {
    assert AfterRevoke(EMPTY, who.session, 0, 0, cfg.maxAge) == w1.gone;
    assert AfterRevoke(w2.gone, who.session, 2 * SECOND, 2 * SECOND, cfg.maxAge) == w3.gone;
  }

  lemma RaceInTheStore(cfg: Settings, session: string, w3: World, w4: World, w5: World, w6: World, e1: Ended, e: Ended)
    requires session != "" && cfg.maxAge > 2 * SECOND && cfg.maxAge % SECOND == 0
    requires e1 == Ended(session, 0) && e == Ended(session, 2 * SECOND)
    requires w3.stored == EMPTY && w3.kept == {} && w3.unwritten == {e1, e} && w3.clock == 2 * SECOND
    requires w4 == w3.(stored := map[session := 2 * SECOND + cfg.maxAge], kept := {Stored(cfg, e)}, unwritten := {e1})
    requires w5 == w4.(stored := map[session := cfg.maxAge], kept := {Stored(cfg, e1)}, unwritten := {})
    requires w6 == w5.(gone := map[session := cfg.maxAge], due := {Stored(cfg, e1)})
    ensures Next(cfg, w3, Write(e), w4) && Next(cfg, w4, Write(e1), w5) && Next(cfg, w5, Restart(true), w6)
  {
    WholeSecondsAreKept(Unix(cfg.maxAge));
    WholeSecondsAreKept(2 + Unix(cfg.maxAge));
    assert AfterWrite(w3.stored, session, e.at + cfg.maxAge, e.at) == w4.stored;
    assert AfterWrite(w4.stored, session, e1.at + cfg.maxAge, e1.at) == w5.stored;
    assert StillStored(w5.stored, w6.clock) == w6.gone;
    assert w3.unwritten - {e} == {e1} && w4.unwritten - {e1} == {};
    assert Overwritten(w3.kept, Stored(cfg, e)) == w4.kept && Overwritten(w4.kept, Stored(cfg, e1)) == w5.kept;
  }
}
