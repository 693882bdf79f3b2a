/** The set of open clusters (internal/cluster/cluster.go). */
module Cluster {
  // Connections race to be installed, they replace, retire and cancel one another, and one of
  // them is active.

  import opened Options
  import opened Order

  /** A dialled connection: the number tells two dials of one host apart, and `id` is the
      normalised host. */
  datatype Connection = Connection(number: nat, id: string)

  datatype State = State(open: map<string, Connection>, active: string, installed: nat, nextSeq: nat)

  const EMPTY := State(map[], "", 0, 0)

  // ---------------------------------------------------------------------------
  // What each call does under the lock, and what it cancels afterwards
  // ---------------------------------------------------------------------------

  /** A connection asked for before the installed one comes too late. */
  function AfterUse(st: State, ticket: nat, conn: Connection): State {
    if ticket < st.installed then st
    else st.(open := map[conn.id := conn], active := conn.id, installed := ticket)
  }

  function DoomedByUse(st: State, ticket: nat, conn: Connection): set<Connection> {
    if ticket < st.installed then {conn} else st.open.Values
  }

  function AfterOpen(st: State, conn: Connection): State {
    if conn.id in st.open then st.(active := st.open[conn.id].id)
    else st.(open := st.open[conn.id := conn], active := conn.id)
  }

  function DoomedByOpen(st: State, conn: Connection): set<Connection> {
    if conn.id in st.open then {conn} else {}
  }

  /** The least open id, or nothing. */
  ghost predicate IsFirstOpen(open: map<string, Connection>, first: string) {
    if open == map[] then first == ""
    else first in open && forall id | id in open && id != first :: Below(first, id)
  }

  ghost predicate ClosedTo(st: State, key: string, after: State) {
    && after.open == st.open - {key}
    && after.installed == st.installed && after.nextSeq == st.nextSeq
    && if key in st.open && st.active == key then IsFirstOpen(after.open, after.active)
       else after.active == st.active
  }

  function DoomedByClose(st: State, key: string): set<Connection> {
    if key in st.open then {st.open[key]} else {}
  }

  function AfterActivate(st: State, key: string): State {
    if key in st.open then st.(active := key) else st
  }

  // ---------------------------------------------------------------------------
  // Whole runs
  // ---------------------------------------------------------------------------

  /** `using` are the uses that hold a ticket and have not finished, `dialled` the connections
      a successful dial handed back and nobody has offered to the cluster yet, `doomed` those
      turned away or taken out but not cancelled yet, and `cancels` how often each was. */
  datatype World = World(
    st: State,
    using: set<nat>,
    known: set<Connection>,
    dialled: set<Connection>,
    doomed: set<Connection>,
    cancels: map<Connection, nat>)

  datatype Action =
    | StartUse
    | Dial(conn: Connection)
    | FinishUse(ticket: nat, conn: Connection)
    | FailUse(ticket: nat)
    | FinishOpen(conn: Connection)
    | Close(key: string)
    | Activate(key: string)
    | Cancel(gone: Connection)

  ghost predicate Next(w: World, a: Action, w': World) {
    match a
    case StartUse =>
      w' == w.(st := w.st.(nextSeq := w.st.nextSeq + 1), using := w.using + {w.st.nextSeq + 1})
    case Dial(conn) =>
      conn !in w.known && w' == w.(known := w.known + {conn}, dialled := w.dialled + {conn})
    case FinishUse(ticket, conn) =>
      && ticket in w.using && conn in w.dialled
      && w' == w.(st := AfterUse(w.st, ticket, conn), using := w.using - {ticket},
                  dialled := w.dialled - {conn}, doomed := w.doomed + DoomedByUse(w.st, ticket, conn))
    case FailUse(ticket) =>
      ticket in w.using && w' == w.(using := w.using - {ticket})
    case FinishOpen(conn) =>
      && conn in w.dialled
      && w' == w.(st := AfterOpen(w.st, conn),
                  dialled := w.dialled - {conn}, doomed := w.doomed + DoomedByOpen(w.st, conn))
    case Close(key) =>
      ClosedTo(w.st, key, w'.st) && w' == w.(st := w'.st, doomed := w.doomed + DoomedByClose(w.st, key))
    case Activate(key) =>
      w' == w.(st := AfterActivate(w.st, key))
    case Cancel(gone) =>
      gone in w.doomed && w' == w.(doomed := w.doomed - {gone}, cancels := w.cancels[gone := Cancels(w, gone) + 1])
  }

  ghost predicate Run(ws: seq<World>, acts: seq<Action>) {
    && |ws| == |acts| + 1
    && ws[0] == World(EMPTY, {}, {}, {}, {}, map[])
    && forall i | 0 <= i < |acts| :: Next(ws[i], acts[i], ws[i + 1])
  }

  function Cancels(w: World, c: Connection): nat {
    if c in w.cancels then w.cancels[c] else 0
  }

  predicate IsOpen(st: State, c: Connection) {
    c.id in st.open && st.open[c.id] == c
  }

  /** In how many places a connection is: with its dialler, open, on its way out, or cancelled,
      each cancellation counting. */
  function Places(w: World, c: Connection): nat {
    (if c in w.dialled then 1 else 0) + (if IsOpen(w.st, c) then 1 else 0)
    + (if c in w.doomed then 1 else 0) + Cancels(w, c)
  }

  predicate KeyedById(st: State) {
    forall id | id in st.open :: st.open[id].id == id
  }

  predicate ActiveIsOpen(st: State) {
    st.active in st.open || (st.open == map[] && st.active == "")
  }

  ghost predicate Inv(w: World) {
    && KeyedById(w.st) && ActiveIsOpen(w.st)
    && (forall c :: Places(w, c) == if c in w.known then 1 else 0)
    && (forall t | t in w.using :: t <= w.st.nextSeq)
    && w.st.installed <= w.st.nextSeq && w.st.installed !in w.using
  }

  lemma PlacesAfterUse(w: World, ticket: nat, conn: Connection, w': World, c: Connection)
    requires Inv(w) && Next(w, FinishUse(ticket, conn), w')
    ensures Places(w', c) == Places(w, c)
  {
    assert Places(w, conn) == if conn in w.known then 1 else 0;
    if ticket >= w.st.installed {
      assert IsOpen(w.st, c) <==> c in w.st.open.Values;
    }
  }

  lemma PlacesAfterOpenOrClose(w: World, a: Action, w': World, c: Connection)
    requires Inv(w) && Next(w, a, w') && (a.FinishOpen? || a.Close?)
    ensures Places(w', c) == Places(w, c)
  {
    if a.FinishOpen? {
      assert Places(w, a.conn) == if a.conn in w.known then 1 else 0;
    } else if a.key in w.st.open {
      assert Places(w, w.st.open[a.key]) == if w.st.open[a.key] in w.known then 1 else 0;
    }
  }

  lemma PlacesKept(w: World, a: Action, w': World, c: Connection)
    requires Inv(w) && Next(w, a, w')
    ensures Places(w', c) == if c in w'.known then 1 else 0
  {
    assert Places(w, c) == if c in w.known then 1 else 0;
    match a
    case FinishUse(ticket, conn) => PlacesAfterUse(w, ticket, conn, w', c);
    case FinishOpen(conn) => PlacesAfterOpenOrClose(w, a, w', c);
    case Close(key) => PlacesAfterOpenOrClose(w, a, w', c);
    case _ =>
  }

  lemma NextKeepsInv(w: World, a: Action, w': World)
    requires Inv(w) && Next(w, a, w')
    ensures Inv(w')
  {
    forall c ensures Places(w', c) == if c in w'.known then 1 else 0 {
      PlacesKept(w, a, w', c);
    }
    if a.Close? && w.st.open == map[] {
      assert w'.st.open == map[];
    }
  }

  lemma {:induction false} RunKeepsInv(ws: seq<World>, acts: seq<Action>, i: nat)
    requires Run(ws, acts) && i < |ws|
    ensures Inv(ws[i])
  {
    if i > 0 {
      RunKeepsInv(ws, acts, i - 1);
      NextKeepsInv(ws[i - 1], acts[i - 1], ws[i]);
    }
  }

  // ---------------------------------------------------------------------------
  // Theorems about every run
  // ---------------------------------------------------------------------------

  /** Once nobody is between dialling and cancelling, every connection ever dialled is either
      open, under its own id and no other, or was cancelled exactly once, and never both. */
  lemma NoConnectionIsLost(ws: seq<World>, acts: seq<Action>, i: nat, c: Connection)
    requires Run(ws, acts) && i < |ws|
    requires ws[i].dialled == {} && ws[i].doomed == {} && c in ws[i].known
    ensures IsOpen(ws[i].st, c) <==> Cancels(ws[i], c) == 0
    ensures Cancels(ws[i], c) <= 1
    ensures forall id | id in ws[i].st.open && ws[i].st.open[id] == c :: id == c.id
  {
    RunKeepsInv(ws, acts, i);
    assert Places(ws[i], c) == 1;
  }

  /** At every moment, not only at rest: nothing open was ever cancelled, and nothing is
      cancelled twice. */
  lemma NothingOpenIsCancelled(ws: seq<World>, acts: seq<Action>, i: nat, c: Connection)
    requires Run(ws, acts) && i < |ws|
    ensures Cancels(ws[i], c) <= 1
    ensures IsOpen(ws[i].st, c) ==> Cancels(ws[i], c) == 0 && c !in ws[i].doomed && c !in ws[i].dialled
    ensures forall id | id in ws[i].st.open :: IsOpen(ws[i].st, ws[i].st.open[id])
  {
    RunKeepsInv(ws, acts, i);
    assert Places(ws[i], c) == if c in ws[i].known then 1 else 0;
  }

  /** While anything is open the active cluster is one of the open ones, and when nothing is
      open there is none. */
  lemma ActiveIsAlwaysOpen(ws: seq<World>, acts: seq<Action>, i: nat)
    requires Run(ws, acts) && i < |ws|
    ensures ws[i].st.open == map[] ==> ws[i].st.active == ""
    ensures ws[i].st.open != map[] ==> ws[i].st.active in ws[i].st.open
  {
    RunKeepsInv(ws, acts, i);
  }

  lemma OpenIsKnown(w: World, id: string)
    requires Inv(w) && id in w.st.open
    ensures w.st.open[id] in w.known && w.st.open[id].id == id
  {
    assert Places(w, w.st.open[id]) == if w.st.open[id] in w.known then 1 else 0;
  }

  /** An empty active id means nothing is open, provided no host normalises to nothing. */
  lemma NoActiveMeansNothingOpen(ws: seq<World>, acts: seq<Action>, i: nat)
    requires Run(ws, acts) && i < |ws|
    requires forall c | c in ws[i].known :: c.id != ""
    ensures ws[i].st.active == "" <==> ws[i].st.open == map[]
  {
    RunKeepsInv(ws, acts, i);
    if "" in ws[i].st.open {
      OpenIsKnown(ws[i], "");
      assert false;
    }
  }

  lemma StepKeepsTicketsInOrder(w: World, a: Action, w': World)
    requires Inv(w) && Next(w, a, w')
    ensures w.st.installed <= w'.st.installed
    ensures a.FinishUse? ==> w'.st.installed == if a.ticket < w.st.installed then w.st.installed else a.ticket
    ensures !a.FinishUse? ==> w'.st.installed == w.st.installed
  {}

  /** The installed ticket is the latest among the uses that have finished by connecting. */
  lemma {:induction false} InstalledIsTheLatest(ws: seq<World>, acts: seq<Action>, i: nat, j: nat)
    requires Run(ws, acts) && i < j < |ws| && acts[i].FinishUse?
    ensures acts[i].ticket <= ws[j].st.installed
  {
    RunKeepsInv(ws, acts, j - 1);
    assert Next(ws[j - 1], acts[j - 1], ws[j]);
    StepKeepsTicketsInOrder(ws[j - 1], acts[j - 1], ws[j]);
    if j > i + 1 {
      InstalledIsTheLatest(ws, acts, i, j - 1);
    }
  }

  /** Whatever order they finish in, the latest-started use wins: its connection is still open
      as long as nobody closes that cluster by hand. */
  lemma {:induction false} LatestUseWins(ws: seq<World>, acts: seq<Action>, i: nat, j: nat)
    requires Run(ws, acts) && i < j < |ws| && acts[i].FinishUse?
    requires acts[i].ticket == ws[j].st.installed
    requires forall k | i < k < j :: acts[k] != Close(acts[i].conn.id)
    ensures IsOpen(ws[j].st, acts[i].conn)
  {
    RunKeepsInv(ws, acts, j - 1);
    assert Next(ws[j - 1], acts[j - 1], ws[j]);
    StepKeepsTicketsInOrder(ws[j - 1], acts[j - 1], ws[j]);
    if j > i + 1 {
      InstalledIsTheLatest(ws, acts, i, j - 1);
      LatestUseWins(ws, acts, i, j - 1);
      TicketsAreSpent(ws, acts, i, j - 1);
    }
  }

  /** A ticket serves one use. */
  lemma {:induction false} TicketsAreSpent(ws: seq<World>, acts: seq<Action>, i: nat, j: nat)
    requires Run(ws, acts) && i < j < |ws| && acts[i].FinishUse?
    ensures acts[i].ticket !in ws[j].using && acts[i].ticket <= ws[j].st.nextSeq
  {
    RunKeepsInv(ws, acts, j - 1);
    assert Next(ws[j - 1], acts[j - 1], ws[j]);
    if j > i + 1 {
      TicketsAreSpent(ws, acts, i, j - 1);
    }
  }

  /** And a use that finishes after a later-started one changes nothing but being turned away. */
  lemma LateUseChangesNothing(ws: seq<World>, acts: seq<Action>, i: nat, j: nat)
    requires Run(ws, acts) && i < j < |acts| && acts[i].FinishUse? && acts[j].FinishUse?
    requires acts[j].ticket < acts[i].ticket
    ensures ws[j + 1].st == ws[j].st && acts[j].conn in ws[j + 1].doomed
  {
    InstalledIsTheLatest(ws, acts, i, j);
    assert Next(ws[j], acts[j], ws[j + 1]);
  }

  // ---------------------------------------------------------------------------
  // What is open and what is active, told from what was done
  // ---------------------------------------------------------------------------

  /** A use that finishes at step k is overtaken by a later-started one that finished before. */
  predicate Overtaken(acts: seq<Action>, k: nat)
    requires k < |acts| && acts[k].FinishUse?
  {
    exists m: nat | m < k && acts[m].FinishUse? :: acts[m].ticket > acts[k].ticket
  }

  lemma {:induction false} InstalledWasFinished(ws: seq<World>, acts: seq<Action>, k: nat)
    requires Run(ws, acts) && k < |ws| && ws[k].st.installed > 0
    ensures exists m: nat :: m < k && acts[m].FinishUse? && acts[m].ticket == ws[k].st.installed
  {
    RunKeepsInv(ws, acts, k - 1);
    assert Next(ws[k - 1], acts[k - 1], ws[k]);
    StepKeepsTicketsInOrder(ws[k - 1], acts[k - 1], ws[k]);
    if ws[k].st.installed == ws[k - 1].st.installed {
      InstalledWasFinished(ws, acts, k - 1);
    }
  }

  lemma OvertakenIff(ws: seq<World>, acts: seq<Action>, k: nat)
    requires Run(ws, acts) && k < |acts| && acts[k].FinishUse?
    ensures Overtaken(acts, k) <==> acts[k].ticket < ws[k].st.installed
  {
    if acts[k].ticket < ws[k].st.installed {
      InstalledWasFinished(ws, acts, k);
    }
    if Overtaken(acts, k) {
      var m: nat :| m < k && acts[m].FinishUse? && acts[m].ticket > acts[k].ticket;
      InstalledIsTheLatest(ws, acts, m, k);
    }
  }

  /** Step k opens this connection: a use that is not overtaken, or an open of a cluster that is
      not open already. */
  predicate Opens(ws: seq<World>, acts: seq<Action>, k: nat, c: Connection)
    requires k < |acts| && k < |ws|
  {
    (acts[k].FinishUse? && acts[k].conn == c && !Overtaken(acts, k)) || (acts[k] == FinishOpen(c) && c.id !in ws[k].st.open)
  }

  /** Step k takes it out again: somebody closes its cluster, or uses another connection. */
  predicate TakesOut(acts: seq<Action>, k: nat, c: Connection)
    requires k < |acts|
  {
    acts[k] == Close(c.id) || (acts[k].FinishUse? && acts[k].conn != c && !Overtaken(acts, k))
  }

  lemma StepOpens(ws: seq<World>, acts: seq<Action>, k: nat, c: Connection)
    requires Run(ws, acts) && k < |acts|
    ensures IsOpen(ws[k + 1].st, c) <==> Opens(ws, acts, k, c) || (IsOpen(ws[k].st, c) && !TakesOut(acts, k, c))
  {
    assert Next(ws[k], acts[k], ws[k + 1]);
    RunKeepsInv(ws, acts, k);
    if acts[k].FinishUse? {
      OvertakenIff(ws, acts, k);
    }
  }

  /** Exactly what is open: what some step opened and no step since took out. */
  lemma {:induction false} OpenIff(ws: seq<World>, acts: seq<Action>, j: nat, c: Connection)
    requires Run(ws, acts) && j < |ws|
    ensures IsOpen(ws[j].st, c) <==>
            exists i: nat :: i < j && Opens(ws, acts, i, c) && forall k: nat | i < k < j :: !TakesOut(acts, k, c)
  {
    if j > 0 {
      var before := j - 1;
      OpenIff(ws, acts, before, c);
      StepOpens(ws, acts, before, c);
      if Opens(ws, acts, before, c) {
        assert before < j;
      }
    }
  }

  /** Step k makes this cluster the active one: it is used, opened, or activated while open. */
  predicate Steers(ws: seq<World>, acts: seq<Action>, k: nat, id: string)
    requires k < |acts| && k < |ws|
  {
    (acts[k].FinishUse? && acts[k].conn.id == id && !Overtaken(acts, k)) ||
    (acts[k].FinishOpen? && acts[k].conn.id == id) ||
    (acts[k] == Activate(id) && id in ws[k].st.open)
  }

  lemma StepSteers(ws: seq<World>, acts: seq<Action>, k: nat)
    requires Run(ws, acts) && k < |acts|
    ensures forall id | Steers(ws, acts, k, id) :: ws[k + 1].st.active == id && id in ws[k + 1].st.open
    ensures (forall id :: !Steers(ws, acts, k, id)) && acts[k] != Close(ws[k].st.active) ==> ws[k + 1].st.active == ws[k].st.active
    ensures acts[k] == Close(ws[k].st.active) && ws[k].st.active in ws[k].st.open ==>
              var st := ws[k + 1].st; forall id | id in st.open && id != st.active :: Below(st.active, id)
  {
    assert Next(ws[k], acts[k], ws[k + 1]);
    RunKeepsInv(ws, acts, k);
    if acts[k].FinishUse? {
      OvertakenIff(ws, acts, k);
      assert !Overtaken(acts, k) ==> Steers(ws, acts, k, acts[k].conn.id);
    } else if acts[k].FinishOpen? {
      assert Steers(ws, acts, k, acts[k].conn.id);
    } else if acts[k].Activate? && acts[k].key in ws[k].st.open {
      assert Steers(ws, acts, k, acts[k].key);
    }
  }

  /** Step k neither closes this cluster nor makes any the active one. */
  ghost predicate LeavesActive(ws: seq<World>, acts: seq<Action>, k: nat, id: string)
    requires k < |acts| && k < |ws|
  {
    acts[k] != Close(id) && forall other :: !Steers(ws, acts, k, other)
  }

  /** Whichever cluster was last used, opened or activated is the active one until it is closed. */
  lemma {:induction false} LastSteeredIsActive(ws: seq<World>, acts: seq<Action>, i: nat, j: nat, id: string)
    requires Run(ws, acts) && i < j < |ws| && Steers(ws, acts, i, id)
    requires forall k: nat | i < k < j :: LeavesActive(ws, acts, k, id)
    ensures ws[j].st.active == id && id in ws[j].st.open
  {
    StepSteers(ws, acts, j - 1);
    if i < j - 1 {
      LastSteeredIsActive(ws, acts, i, j - 1, id);
      assert LeavesActive(ws, acts, j - 1, id);
      RunKeepsInv(ws, acts, j);
      assert Next(ws[j - 1], acts[j - 1], ws[j]);
    }
  }

  // ---------------------------------------------------------------------------
  // The program
  // ---------------------------------------------------------------------------

  class Cluster {
    var open: map<string, Connection>
    var active: string
    var installed: nat
    var nextSeq: nat

    ghost function St(): State
      reads this
    {
      State(open, active, installed, nextSeq)
    }

    constructor ()
      ensures St() == EMPTY
    {
      open, active, installed, nextSeq := map[], "", 0, 0;
    }

    method Claim() returns (ticket: nat)
      modifies this`nextSeq
      ensures St() == old(St()).(nextSeq := old(nextSeq) + 1) && ticket == nextSeq
    {
      nextSeq := nextSeq + 1;
      return nextSeq;
    }

    /** What `use` does between dialling and letting go of the lock. `gone` is to be cancelled
        after that, each connection once. */
    method Install(ticket: nat, conn: Connection) returns (gone: seq<Connection>)
      requires KeyedById(St())
      modifies this
      ensures St() == AfterUse(old(St()), ticket, conn) && KeyedById(St())
      ensures forall c :: c in gone <==> c in DoomedByUse(old(St()), ticket, conn)
      ensures forall i, j | 0 <= i < j < |gone| :: gone[i] != gone[j]
    {
      if ticket < installed {
        return [conn];
      }
      var replaced := if conn.id in open then [open[conn.id]] else [];
      var previous := Retire(conn.id);
      installed := ticket;
      open := open[conn.id := conn];
      active := conn.id;
      assert open == map[conn.id := conn];
      return replaced + previous;
    }

    /** Takes every connection but the one under `keep` out of the set. */
    method Retire(keep: string) returns (gone: seq<Connection>)
      requires KeyedById(St())
      modifies this`open
      ensures open == map id | id in old(open) && id == keep :: old(open)[id]
      ensures forall c :: c in gone <==> IsOpen(old(St()), c) && c.id != keep
      ensures forall i, j | 0 <= i < j < |gone| :: gone[i] != gone[j]
    {
      gone := [];
      var left := open.Keys;
      while left != {}
        invariant left <= old(open).Keys
        invariant open == map id | id in old(open) && (id == keep || id in left) :: old(open)[id]
        invariant forall c :: c in gone <==> IsOpen(old(St()), c) && c.id != keep && c.id !in left
        invariant forall i, j | 0 <= i < j < |gone| :: gone[i] != gone[j]
        decreases |left|
      {
        var id :| id in left;
        left := left - {id};
        if id == keep {
          continue;
        }
        gone := gone + [open[id]];
        open := open - {id};
      }
    }

    /** What `Open` does under the lock; a connection to a cluster already open is turned away. */
    method Open(conn: Connection) returns (id: string, turnedAway: bool)
      requires KeyedById(St())
      modifies this
      ensures St() == AfterOpen(old(St()), conn) && KeyedById(St())
      ensures id == conn.id && (turnedAway <==> DoomedByOpen(old(St()), conn) == {conn})
      ensures active == conn.id && conn.id in open && (turnedAway <==> conn.id in old(open))
    {
      if conn.id in open {
        active := open[conn.id].id;
        return active, true;
      }
      open := open[conn.id := conn];
      active := conn.id;
      return conn.id, false;
    }

    /** Nothing to cancel means no such cluster was open. */
    method Close(key: string) returns (gone: Option<Connection>)
      modifies this
      ensures ClosedTo(old(St()), key, St())
      ensures gone == if key in old(open) then Some(old(open)[key]) else None
    {
      if key !in open {
        assert open == open - {key};
        return None;
      }
      gone := Some(open[key]);
      open := open - {key};
      if active == key {
        active := FirstOpen();
      }
    }

    /** The first of the open ids once they are sorted. */
    method FirstOpen() returns (first: string)
      ensures IsFirstOpen(open, first)
    {
      if open == map[] {
        return "";
      }
      first :| first in open;
      var left := open.Keys - {first};
      while left != {}
        invariant left <= open.Keys && first in open && first !in left
        invariant forall id | id in open && id !in left && id != first :: Below(first, id)
        decreases |left|
      {
        var id :| id in left;
        left := left - {id};
        BelowTotal(first, id);
        if Below(id, first) {
          forall other | other in open && other !in left && other != id ensures Below(id, other) {
            if other != first {
              BelowTransitive(id, first, other);
            }
          }
          first := id;
        }
      }
    }

    method Activate(key: string) returns (ok: bool)
      modifies this`active
      ensures St() == AfterActivate(old(St()), key) && (ok <==> key in open)
      ensures active == if ok then key else old(active)
    {
      if key !in open {
        return false;
      }
      active := key;
      return true;
    }
  }
}
