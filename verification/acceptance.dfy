/** Who may verify a logout token (internal/auth/logoutlimits.go). */
module LogoutAcceptance {
  // What the budget answers, told from the run alone: from what was accepted, what is open, and
  // when the last failure was. Nothing here is said in terms of what the budget keeps.

  import opened LogoutLimits

  // ---------------------------------------------------------------------------
  // What is kept of the past is the past
  // ---------------------------------------------------------------------------

  predicate Rising(ts: seq<Time>) {
    forall i, j | 0 <= i < j < |ts| :: ts[i] <= ts[j]
  }

  lemma {:induction false} AllInside(ts: seq<Time>, lo: Time, hi: Time)
    requires forall i | 0 <= i < |ts| :: lo < ts[i] <= hi
    ensures CountIn(ts, lo, hi) == |ts|
  {
    if ts != [] {
      AllInside(ts[..|ts| - 1], lo, hi);
    }
  }

  lemma {:induction false} RecentIsLater(events: seq<Time>, cutoff: Time)
    requires Rising(events)
    ensures forall i | 0 <= i < |Recent(events, cutoff)| :: Recent(events, cutoff)[i] > cutoff
    ensures forall t | t in Recent(events, cutoff) :: t in events
    decreases |events|
  {
    if events != [] && events[0] <= cutoff {
      RecentIsLater(events[1..], cutoff);
    }
  }

  /** Where no more than what has left the window is forgotten, the recent events are those inside it. */
  lemma RecentIsTheWindow(kept: seq<Time>, full: seq<Time>, now: Time, window: int)
    requires Tracks(kept, full, now - window) && Rising(full) && UpTo(full, now)
    ensures |Recent(kept, now - window)| == InWindow(full, window, now)
  {
    var recent := Recent(kept, now - window);
    RecentTracks(kept, full, now - window, now - window);
    RecentIsLater(kept, now - window);
    forall i | 0 <= i < |recent| ensures now - window < recent[i] <= now {
      assert recent[i] == full[|full| - |recent| + i];
    }
    SuffixIsTheWindow(recent, full, now - window, now);
  }

  lemma SuffixIsTheWindow(recent: seq<Time>, full: seq<Time>, lo: Time, hi: Time)
    requires Tracks(recent, full, lo) && forall i | 0 <= i < |recent| :: lo < recent[i] <= hi
    ensures CountIn(full, lo, hi) == |recent|
  {
    var dropped := full[..|full| - |recent|];
    assert full == dropped + recent;
    CountSplit(dropped, recent, lo, hi);
    CountBounds(dropped, lo, hi);
    AllInside(recent, lo, hi);
  }

  predicate LogRises(log: seq<AcceptedClaim>) {
    forall i, j | 0 <= i < j < |log| :: log[i].at <= log[j].at
  }

  lemma {:induction false} LogAlwaysRises(lim: Limits, ws: seq<World>, acts: seq<Action>, i: nat)
    requires Counts(lim) && Run(lim, ws, acts) && i < |ws|
    ensures LogRises(ws[i].log)
  {
    if i > 0 {
      LogAlwaysRises(lim, ws, acts, i - 1);
      RunKeepsInv(lim, ws, acts, i - 1);
      assert Next(lim, ws[i - 1], acts[i - 1], ws[i]);
    }
  }

  lemma RisingAppend(ts: seq<Time>, t: Time)
    requires Rising(ts) && UpTo(ts, t)
    ensures Rising(ts + [t])
  {}

  lemma {:induction false} SourceTimesRise(log: seq<AcceptedClaim>, source: string)
    requires LogRises(log)
    ensures Rising(TimesOf(log, source))
  {
    if log != [] {
      var front, last := log[..|log| - 1], log[|log| - 1];
      SourceTimesRise(front, source);
      assert PastOnly(front, last.at);
      TimesUpTo(front, source, last.at);
      var times := TimesOf(front, source);
      RisingAppend(times, last.at);
      assert times + [] == times;
    }
  }

  lemma TimesRise(log: seq<AcceptedClaim>)
    requires LogRises(log)
    ensures Rising(Times(log))
  {
    TimesAre(log);
  }

  // ---------------------------------------------------------------------------
  // The five conditions
  // ---------------------------------------------------------------------------

  /** No failure before step i lies less than a cooldown back. */
  ghost predicate NoRecentFailure(lim: Limits, ws: seq<World>, acts: seq<Action>, i: nat, now: Time)
    requires |ws| == |acts| + 1 && i <= |acts|
  {
    forall k: nat | k < i && acts[k].Fail? :: now >= ws[k + 1].clock + lim.cooldown
  }

  /** No cap and no rate is full, told from the open claims and from what was accepted. */
  ghost predicate RoomLeft(lim: Limits, w: World, source: string, now: Time) {
    && |w.tickets| < lim.globalConcurrent
    && OpenOf(w.tickets, source, |w.log|) < lim.sourceConcurrent
    && InWindow(Times(w.log), lim.window, now) < lim.globalRate
    && InWindow(TimesOf(w.log, source), lim.window, now) < lim.sourceRate
  }

  /** The cooldown runs exactly while the last failure is recent. */
  lemma {:induction false} CooldownIff(lim: Limits, ws: seq<World>, acts: seq<Action>, i: nat, now: Time)
    requires Run(lim, ws, acts) && i < |ws| && ws[i].clock <= now
    ensures now >= ws[i].st.failureUntil <==> NoRecentFailure(lim, ws, acts, i, now)
    ensures ZERO_TIME <= ws[i].clock
  {
    if i > 0 {
      var w, w' := ws[i - 1], ws[i];
      assert Next(lim, w, acts[i - 1], w');
      CooldownIff(lim, ws, acts, i - 1, now);
      if acts[i - 1].Fail? && now >= w'.st.failureUntil {
        forall k: nat | k < i && acts[k].Fail? ensures now >= ws[k + 1].clock + lim.cooldown {
          if k < i - 1 {
            CooldownOnlyGrows(lim, ws, acts, k, i);
          }
        }
      }
    }
  }

  lemma GlobalWindow(lim: Limits, ws: seq<World>, acts: seq<Action>, i: nat, now: Time)
    requires Counts(lim) && Run(lim, ws, acts) && i < |ws| && ws[i].clock <= now
    ensures |Recent(ws[i].st.events, now - lim.window)| == InWindow(Times(ws[i].log), lim.window, now)
  {
    var w := ws[i];
    RunKeepsInv(lim, ws, acts, i);
    LogAlwaysRises(lim, ws, acts, i);
    TimesRise(w.log);
    TimesUpTo(w.log, "", now);
    TracksLater(w.st.events, Times(w.log), w.clock - lim.window, now - lim.window);
    RecentIsTheWindow(w.st.events, Times(w.log), now, lim.window);
  }

  lemma KeptIsTheWindow(log: seq<AcceptedClaim>, source: string, kept: seq<Time>, now: Time, window: int)
    requires LogRises(log) && PastOnly(log, now) && Tracks(kept, TimesOf(log, source), now - window)
    ensures |Recent(kept, now - window)| == InWindow(TimesOf(log, source), window, now)
  {
    SourceTimesRise(log, source);
    TimesUpTo(log, source, now);
    RecentIsTheWindow(kept, TimesOf(log, source), now, window);
  }

  /** What is kept of a source is the window too, unless so many others were let in since it was
      forgotten that the global rate is full. */
  lemma SourceWindow(lim: Limits, ws: seq<World>, acts: seq<Action>, i: nat, source: string, now: Time)
    requires Counts(lim) && Run(lim, ws, acts) && i < |ws| && ws[i].clock <= now
    ensures |Recent(Held(ws[i].st, source).events, now - lim.window)| == InWindow(TimesOf(ws[i].log, source), lim.window, now) ||
            (lim.window >= 1 && InWindow(Times(ws[i].log), lim.window, now) > Spare(lim))
  {
    var w := ws[i];
    var kept, full, horizon := Held(w.st, source).events, TimesOf(w.log, source), now - lim.window;
    RunKeepsInv(lim, ws, acts, i);
    assert SourceInv(lim, w, source);
    RecallsAges(lim, w.log, source, kept, w.clock, now);
    var from: Time :| RecallsFrom(lim, w.log, source, kept, now, from);
    if from <= horizon {
      LogAlwaysRises(lim, ws, acts, i);
      KeptIsTheWindow(w.log, source, kept, now, lim.window);
    } else {
      OwnAndOthers(w.log, source, from, horizon, now);
      NothingInNoWindowAt(Times(w.log), lim.window, now);
    }
  }

  lemma NothingInNoWindowAt(ts: seq<Time>, window: int, now: Time)
    ensures InWindow(ts, window, now) > 0 ==> window >= 1
  {
    if window < 1 {
      NothingInNoWindow(ts, window, now);
    }
  }

  lemma AdmitsIffRoomLeft(lim: Limits, ws: seq<World>, acts: seq<Action>, i: nat, source: string, now: Time)
    requires Counts(lim) && NeverCrowded(lim) && ForgetsNothing(lim)
    requires Run(lim, ws, acts) && i < |ws| && ws[i].clock <= now
    ensures Admits(lim, ws[i].st, source, now) <==> RoomLeft(lim, ws[i], source, now)
  {
    RunKeepsInv(lim, ws, acts, i);
    assert SourceInv(lim, ws[i], source);
    GlobalWindow(lim, ws, acts, i, now);
    SourceWindow(lim, ws, acts, i, source, now);
  }

  /** Exactly when a claim is accepted, in every run: when no failure lies less than a cooldown
      back, and fewer claims are open, of everybody and of its source, than the caps allow, and
      fewer were accepted inside the window than the rates allow. */
  lemma AcceptedIff(lim: Limits, ws: seq<World>, acts: seq<Action>, i: nat)
    requires Counts(lim) && NeverCrowded(lim) && ForgetsNothing(lim)
    requires Run(lim, ws, acts) && i < |acts| && acts[i].TryClaim?
    ensures acts[i].ok <==>
            NoRecentFailure(lim, ws, acts, i, ws[i + 1].clock) && RoomLeft(lim, ws[i], acts[i].source, ws[i + 1].clock)
  {
    assert Next(lim, ws[i], acts[i], ws[i + 1]);
    RefusedOnlyByLimits(lim, ws, acts, i);
    CooldownIff(lim, ws, acts, i, ws[i + 1].clock);
    AdmitsIffRoomLeft(lim, ws, acts, i, acts[i].source, ws[i + 1].clock);
  }

  /** The same one way round for every table that keeps the rates, whatever it forgets. */
  lemma AcceptedOnlyWithRoom(lim: Limits, ws: seq<World>, acts: seq<Action>, i: nat)
    requires Counts(lim) && KeepsSourceRate(lim)
    requires Run(lim, ws, acts) && i < |acts| && acts[i].TryClaim? && acts[i].ok
    ensures NoRecentFailure(lim, ws, acts, i, ws[i + 1].clock) && RoomLeft(lim, ws[i], acts[i].source, ws[i + 1].clock)
  {
    var w, w', source := ws[i], ws[i + 1], acts[i].source;
    assert Next(lim, w, acts[i], w');
    RunKeepsInv(lim, ws, acts, i);
    assert SourceInv(lim, w, source);
    CooldownIff(lim, ws, acts, i, w'.clock);
    GlobalWindow(lim, ws, acts, i, w'.clock);
    var room := RoomForAccepted(lim, w, source, w');
    BelowSourceRate(lim, w, source, w'.clock);
  }
}
