/** The requests that sign in, stay signed in and sign out (internal/auth/auth.go). */
module Auth {
  // They are put together from the session cookies, the ended sessions, the consumed login
  // states and the limits on back-channel logouts. Every clock reading a request makes is a
  // parameter of its own.

  import opened Options
  import opened Sessions
  import Revocations
  import FlowLimits
  import LogoutLimits

  /** Nobody signs in, a proxy signs people in, or an identity provider does. */
  datatype Mode = NoSignIn | Proxy | Oidc

  const ANYBODY := Identity("", [], "admin", "")

  /** What a callback brings: the login it completes, whether it carries a code, whether an
      exchange slot was free, and whom the provider named. */
  datatype Arrival = Arrival(state: Option<string>, code: bool, slot: bool, who: Option<Identity>)

  /** A login ends in a refusal, for want of room, in an error of the server, or with a cookie. */
  datatype Outcome = Refused | TooMany | Failed | SignedIn(cookie: Cookie)

  /** What is posted for a back-channel logout: a body that is too large or cannot be read, one
      without a token, a token that is too large, or one that names a session if it verifies. */
  datatype Posted = BodyTooLarge | Unreadable | NoToken | TokenTooLarge | Token(named: Option<string>)

  datatype Answer = NotFound | TooLarge | BadRequest | Busy | Ended

  class Authenticator {
    const mode: Mode
    const cfg: Settings
    const revoked: Revocations.Revocations
    const flows: FlowLimits.ConsumedFlows
    const logouts: LogoutLimits.LogoutVerificationBudget
    const backchannel: bool

    /** Whether a sealed cookie stays within what a browser takes. */
    const fits: Cookie -> bool

    ghost predicate Valid() {
      revoked.within == cfg.maxAge
    }

    constructor (mode: Mode, cfg: Settings, capacity: int, lim: LogoutLimits.Limits, backchannel: bool, fits: Cookie -> bool)
      ensures this.backchannel == backchannel && this.fits == fits
      ensures Valid() && fresh(revoked) && fresh(flows) && fresh(logouts)
      ensures this.mode == mode && this.cfg == cfg && flows.capacity == capacity && logouts.lim == lim
      ensures revoked.gone == map[] && flows.used == map[] && logouts.Valid() && logouts.tickets == map[]
    {
      this.mode, this.cfg, this.backchannel, this.fits := mode, cfg, backchannel, fits;
      revoked := new Revocations.Revocations(cfg.maxAge);
      flows := new FlowLimits.ConsumedFlows(capacity);
      logouts := new LogoutLimits.LogoutVerificationBudget(lim);
    }

    /** The ended sessions once a request with this cookie has been looked up. */
    ghost function Looked(gone: map<string, Time>, c: Option<Cookie>, read: Time, asked: Time): map<string, Time> {
      if c.Some? && Decode(cfg, c.value, read).Some? then Revocations.AfterLook(gone, c.value.who.session, asked) else gone
    }

    /** A cookie that is due for renewal is replaced if the new one fits. */
    function Renewal(held: Session, spent: Time, aged: Time, now: Time): Option<Cookie> {
      match Renewed(cfg, held, spent, aged, now)
      case Some(renewed) => if fits(renewed) then Some(renewed) else None
      case None => None
    }

    /** Whom a cookie signs in, and the cookie that replaces it when it is half spent. */
    method FromSession(c: Option<Cookie>, read: Time, asked: Time, spent: Time, aged: Time, now: Time)
      returns (who: Option<Identity>, renewed: Option<Cookie>)
      requires Valid()
      modifies revoked
      ensures who == if c.Some? && Revocations.LetIn(cfg, old(revoked.gone), c.value, read, asked) then Some(c.value.who) else None
      ensures renewed == if who.Some? then Renewal(Decode(cfg, c.value, read).value, spent, aged, now) else None
      ensures renewed.Some? <==>
                who.Some? && FromUnix(c.value.expires) < spent + cfg.ttl / 2 && aged < FromUnix(c.value.issued) + cfg.maxAge &&
                fits(Encode(cfg, who.value, FromUnix(c.value.issued), now))
      ensures renewed.Some? ==> renewed.value.who == c.value.who && renewed.value.issued == c.value.issued
      ensures revoked.gone == Looked(old(revoked.gone), c, read, asked)
    {
      if c.None? {
        return None, None;
      }
      var held := Decode(cfg, c.value, read);
      if held.None? {
        return None, None;
      }
      var ended := revoked.Revoked(held.value.who.session, asked);
      if ended {
        return None, None;
      }
      renewed := None;
      if HalfSpent(cfg, held.value.expires, spent) && Renewable(cfg, held.value.issued, aged) {
        var fresher := Encode(cfg, held.value.who, held.value.issued, now);
        if fits(fresher) {
          renewed := Some(fresher);
        }
      }
      return Some(held.value.who), renewed;
    }

    method Identify(header: Option<Identity>, c: Option<Cookie>, read: Time, asked: Time, spent: Time, aged: Time, now: Time)
      returns (who: Option<Identity>, renewed: Option<Cookie>)
      requires Valid()
      modifies revoked
      ensures mode == NoSignIn ==> who == Some(ANYBODY)
      ensures mode == Proxy ==> who == header
      ensures mode == Oidc ==>
                who == if c.Some? && Revocations.LetIn(cfg, old(revoked.gone), c.value, read, asked) then Some(c.value.who) else None
      ensures renewed == if mode == Oidc && who.Some? then Renewal(Decode(cfg, c.value, read).value, spent, aged, now) else None
      ensures renewed.Some? ==> who.Some? && mode == Oidc && renewed.value.who == who.value && renewed.value.issued == c.value.issued
      ensures revoked.gone == if mode == Oidc then Looked(old(revoked.gone), c, read, asked) else old(revoked.gone)
    {
      match mode
      case NoSignIn => return Some(ANYBODY), None;
      case Proxy => return header, None;
      case Oidc => who, renewed := FromSession(c, read, asked, spent, aged, now);
    }

    /** Whether whoever opened a long connection may keep it. */
    method StillValid(expected: Identity, header: Option<Identity>, c: Option<Cookie>, read: Time, asked: Time) returns (ok: bool)
      requires Valid()
      modifies revoked
      ensures mode == NoSignIn ==> (ok <==> expected == ANYBODY)
      ensures mode == Proxy ==> (ok <==> header == Some(expected))
      ensures mode == Oidc ==> (ok <==>
                c.Some? && Revocations.LetIn(cfg, old(revoked.gone), c.value, read, asked) && c.value.who == expected)
    {
      match mode
      case NoSignIn => return expected == ANYBODY;
      case Proxy => return header == Some(expected);
      case Oidc =>
        if c.None? {
          return false;
        }
        var held := Decode(cfg, c.value, read);
        if held.None? {
          return false;
        }
        var ended := revoked.Revoked(held.value.who.session, asked);
        return !ended && held.value.who == expected;
    }

    /** Ends the session of whoever is let in, for as long as any of its cookies could live. */
    method Logout(header: Option<Identity>, c: Option<Cookie>, read: Time, asked: Time, spent: Time, aged: Time,
                  swept: Time, now: Time)
      requires Valid()
      modifies revoked
      ensures mode == Oidc && c.Some? && Revocations.LetIn(cfg, old(revoked.gone), c.value, read, asked) && c.value.who.session != "" ==>
                forall t | now <= t < now + cfg.maxAge :: Revocations.IsRevoked(revoked.gone, c.value.who.session, t)
      ensures revoked.gone ==
                if mode == Oidc && c.Some? && Revocations.LetIn(cfg, old(revoked.gone), c.value, read, asked)
                then Revocations.AfterRevoke(old(revoked.gone), c.value.who.session, swept, now, cfg.maxAge)
                else if mode == Oidc then Looked(old(revoked.gone), c, read, asked) else old(revoked.gone)
    {
      var who, _ := Identify(header, c, read, asked, spent, aged, now);
      if who.Some? && mode == Oidc {
        var _ := revoked.Revoke(who.value.session, swept, now);
      }
    }

    /** Completes a login: its state is used up first, whatever becomes of the rest. */
    method Callback(arrival: Arrival, computed: Time, consumed: Time, issued: Time, now: Time) returns (outcome: Outcome)
      modifies flows
      ensures flows.used ==
                if mode == Oidc && arrival.state.Some?
                then FlowLimits.AfterConsume(old(flows.used), flows.capacity, arrival.state.value, computed + FlowLimits.FLOW_LIFETIME, consumed)
                else old(flows.used)
      ensures outcome.SignedIn? <==>
                mode == Oidc && arrival.state.Some? && arrival.code && arrival.slot && arrival.who.Some? &&
                FlowLimits.Verdict(old(flows.used), flows.capacity, arrival.state.value, consumed).Ok? &&
                fits(Encode(cfg, arrival.who.value, issued, now))
      ensures outcome.SignedIn? ==> outcome.cookie == Encode(cfg, arrival.who.value, issued, now)
    {
      if mode != Oidc || arrival.state.None? {
        return Refused;
      }
      var used := flows.Consume(arrival.state.value, computed + FlowLimits.FLOW_LIFETIME, consumed);
      if used == Err(FlowLimits.RegistryFull) {
        return TooMany;
      }
      if used.Err? || !arrival.code {
        return Refused;
      }
      if !arrival.slot {
        return TooMany;
      }
      if arrival.who.None? {
        return Refused;
      }
      var cookie := Encode(cfg, arrival.who.value, issued, now);
      if !fits(cookie) {
        return Failed;
      }
      return SignedIn(cookie);
    }

    /** The identity provider ends a session. Nothing is ended without a slot, the slot is given
        back, and a request that is turned away before it takes one changes nothing at all. */
    method BackchannelLogout(source: string, posted: Posted, claimed: Time, failed: Time, swept: Time, now: Time)
      returns (answer: Answer)
      requires Valid() && logouts.Valid() && source != ""
      requires logouts.clock <= claimed <= failed
      modifies revoked, logouts
      ensures logouts.Valid() && logouts.tickets == old(logouts.tickets)
      ensures var turnedAway := TurnedAway(posted);
              if turnedAway.Some? then
                answer == turnedAway.value && logouts.Seen() == old(logouts.Seen()) && revoked.gone == old(revoked.gone)
              else if !LogoutLimits.Admits(logouts.lim, old(logouts.Seen().st), source, claimed) then
                answer == Busy && revoked.gone == old(revoked.gone)
              else
                answer in {Busy, BadRequest, Ended} && (answer == BadRequest ==> posted.named.None?) &&
                (answer == Ended ==> posted.named.Some?) &&
                revoked.gone ==
                  if answer == Ended then Revocations.AfterRevoke(old(revoked.gone), posted.named.value, swept, now, cfg.maxAge)
                  else old(revoked.gone)
      ensures mode != Oidc || !backchannel ==> answer == NotFound
      ensures mode == Oidc && backchannel && (posted.BodyTooLarge? || posted.TokenTooLarge?) ==> answer == TooLarge
      ensures mode == Oidc && backchannel && (posted.Unreadable? || posted.NoToken?) ==> answer == BadRequest
      ensures answer == Busy ==>
                LogoutLimits.Next(logouts.lim, old(logouts.Seen()), LogoutLimits.TryClaim(source, false), logouts.Seen())
      ensures answer == Ended || (answer == BadRequest && posted.Token?) ==> |logouts.log| == |old(logouts.log)| + 1
      ensures answer == BadRequest && posted.Token? ==> logouts.failureUntil == failed + logouts.lim.cooldown
    {
      var turnedAway := TurnedAway(posted);
      if turnedAway.Some? {
        return turnedAway.value;
      }
      var release := logouts.Claim(source, claimed);
      if release == null {
        return Busy;
      }
      Verified(posted.named, failed, swept, now);
      release.Call();
      return if posted.named.None? then BadRequest else Ended;
    }

    /** The answers given before a slot is asked for. */
    function TurnedAway(posted: Posted): Option<Answer> {
      if mode != Oidc || !backchannel then Some(NotFound)
      else match posted
        case BodyTooLarge => Some(TooLarge)
        case Unreadable => Some(BadRequest)
        case NoToken => Some(BadRequest)
        case TokenTooLarge => Some(TooLarge)
        case Token(_) => None
    }

    /** What a verified token, or one that does not verify, leads to. */
    method Verified(named: Option<string>, failed: Time, swept: Time, now: Time)
      requires Valid() && logouts.Valid() && logouts.clock <= failed
      modifies revoked, logouts
      ensures logouts.Valid() && logouts.tickets == old(logouts.tickets)
      ensures logouts.log == old(logouts.log)
      ensures revoked.gone ==
                if named.Some? then Revocations.AfterRevoke(old(revoked.gone), named.value, swept, now, cfg.maxAge)
                else old(revoked.gone)
      ensures named.None? ==> logouts.failureUntil == failed + logouts.lim.cooldown
    {
      if named.None? {
        logouts.Failed(failed);
      } else {
        var _ := revoked.Revoke(named.value, swept, now);
      }
    }
  }
}
