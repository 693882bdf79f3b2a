/** Session cookies (internal/auth/session.go). */
module Sessions {
  // Sealing is taken to be unforgeable and reversible, so a cookie is the claims it carries.
  // Times are nanoseconds, and a cookie holds them cut down to whole Unix seconds.

  import opened Options

  type Time = int

  const SECOND := 1_000_000_000

  datatype Identity = Identity(user: string, groups: seq<string>, role: string, session: string)

  datatype Cookie = Cookie(who: Identity, issued: int, expires: int)

  datatype Session = Session(who: Identity, issued: Time, expires: Time)

  datatype Settings = Settings(ttl: int, maxAge: int)

  function Unix(t: Time): int {
    t / SECOND
  }

  function FromUnix(seconds: int): Time {
    seconds * SECOND
  }

  function Expiry(cfg: Settings, issued: Time, now: Time): Time {
    if issued + cfg.maxAge < now + cfg.ttl then issued + cfg.maxAge else now + cfg.ttl
  }

  function EncodeUntil(who: Identity, issued: Time, expires: Time): Cookie {
    Cookie(who, Unix(issued), Unix(expires))
  }

  function Encode(cfg: Settings, who: Identity, issued: Time, now: Time): Cookie {
    EncodeUntil(who, issued, Expiry(cfg, issued, now))
  }

  function Decode(cfg: Settings, c: Cookie, now: Time): Option<Session> {
    if now >= FromUnix(c.expires) || now >= FromUnix(c.issued) + cfg.maxAge || c.who.user == "" then None
    else Some(Session(c.who, FromUnix(c.issued), FromUnix(c.expires)))
  }

  function HalfSpent(cfg: Settings, expires: Time, now: Time): bool {
    expires - now < cfg.ttl / 2
  }

  function Renewable(cfg: Settings, issued: Time, now: Time): bool {
    now - issued < cfg.maxAge
  }

  /** The cookie a request gets back when it is time to renew: `spent` is what the clock read
      for the half-way test, `aged` for the age test and `now` when the cookie was written. */
  function Renewed(cfg: Settings, held: Session, spent: Time, aged: Time, now: Time): Option<Cookie> {
    if HalfSpent(cfg, held.expires, spent) && Renewable(cfg, held.issued, aged)
    then Some(Encode(cfg, held.who, held.issued, now)) else None
  }

  /** Cutting to seconds loses less than a second and never moves forward. */
  lemma Truncates(t: Time)
    ensures FromUnix(Unix(t)) <= t < FromUnix(Unix(t)) + SECOND
    ensures Unix(FromUnix(Unix(t))) == Unix(t)
  {}

  /** What a cookie says survives the round trip, for exactly as long as the earlier of its
      lifetime and the age cap, both cut to seconds. */
  lemma DecodeEncode(cfg: Settings, who: Identity, issued: Time, now: Time, later: Time)
    requires who.user != ""
    ensures var read := Decode(cfg, Encode(cfg, who, issued, now), later);
      && (read.Some? <==> later < FromUnix(Unix(Expiry(cfg, issued, now))) && later < FromUnix(Unix(issued)) + cfg.maxAge)
      && (read.Some? ==> read.value.who == who && read.value.issued == FromUnix(Unix(issued)))
  {}

  /** Cut to whole seconds. */
  function WholeSeconds(t: Time): Time {
    t / SECOND * SECOND
  }

  /** How long a cookie lives, in numbers: its lifetime from when it was written and the age cap from
      the sign-in, both cut to seconds. */
  lemma CookieLivesUntil(cfg: Settings, who: Identity, issued: Time, now: Time, later: Time)
    ensures Decode(cfg, Encode(cfg, who, issued, now), later).Some? <==>
            who.user != "" && later < WholeSeconds(now + cfg.ttl) && later < WholeSeconds(issued + cfg.maxAge) &&
            later < WholeSeconds(issued) + cfg.maxAge
  {
    CutInOrder(now + cfg.ttl, issued + cfg.maxAge);
    CutInOrder(issued + cfg.maxAge, now + cfg.ttl);
  }

  lemma CutInOrder(a: Time, b: Time)
    ensures a <= b ==> WholeSeconds(a) <= WholeSeconds(b)
  {}

  /** A cookie is renewed exactly when less than half its lifetime is left and the sign-in is
      younger than the age cap; the new one lives its full lifetime from then on, or up to the cap. */
  lemma RenewedIff(cfg: Settings, held: Session, spent: Time, aged: Time, now: Time, later: Time)
    ensures var renewed := Renewed(cfg, held, spent, aged, now);
            (renewed.Some? <==> held.expires < spent + cfg.ttl / 2 && aged < held.issued + cfg.maxAge) &&
            (renewed.Some? ==>
              (Decode(cfg, renewed.value, later).Some? <==>
                held.who.user != "" && later < WholeSeconds(now + cfg.ttl) && later < WholeSeconds(held.issued + cfg.maxAge) &&
                later < WholeSeconds(held.issued) + cfg.maxAge))
  {
    CookieLivesUntil(cfg, held.who, held.issued, now, later);
  }

  /** So short of the cap a renewed cookie outlives the one it replaces by more than half a lifetime,
      less a second. */
  lemma RenewalExtends(cfg: Settings, held: Session, spent: Time, aged: Time, now: Time)
    requires cfg.ttl >= 0 && spent <= now && now + cfg.ttl <= held.issued + cfg.maxAge
    requires Renewed(cfg, held, spent, aged, now).Some?
    ensures FromUnix(Renewed(cfg, held, spent, aged, now).value.expires) > held.expires + cfg.ttl / 2 - SECOND
  {
    Truncates(now + cfg.ttl);
  }

  /** A chain of cookies, each but the first the renewal of the one before. */
  ghost predicate RenewalChain(cfg: Settings, chain: seq<Cookie>, who: Identity, login: Time) {
    && chain != []
    && (exists at :: at >= login && chain[0] == Encode(cfg, who, login, at))
    && forall i | 0 < i < |chain| :: RenewalOf(cfg, chain[i - 1], chain[i])
  }

  ghost predicate RenewalOf(cfg: Settings, before: Cookie, after: Cookie) {
    exists at, spent, aged, now :: at <= spent <= aged <= now && Decode(cfg, before, at).Some? &&
      Renewed(cfg, Decode(cfg, before, at).value, spent, aged, now) == Some(after)
  }

  /** Renewing never changes who is signed in nor when they signed in, so no chain of renewals
      outlives the age cap counted from the sign-in. */
  lemma {:induction false} RenewalNeverOutlivesTheCap(cfg: Settings, chain: seq<Cookie>, who: Identity, login: Time, at: Time)
    requires RenewalChain(cfg, chain, who, login)
    ensures chain[|chain| - 1].who == who && chain[|chain| - 1].issued == Unix(login)
    ensures Decode(cfg, chain[|chain| - 1], at).Some? ==> at < login + cfg.maxAge
    decreases |chain|
  {
    if |chain| > 1 {
      assert RenewalOf(cfg, chain[|chain| - 2], chain[|chain| - 1]);
      RenewalNeverOutlivesTheCap(cfg, chain[..|chain| - 1], who, login, at);
    }
  }
}
