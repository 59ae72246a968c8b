/** The client-credentials token cache: one token, fetched under a mutex when missing or stale. */
module M2M {

  const SECOND := 1_000_000_000
  const SKEW := 30 * SECOND

  // What Keycloak answered. ClientCredentialsToken refuses an empty token and reads a lifetime
  // that is not positive as one minute.
  datatype Reply = Reply(accessToken: string, expiresIn: int) | NoReply

  predicate Usable(r: Reply) {
    r.Reply? && r.accessToken != ""
  }

  function Lifetime(expiresIn: int): int {
    var ttl := expiresIn * 1_000_000_000;
    if ttl <= 0 then 60 * SECOND else ttl
  }

  // How long a token is served: its lifetime, less 30s when that leaves at least as much again.
  function Kept(ttl: int): int {
    if ttl > 2 * SKEW then ttl - SKEW else ttl
  }

  // One call: the time since the last one, Keycloak's reply if it is asked, and how long that took.
  datatype Call = Call(wait: nat, reply: Reply, took: nat)

  datatype Item =
    | Served(token: string, at: int)
    | Fetched(token: string, asked: int, done: int, ttl: int, expiresIn: int)
    | Refused(asked: int)

  datatype Cache = Cache(token: string, expiry: int)

  datatype State = State(cache: Cache, clock: int, log: seq<Item>)

  predicate Valid(c: Cache, now: int) {
    c.token != "" && now < c.expiry
  }

  function Next(s: State, call: Call): State {
    var now := s.clock + call.wait;
    if Valid(s.cache, now) then State(s.cache, now, s.log + [Served(s.cache.token, now)])
    else
      var done := now + call.took;
      if !Usable(call.reply) then State(s.cache, done, s.log + [Refused(now)])
      else
        var ttl := Lifetime(call.reply.expiresIn);
        State(Cache(call.reply.accessToken, done + Kept(ttl)), done,
              s.log + [Fetched(call.reply.accessToken, now, done, ttl, call.reply.expiresIn)])
  }

  const Start := State(Cache("", 0), 0, [])

  function Run(calls: seq<Call>): State {
    if calls == [] then Start else Next(Run(calls[..|calls| - 1]), calls[|calls| - 1])
  }

  // The last successful fetch, if any.
  datatype Fetch = Never | Last(token: string, done: int, ttl: int)

  function LastFetch(log: seq<Item>): Fetch {
    if log == [] then Never
    else
      match log[|log| - 1]
      case Fetched(token, _, done, ttl, _) => Last(token, done, ttl)
      case _ => LastFetch(log[..|log| - 1])
  }

  // Keycloak is asked only when there was no token or the last one is no longer kept.
  predicate Stale(f: Fetch, asked: int) {
    f.Last? ==> asked >= f.done + if f.ttl > 60_000_000_000 then f.ttl - 30_000_000_000 else f.ttl
  }

  // A cached token is the last one fetched, still younger than its lifetime, which is counted
  // from the end of the fetch; when that was over a minute, more than 30s are left of it.
  predicate Fresh(f: Fetch, token: string, at: int) {
    && f.Last? && f.token == token
    && f.done <= at < f.done + f.ttl
    && (f.ttl > 60_000_000_000 ==> f.done + f.ttl - at > 30_000_000_000)
  }

  ghost predicate ItemOk(before: seq<Item>, item: Item) {
    match item
    case Served(token, at) => Fresh(LastFetch(before), token, at)
    // The lifetime is what Keycloak said, in seconds, or one minute.
    case Fetched(_, asked, done, ttl, expiresIn) =>
      && asked <= done && Stale(LastFetch(before), asked)
      && ttl == if expiresIn > 0 then expiresIn * 1_000_000_000 else 60_000_000_000
    case Refused(asked) => Stale(LastFetch(before), asked)
  }

  ghost predicate OkAt(log: seq<Item>, i: nat) {
    i < |log| ==> ItemOk(log[..i], log[i])
  }

  ghost predicate LogOk(log: seq<Item>) {
    forall i: nat :: OkAt(log, i)
  }

  // The cache holds the last fetch.
  predicate CacheOk(c: Cache, clock: int, f: Fetch) {
    match f
    case Never => c.token == ""
    case Last(token, done, ttl) => c == Cache(token, done + Kept(ttl)) && token != "" && done <= clock && ttl > 0
  }

  ghost predicate Inv(s: State) {
    LogOk(s.log) && CacheOk(s.cache, s.clock, LastFetch(s.log))
  }

  lemma LogAppend(log: seq<Item>, item: Item)
    requires LogOk(log) && ItemOk(log, item)
    ensures LogOk(log + [item])
    ensures LastFetch(log + [item]) == if item.Fetched? then Last(item.token, item.done, item.ttl) else LastFetch(log)
  {
    var more := log + [item];
    assert more[..|log|] == log;
    forall i: nat ensures OkAt(more, i) {
      if i < |log| {
        assert OkAt(log, i);
        assert more[..i] == log[..i];
      }
    }
  }

  // What the cache may serve, and when it asks.
  lemma CacheDecides(c: Cache, clock: int, now: int, f: Fetch)
    requires CacheOk(c, clock, f) && clock <= now
    ensures if Valid(c, now) then Fresh(f, c.token, now) else Stale(f, now)
  {
  }

  lemma NextInv(s: State, call: Call)
    requires Inv(s)
    ensures Inv(Next(s, call))
  {
    var now := s.clock + call.wait;
    CacheDecides(s.cache, s.clock, now, LastFetch(s.log));
    LogAppend(s.log, if Valid(s.cache, now) then Served(s.cache.token, now)
                     else if !Usable(call.reply) then Refused(now)
                     else Fetched(call.reply.accessToken, now, now + call.took, Lifetime(call.reply.expiresIn),
                                  call.reply.expiresIn));
  }

  lemma {:induction false} RunInv(calls: seq<Call>)
    ensures Inv(Run(calls))
  {
    if calls != [] {
      RunInv(calls[..|calls| - 1]);
      NextInv(Run(calls[..|calls| - 1]), calls[|calls| - 1]);
    }
  }

  // Over any sequence of calls and failures, every token served from the cache and every request
  // to Keycloak is as ItemOk says.
  lemma CacheSound(calls: seq<Call>, i: nat)
    requires i < |Run(calls).log|
    ensures ItemOk(Run(calls).log[..i], Run(calls).log[i])
  {
    RunInv(calls);
    assert OkAt(Run(calls).log, i);
  }

  // The code, its lock held throughout.
  class Source {
    var token: string
    var expiry: int
    var clock: int
    ghost var log: seq<Item>

    constructor ()
      ensures View() == Start
    {
      token, expiry, clock, log := "", 0, 0, [];
    }

    ghost function View(): State
      reads this
    {
      State(Cache(token, expiry), clock, log)
    }

    method CachedClientToken(call: Call) returns (served: string, ok: bool)
      modifies this
      ensures View() == Next(old(View()), call)
      ensures ok <==> || (old(token) != "" && old(clock) + call.wait < old(expiry))
                      || (call.reply.Reply? && call.reply.accessToken != "")
      ensures ok ==> served == token != ""
      ensures old(token) != "" && old(clock) + call.wait < old(expiry) ==> token == old(token) && expiry == old(expiry)
      ensures ok && !(old(token) != "" && old(clock) + call.wait < old(expiry)) ==> token == call.reply.accessToken
      ensures !ok ==> token == old(token) && expiry == old(expiry)
    {
      clock := clock + call.wait;
      if token != "" && clock < expiry {
        log := log + [Served(token, clock)];
        return token, true;
      }
      ghost var asked := clock;
      clock := clock + call.took;
      if !Usable(call.reply) {
        log := log + [Refused(asked)];
        return "", false;
      }
      var ttl := Lifetime(call.reply.expiresIn);
      log := log + [Fetched(call.reply.accessToken, asked, clock, ttl, call.reply.expiresIn)];
      if ttl > 2 * SKEW {
        ttl := ttl - SKEW;
      }
      token := call.reply.accessToken;
      expiry := clock + ttl;
      return call.reply.accessToken, true;
    }
  }
}
