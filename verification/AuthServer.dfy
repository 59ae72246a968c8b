/** Sessions and tokens as the handlers and the store run them, against the two tables. */
module AuthServer {
  import opened Text
  import opened Permissions
  import opened Security
  import opened Wrappers
  import opened Credentials

  class Server {
    const parse: Parser
    const adminEmails: seq<string>
    const sessionTtl: int
    var sessions: map<string, Session>
    var tokens: map<string, Token>
    var clock: int
    ghost var held: set<Principal>
    ghost var logins: map<string, Login>
    ghost var loggedOut: set<string>
    ghost var minted: map<string, Minted>
    ghost var revoked: set<string>

    constructor (parse: Parser, adminEmails: seq<string>, sessionTtl: int)
      ensures this.parse == parse && this.adminEmails == adminEmails && this.sessionTtl == sessionTtl
      ensures State() == Credentials.Empty
    {
      this.parse, this.adminEmails, this.sessionTtl := parse, adminEmails, sessionTtl;
      sessions, tokens, clock := map[], map[], 0;
      held, logins, loggedOut, minted, revoked := {}, map[], {}, map[], {};
    }

    ghost function TheDesk(): Desk
      reads this
    {
      Desk(sessions, held, logins, loggedOut)
    }

    ghost function TheMint(): Mint
      reads this
    {
      Mint(tokens, minted, revoked)
    }

    ghost function State(): Auth
      reads this
    {
      Auth(clock, TheDesk(), TheMint())
    }

    // `inserted`: whether the INSERT took effect; `replied`: whether the handler learnt it did. Only
    // then is the cookie set.
    method CreateSession(id: string, secret: string, sub: string, userEmail: string, fallbackEmail: string,
                         claims: seq<string>, inserted: bool, replied: bool) returns (cookie: Option<string>)
      modifies this`sessions, this`logins
      ensures var email := if userEmail != "" then userEmail else fallbackEmail;
              TheDesk() == if !inserted then old(TheDesk())
                           else LoggedIn(old(TheDesk()), id, Login(secret, sub, email, claims, clock + sessionTtl),
                                         EffectiveFor(adminEmails, email, claims))
      ensures cookie == if inserted && replied then Some(Cookie(id, secret)) else None
      ensures var email := if userEmail != "" then userEmail else fallbackEmail;
              sessions == if !inserted then old(sessions)
                          else old(sessions)[id := Session(sub, email, EffectiveFor(adminEmails, email, claims),
                                                           HashOf(secret), clock + sessionTtl)]
    {
      var email := userEmail;
      if email == "" {
        email := fallbackEmail;
      }
      var permissions := EffectivePermissions(adminEmails, email, claims);
      if !inserted {
        return None;
      }
      sessions := sessions[id := Session(sub, email, permissions, HashOf(secret), clock + sessionTtl)];
      logins := logins[id := Login(secret, sub, email, claims, clock + sessionTtl)];
      assert TheDesk() == LoggedIn(old(TheDesk()), id, Login(secret, sub, email, claims, clock + sessionTtl),
                                   permissions);
      cookie := if replied then Some(Cookie(id, secret)) else None;
    }

    method PrincipalFromRequest(cookie: string) returns (p: Option<Principal>)
      modifies this`held
      ensures p == Authenticate(parse, old(TheDesk()), clock, cookie)
      ensures TheDesk() == Presented(old(TheDesk()), p)
      ensures held == if p.Some? then old(held) + {p.value} else old(held)
    {
      if cookie == "" {
        return None;
      }
      var dot := IndexOf(cookie, '.');
      if dot == |cookie| {
        return None;
      }
      var parsed := parse(cookie[..dot]);
      if parsed.None? {
        return None;
      }
      var id := parsed.value;
      if id !in sessions || sessions[id].expiresAt <= clock {
        return None;
      }
      var row := sessions[id];
      if !CheckSecret(cookie[dot + 1..], row.hash) {
        return None;
      }
      p := Some(Principal(id, row.sub, row.email, row.permissions));
      held := held + {p.value};
    }

    // `done`: whether the DELETE took effect.
    method DeleteSession(p: Principal, done: bool)
      modifies this`sessions, this`loggedOut
      ensures TheDesk() == if done then LoggedOut(old(TheDesk()), p) else old(TheDesk())
      ensures sessions == if done then old(sessions) - {p.sessionId} else old(sessions)
    {
      if done {
        sessions := sessions - {p.sessionId};
        loggedOut := loggedOut + {p.sessionId};
      }
    }

    // The handler ignores the DELETE's error. When it took effect the session is gone, the cookie
    // authenticates at no time any more, and every other session is as it was.
    method Logout(cookie: string, done: bool)
      modifies this`held, this`sessions, this`loggedOut
      ensures var p := Authenticate(parse, old(TheDesk()), clock, cookie);
              var seen := Presented(old(TheDesk()), p);
              TheDesk() == if p.Some? && done then LoggedOut(seen, p.value) else seen
      ensures var p := Authenticate(parse, old(TheDesk()), clock, cookie);
              if p.Some? && done then
                && p.value.sessionId !in sessions && sessions == old(sessions) - {p.value.sessionId}
                && forall t :: Authenticate(parse, TheDesk(), t, cookie).None?
              else sessions == old(sessions)
    {
      var p := PrincipalFromRequest(cookie);
      if p.Some? {
        DeleteSession(p.value, done);
      }
    }

    method UpdateSessionEmail(p: Principal, newEmail: string) returns (ok: bool)
      modifies this`sessions
      ensures TheDesk() == EmailChanged(old(TheDesk()), clock, p, Normalize(newEmail))
      ensures ok <==> && Normalize(newEmail) != "" && p.sessionId in old(sessions)
                      && clock < old(sessions)[p.sessionId].expiresAt
      ensures sessions == if !ok then old(sessions)
                          else old(sessions)[p.sessionId := old(sessions)[p.sessionId].(email := Normalize(newEmail))]
    {
      var email := Normalize(newEmail);
      if email == "" {
        return false;
      }
      if p.sessionId !in sessions || sessions[p.sessionId].expiresAt <= clock {
        return false;
      }
      sessions := sessions[p.sessionId := sessions[p.sessionId].(email := email)];
      return true;
    }

    // `connected`: whether the INSERT reached the database.
    method CreateApiToken(p: Principal, id: string, prefix: string, secret: string, connected: bool)
      returns (plain: Option<string>)
      modifies this`tokens, this`minted
      ensures TheMint() == if !connected then old(TheMint())
                           else TokenCreated(old(TheMint()), p, id, prefix, MakePat(prefix, secret),
                                             EffectiveFor(adminEmails, p.email, p.permissions))
      ensures plain.Some? ==> plain.value == MakePat(prefix, secret) && id in minted && minted[id].plain == plain.value
      ensures plain.Some? <==> && connected && id !in old(tokens)
                               && forall other :: other in old(tokens) ==> old(tokens)[other].prefix != prefix
      ensures plain.Some? ==> tokens == old(tokens)[id := Token(p.sub, p.email, prefix, HashOf(MakePat(prefix, secret)),
                                                               EffectiveFor(adminEmails, p.email, p.permissions),
                                                               false)]
      ensures plain.None? ==> TheMint() == old(TheMint())
    {
      var text := MakePat(prefix, secret);
      var permissions := EffectivePermissions(adminEmails, p.email, p.permissions);
      if !connected || id in tokens || exists other :: other in tokens && tokens[other].prefix == prefix {
        return None;
      }
      tokens := tokens[id := Token(p.sub, p.email, prefix, HashOf(text), permissions, false)];
      minted := minted[id := Minted(text, p.sub)];
      return Some(text);
    }

    method RevokeApiToken(p: Principal, id: string) returns (ok: bool)
      modifies this`tokens, this`revoked
      ensures TheMint() == Revoked(old(TheMint()), p, id)
      ensures ok <==> id in old(tokens) && old(tokens)[id].sub == p.sub && !old(tokens)[id].revoked
      ensures tokens == if ok then old(tokens)[id := old(tokens)[id].(revoked := true)] else old(tokens)
    {
      if id !in tokens || tokens[id].sub != p.sub || tokens[id].revoked {
        return false;
      }
      tokens := tokens[id := tokens[id].(revoked := true)];
      revoked := revoked + {id};
      return true;
    }

    method Introspect(text: string) returns (a: Answer)
      ensures Introspects(adminEmails, TheMint(), text, a)
    {
      var token := Trim(text);
      if !IsPat(token) {
        return Inactive;
      }
      var prefix := PatPrefixFromToken(token);
      if prefix.None? {
        return Inactive;
      }
      var rows := set id | id in tokens && tokens[id].prefix == prefix.value && !tokens[id].revoked;
      assert rows == LiveRows(TheMint(), prefix.value);
      if rows == {} {
        return Inactive;
      }
      var id :| id in rows;
      var row := tokens[id];
      if !CheckSecret(token, row.hash) {
        return Inactive;
      }
      var permissions := EffectivePermissions(adminEmails, row.email, row.permissions);
      return Active(row.sub, row.email, permissions);
    }

    method ServeSession(e: Event)
      requires e.LogIn? ==> e.ttl == sessionTtl
      modifies this`held, this`sessions, this`logins, this`loggedOut
      ensures TheDesk() == NextDesk(parse, adminEmails, old(TheDesk()), clock, e)
    {
      match e
      case LogIn(_, id, secret, sub, email, claims, _) =>
        var _ := CreateSession(id, secret, sub, email, "", claims, true, true);
      case Present(_, cookie) => var _ := PrincipalFromRequest(cookie);
      case LogOut(_, p, done) => DeleteSession(p, done);
      case ChangeEmail(_, p, email) => var _ := UpdateSessionEmail(p, email);
      case _ =>
    }

    method ServeToken(e: Event)
      modifies this`tokens, this`minted, this`revoked
      ensures TheMint() == NextMint(adminEmails, old(TheMint()), e)
    {
      match e
      case CreateToken(_, p, id, prefix, secret) => var _ := CreateApiToken(p, id, prefix, secret, true);
      case Revoke(_, p, id) => var _ := RevokeApiToken(p, id);
      case _ =>
    }

    // Whatever the code does to the tables is a run of the state machine: each possible event is served
    // by the methods above.
    method Serve(e: Event)
      requires Possible(TheDesk(), e) && (e.LogIn? ==> e.ttl == sessionTtl)
      modifies this
      ensures State() == Next(parse, adminEmails, old(State()), e)
    {
      NextPossible(parse, adminEmails, State(), e);
      clock := clock + e.delay;
      ServeSession(e);
      ServeToken(e);
    }
  }
}
