/** Personal access tokens and session cookies: who can present what, and which privileges it
    carries. The two Postgres tables change by single statements; handlers keep a copy of the
    principal they read and may use it any time later, so every interleaving is covered. */
module Credentials {
  import opened Text
  import opened Permissions
  import opened Security
  import opened Wrappers

  // ---- The tables

  datatype Session = Session(sub: string, email: string, permissions: seq<string>, hash: Hash, expiresAt: int)

  datatype Token = Token(sub: string, email: string, prefix: string, hash: Hash, permissions: seq<string>,
                         revoked: bool)

  datatype Principal = Principal(sessionId: string, sub: string, email: string, permissions: seq<string>)

  // History, by id: what was issued, with what.
  datatype Login = Login(secret: string, sub: string, email: string, claims: seq<string>, expiresAt: int)

  datatype Minted = Minted(plain: string, sub: string)

  // held: the principals that handlers have read.
  datatype Desk = Desk(sessions: map<string, Session>, held: set<Principal>, logins: map<string, Login>,
                       loggedOut: set<string>)

  datatype Mint = Mint(tokens: map<string, Token>, minted: map<string, Minted>, revoked: set<string>)

  datatype Auth = Auth(clock: int, desk: Desk, mint: Mint)

  // uuid.Parse, whatever forms of a UUID it reads: an id is known by its canonical text.
  type Parser = string -> Option<string>

  // It reads at least what uuid.UUID.String writes.
  ghost predicate ReadsOwn(parse: Parser) {
    forall id: string :: UuidText(id) ==> parse(id) == Some(id)
  }

  // Canonical text of a UUID: no dot in it.
  predicate UuidText(id: string) {
    |id| == 36 && forall i :: 0 <= i < |id| ==> '0' <= id[i] <= '9' || 'a' <= id[i] <= 'f' || id[i] == '-'
  }

  function Cookie(id: string, secret: string): string {
    id + ("." + secret)
  }

  // GetSession and the secret's check
  function ReadSession(d: Desk, clock: int, id: string, secret: string): Option<Principal> {
    if id !in d.sessions || d.sessions[id].expiresAt <= clock || !CheckSecret(secret, d.sessions[id].hash) then None
    else Some(Principal(id, d.sessions[id].sub, d.sessions[id].email, d.sessions[id].permissions))
  }

  // principalFromRequest
  function Authenticate(parse: Parser, d: Desk, clock: int, cookie: string): Option<Principal> {
    var i := IndexOf(cookie, '.');
    if i == |cookie| || parse(cookie[..i]).None? then None
    else ReadSession(d, clock, parse(cookie[..i]).value, cookie[i + 1..])
  }

  datatype Answer = Active(sub: string, email: string, permissions: seq<string>) | Inactive

  // The rows SELECT ... WHERE token_prefix = $1 AND revoked_at IS NULL finds.
  function LiveRows(m: Mint, prefix: string): set<string> {
    set id | id in m.tokens && m.tokens[id].prefix == prefix && !m.tokens[id].revoked
  }

  // introspect, reading one of them; the unique index leaves no more than one.
  ghost predicate Introspects(adminEmails: seq<string>, m: Mint, text: string, a: Answer) {
    var prefix := PatPrefixFromToken(Trim(text));
    if prefix.None? || LiveRows(m, prefix.value) == {} then a == Inactive
    else
      exists id :: id in LiveRows(m, prefix.value) &&
        a == if CheckSecret(Trim(text), m.tokens[id].hash)
             then Active(m.tokens[id].sub, m.tokens[id].email,
                         EffectiveFor(adminEmails, m.tokens[id].email, m.tokens[id].permissions))
             else Inactive
  }

  // ---- One statement at a time

  function LoggedIn(d: Desk, id: string, l: Login, permissions: seq<string>): Desk {
    d.(sessions := d.sessions[id := Session(l.sub, l.email, permissions, HashOf(l.secret), l.expiresAt)],
       logins := d.logins[id := l])
  }

  function Presented(d: Desk, p: Option<Principal>): Desk {
    if p.None? then d else d.(held := d.held + {p.value})
  }

  function LoggedOut(d: Desk, p: Principal): Desk {
    d.(sessions := d.sessions - {p.sessionId}, loggedOut := d.loggedOut + {p.sessionId})
  }

  // UPDATE sessions SET user_email ... WHERE id = $1 AND expires_at > now()
  function EmailChanged(d: Desk, clock: int, p: Principal, email: string): Desk {
    if email == "" || p.sessionId !in d.sessions || d.sessions[p.sessionId].expiresAt <= clock then d
    else d.(sessions := d.sessions[p.sessionId := d.sessions[p.sessionId].(email := email)])
  }

  // INSERT INTO api_tokens: refused when the id or, by the unique index, the prefix is taken.
  function TokenCreated(m: Mint, p: Principal, id: string, prefix: string, plain: string,
                        permissions: seq<string>): Mint {
    if id in m.tokens || exists other :: other in m.tokens && m.tokens[other].prefix == prefix then m
    else
      m.(tokens := m.tokens[id := Token(p.sub, p.email, prefix, HashOf(plain), permissions, false)],
         minted := m.minted[id := Minted(plain, p.sub)])
  }

  // UPDATE api_tokens SET revoked_at ... WHERE id = $1 AND user_sub = $2 AND revoked_at IS NULL
  function Revoked(m: Mint, p: Principal, id: string): Mint {
    if id in m.tokens && m.tokens[id].sub == p.sub && !m.tokens[id].revoked
    then m.(tokens := m.tokens[id := m.tokens[id].(revoked := true)], revoked := m.revoked + {id})
    else m
  }

  datatype Event =
    // createSession with the e-mail it settled on; uuid.New and RandomToken give id and secret.
    | LogIn(delay: nat, id: string, secret: string, sub: string, email: string, claims: seq<string>, ttl: int)
    // principalFromRequest, at the beginning of a handler
    | Present(delay: nat, cookie: string)
    | LogOut(delay: nat, p: Principal, done: bool)
    | ChangeEmail(delay: nat, p: Principal, email: string)
    | CreateToken(delay: nat, p: Principal, id: string, prefix: string, secret: string)
    | Revoke(delay: nat, p: Principal, id: string)

  // Handlers act only for a principal they have read; new ids, secrets and prefixes have the
  // form their generators give them, and a session id is never given twice.
  predicate Possible(d: Desk, e: Event) {
    match e
    case LogIn(_, id, secret, _, _, _, _) => UuidText(id) && id !in d.logins
    case Present(_, _) => true
    case LogOut(_, p, _) => p in d.held
    case ChangeEmail(_, p, _) => p in d.held
    case CreateToken(_, p, _, prefix, secret) => p in d.held && HexPrefix(prefix) && Base64Url(secret)
    case Revoke(_, p, _) => p in d.held
  }

  function NextDesk(parse: Parser, adminEmails: seq<string>, d: Desk, clock: int, e: Event): Desk {
    match e
    case LogIn(_, id, secret, sub, email, claims, ttl) =>
      LoggedIn(d, id, Login(secret, sub, email, claims, clock + ttl), EffectiveFor(adminEmails, email, claims))
    case Present(_, cookie) => Presented(d, Authenticate(parse, d, clock, cookie))
    case LogOut(_, p, done) => if done then LoggedOut(d, p) else d
    case ChangeEmail(_, p, email) => EmailChanged(d, clock, p, Normalize(email))
    case _ => d
  }

  function NextMint(adminEmails: seq<string>, m: Mint, e: Event): Mint {
    match e
    case CreateToken(_, p, id, prefix, secret) =>
      TokenCreated(m, p, id, prefix, MakePat(prefix, secret), EffectiveFor(adminEmails, p.email, p.permissions))
    case Revoke(_, p, id) => Revoked(m, p, id)
    case _ => m
  }

  function Next(parse: Parser, adminEmails: seq<string>, s: Auth, e: Event): Auth {
    var clock := s.clock + e.delay;
    if !Possible(s.desk, e) then s.(clock := clock)
    else Auth(clock, NextDesk(parse, adminEmails, s.desk, clock, e), NextMint(adminEmails, s.mint, e))
  }

  lemma NextPossible(parse: Parser, adminEmails: seq<string>, s: Auth, e: Event)
    requires Possible(s.desk, e)
    ensures var clock := s.clock + e.delay;
            Next(parse, adminEmails, s, e)
            == Auth(clock, NextDesk(parse, adminEmails, s.desk, clock, e), NextMint(adminEmails, s.mint, e))
  {
  }

  const Empty := Auth(0, Desk(map[], {}, map[], {}), Mint(map[], map[], {}))

  function Run(parse: Parser, adminEmails: seq<string>, es: seq<Event>): Auth {
    if es == [] then Empty else Next(parse, adminEmails, Run(parse, adminEmails, es[..|es| - 1]), es[|es| - 1])
  }

  // ---- Privilege provenance

  // This login yielded these permissions for this user: its own claims filtered, privileged ones
  // kept only if its e-mail was allowlisted.
  ghost predicate YieldedBy(adminEmails: seq<string>, l: Login, sub: string, permissions: seq<string>) {
    && l.sub == sub
    && (permissions == Effective(false, l.claims)
        || (AdminEmail(adminEmails, l.email) && permissions == Effective(true, l.claims)))
  }

  ghost predicate Yielded(adminEmails: seq<string>, logins: map<string, Login>, sub: string, permissions: seq<string>) {
    exists id :: id in logins && YieldedBy(adminEmails, logins[id], sub, permissions)
  }

  lemma YieldedStays(adminEmails: seq<string>, logins: map<string, Login>, id: string, l: Login, sub: string,
                     permissions: seq<string>)
    requires id !in logins && Yielded(adminEmails, logins, sub, permissions)
    ensures Yielded(adminEmails, logins[id := l], sub, permissions)
  {
    var x :| x in logins && YieldedBy(adminEmails, logins[x], sub, permissions);
    assert YieldedBy(adminEmails, logins[id := l][x], sub, permissions);
  }

  // Filtering again, under whatever e-mail, yields no more.
  lemma YieldedAgain(adminEmails: seq<string>, logins: map<string, Login>, sub: string, permissions: seq<string>,
                     email: string)
    requires Yielded(adminEmails, logins, sub, permissions)
    ensures Yielded(adminEmails, logins, sub, EffectiveFor(adminEmails, email, permissions))
  {
    var id :| id in logins && YieldedBy(adminEmails, logins[id], sub, permissions);
    var a := AdminEmail(adminEmails, email);
    EffectiveTwice(a, false, logins[id].claims);
    EffectiveTwice(a, true, logins[id].claims);
    assert YieldedBy(adminEmails, logins[id], sub, EffectiveFor(adminEmails, email, permissions));
  }

  ghost predicate DeskPriv(adminEmails: seq<string>, d: Desk) {
    && (forall id :: id in d.sessions ==>
          Yielded(adminEmails, d.logins, d.sessions[id].sub, d.sessions[id].permissions))
    && (forall p :: p in d.held ==> Yielded(adminEmails, d.logins, p.sub, p.permissions))
  }

  ghost predicate MintPriv(adminEmails: seq<string>, logins: map<string, Login>, m: Mint) {
    forall id :: id in m.tokens ==> Yielded(adminEmails, logins, m.tokens[id].sub, m.tokens[id].permissions)
  }

  lemma LogInPriv(adminEmails: seq<string>, d: Desk, m: Mint, id: string, l: Login)
    requires id !in d.logins && DeskPriv(adminEmails, d) && MintPriv(adminEmails, d.logins, m)
    ensures var d1 := LoggedIn(d, id, l, EffectiveFor(adminEmails, l.email, l.claims));
            DeskPriv(adminEmails, d1) && MintPriv(adminEmails, d1.logins, m)
  {
    var d1 := LoggedIn(d, id, l, EffectiveFor(adminEmails, l.email, l.claims));
    forall sub, perms | Yielded(adminEmails, d.logins, sub, perms) ensures Yielded(adminEmails, d1.logins, sub, perms) {
      YieldedStays(adminEmails, d.logins, id, l, sub, perms);
    }
    assert YieldedBy(adminEmails, d1.logins[id], l.sub, EffectiveFor(adminEmails, l.email, l.claims));
  }

  // The other statements on sessions hand on permissions, they create none.
  lemma SessionPriv(adminEmails: seq<string>, d: Desk, clock: int, p: Principal, email: string, id: string,
                    secret: string)
    requires DeskPriv(adminEmails, d)
    ensures DeskPriv(adminEmails, LoggedOut(d, p))
    ensures DeskPriv(adminEmails, EmailChanged(d, clock, p, email))
    ensures DeskPriv(adminEmails, Presented(d, ReadSession(d, clock, id, secret)))
  {
  }

  lemma TokenPriv(adminEmails: seq<string>, logins: map<string, Login>, m: Mint, p: Principal, id: string,
                  prefix: string, plain: string, permissions: seq<string>)
    requires MintPriv(adminEmails, logins, m)
    ensures Yielded(adminEmails, logins, p.sub, permissions) ==>
              MintPriv(adminEmails, logins, TokenCreated(m, p, id, prefix, plain, permissions))
    ensures MintPriv(adminEmails, logins, Revoked(m, p, id))
  {
  }

  ghost predicate PrivInv(adminEmails: seq<string>, s: Auth) {
    DeskPriv(adminEmails, s.desk) && MintPriv(adminEmails, s.desk.logins, s.mint)
  }

  lemma PresentPriv(parse: Parser, adminEmails: seq<string>, d: Desk, clock: int, cookie: string)
    requires DeskPriv(adminEmails, d)
    ensures DeskPriv(adminEmails, Presented(d, Authenticate(parse, d, clock, cookie)))
  {
    var i := IndexOf(cookie, '.');
    if Authenticate(parse, d, clock, cookie).Some? {
      SessionPriv(adminEmails, d, clock, Principal("", "", "", []), "", parse(cookie[..i]).value, cookie[i + 1..]);
    }
  }

  // Logging in is the one statement that brings new permissions.
  lemma NextDeskPriv(parse: Parser, adminEmails: seq<string>, d: Desk, clock: int, e: Event)
    requires !e.LogIn? && DeskPriv(adminEmails, d)
    ensures DeskPriv(adminEmails, NextDesk(parse, adminEmails, d, clock, e))
    ensures NextDesk(parse, adminEmails, d, clock, e).logins == d.logins
  {
    match e
    case Present(_, cookie) => PresentPriv(parse, adminEmails, d, clock, cookie);
    case LogOut(_, p, _) => SessionPriv(adminEmails, d, clock, p, "", "", "");
    case ChangeEmail(_, p, email) => SessionPriv(adminEmails, d, clock, p, Normalize(email), "", "");
    case _ =>
  }

  lemma NextMintPriv(adminEmails: seq<string>, d: Desk, m: Mint, e: Event)
    requires Possible(d, e) && DeskPriv(adminEmails, d) && MintPriv(adminEmails, d.logins, m)
    ensures MintPriv(adminEmails, d.logins, NextMint(adminEmails, m, e))
  {
    match e
    case CreateToken(_, p, id, prefix, secret) =>
      YieldedAgain(adminEmails, d.logins, p.sub, p.permissions, p.email);
      TokenPriv(adminEmails, d.logins, m, p, id, prefix, MakePat(prefix, secret),
                EffectiveFor(adminEmails, p.email, p.permissions));
    case Revoke(_, p, id) => TokenPriv(adminEmails, d.logins, m, p, id, "", "", []);
    case _ =>
  }

  // The login a LogIn event stands for.
  function LoginOf(e: Event, clock: int): Login
    requires e.LogIn?
  {
    Login(e.secret, e.sub, e.email, e.claims, clock + e.ttl)
  }

  lemma NextByLogIn(parse: Parser, adminEmails: seq<string>, d: Desk, clock: int, e: Event)
    requires e.LogIn?
    ensures var l := LoginOf(e, clock);
            NextDesk(parse, adminEmails, d, clock, e)
            == LoggedIn(d, e.id, l, EffectiveFor(adminEmails, l.email, l.claims))
  {
  }

  lemma PossiblePriv(parse: Parser, adminEmails: seq<string>, d: Desk, m: Mint, clock: int, e: Event)
    requires Possible(d, e) && DeskPriv(adminEmails, d) && MintPriv(adminEmails, d.logins, m)
    ensures var d1 := NextDesk(parse, adminEmails, d, clock, e);
            DeskPriv(adminEmails, d1) && MintPriv(adminEmails, d1.logins, NextMint(adminEmails, m, e))
  {
    if e.LogIn? {
      NextByLogIn(parse, adminEmails, d, clock, e);
      LogInPriv(adminEmails, d, m, e.id, LoginOf(e, clock));
      assert NextMint(adminEmails, m, e) == m;
    } else {
      NextDeskPriv(parse, adminEmails, d, clock, e);
      NextMintPriv(adminEmails, d, m, e);
    }
  }

  lemma NextPriv(parse: Parser, adminEmails: seq<string>, s: Auth, e: Event)
    requires PrivInv(adminEmails, s)
    ensures PrivInv(adminEmails, Next(parse, adminEmails, s, e))
  {
    if Possible(s.desk, e) {
      NextPossible(parse, adminEmails, s, e);
      PossiblePriv(parse, adminEmails, s.desk, s.mint, s.clock + e.delay, e);
    }
  }

  lemma {:induction false} RunPriv(parse: Parser, adminEmails: seq<string>, es: seq<Event>)
    ensures PrivInv(adminEmails, Run(parse, adminEmails, es))
  {
    if es != [] {
      RunPriv(parse, adminEmails, es[..|es| - 1]);
      NextPriv(parse, adminEmails, Run(parse, adminEmails, es[..|es| - 1]), es[|es| - 1]);
    }
  }

  // Whatever a session, a principal in a handler's hands, a token or an introspection answer
  // carries was yielded by one login of that user.
  lemma PrivilegesComeFromLogin(parse: Parser, adminEmails: seq<string>, es: seq<Event>, text: string, a: Answer)
    ensures PrivInv(adminEmails, Run(parse, adminEmails, es))
    ensures Introspects(adminEmails, Run(parse, adminEmails, es).mint, text, a) && a.Active? ==>
              Yielded(adminEmails, Run(parse, adminEmails, es).desk.logins, a.sub, a.permissions)
  {
    RunPriv(parse, adminEmails, es);
    var m, logins := Run(parse, adminEmails, es).mint, Run(parse, adminEmails, es).desk.logins;
    if Introspects(adminEmails, m, text, a) && a.Active? {
      var prefix := PatPrefixFromToken(Trim(text)).value;
      var id :| id in LiveRows(m, prefix) && m.tokens[id].sub == a.sub && m.tokens[id].email == a.email
                && a.permissions == EffectiveFor(adminEmails, m.tokens[id].email, m.tokens[id].permissions);
      YieldedAgain(adminEmails, logins, m.tokens[id].sub, m.tokens[id].permissions, m.tokens[id].email);
    }
  }

  // So admin and bank:write are held only if that login's claims held them and its e-mail was
  // allowlisted; and nothing but bank:demo is held that it did not yield.
  lemma YieldedPrivileges(adminEmails: seq<string>, l: Login, sub: string, permissions: seq<string>, p: string)
    requires YieldedBy(adminEmails, l, sub, permissions) && p in permissions
    ensures p == "admin" || p == "bank:write" ==>
              && Normalize(l.email) != ""
              && (exists i :: 0 <= i < |adminEmails| && Normalize(adminEmails[i]) == Normalize(l.email))
              && p in TrimAll(l.claims)
    ensures p in EffectiveFor(adminEmails, l.email, l.claims)
    ensures p == "bank:demo" || p in TrimAll(l.claims)
  {
    EffectiveMeetsSpec(false, l.claims);
    EffectiveMeetsSpec(true, l.claims);
    if p == "admin" || p == "bank:write" {
      PrivilegeNeedsAllowlist(false, l.claims, p);
      PrivilegeNeedsAllowlist(true, l.claims, p);
    }
  }

  // ---- Credential soundness

  // Sessions are exactly the logins not logged out; a row keeps its login's user, secret and
  // first expiry.
  ghost predicate DeskInv(d: Desk) {
    && (forall id :: id in d.sessions <==> id in d.logins && id !in d.loggedOut)
    && d.loggedOut <= d.logins.Keys
    && (forall id :: id in d.sessions ==>
          && UuidText(id)
          && d.sessions[id].sub == d.logins[id].sub
          && d.sessions[id].hash == HashOf(d.logins[id].secret)
          && d.sessions[id].expiresAt == d.logins[id].expiresAt)
    && (forall p :: p in d.held ==> p.sessionId in d.logins)
  }

  // A row's user, hash and prefix are those of the token it was minted for.
  ghost predicate RowOk(t: Token, m: Minted, revoked: bool) {
    t.sub == m.sub && t.hash == HashOf(m.plain) && WellMade(m.plain, t.prefix) && t.revoked == revoked
  }

  ghost predicate RowInv(m: Mint, id: string)
    requires id in m.tokens && id in m.minted
  {
    RowOk(m.tokens[id], m.minted[id], id in m.revoked)
  }

  ghost predicate PrefixUnique(m: Mint) {
    forall a, b :: a in m.tokens && b in m.tokens && a != b ==> m.tokens[a].prefix != m.tokens[b].prefix
  }

  ghost predicate MintInv(m: Mint) {
    && PrefixUnique(m)
    && m.minted.Keys == m.tokens.Keys
    && m.revoked <= m.tokens.Keys
    && (forall id :: id in m.tokens ==> RowInv(m, id))
  }

  ghost predicate WellMade(plain: string, prefix: string) {
    exists secret: string :: HexPrefix(prefix) && Base64Url(secret) && plain == MakePat(prefix, secret)
  }

  lemma WellMadeReads(plain: string, prefix: string)
    requires WellMade(plain, prefix)
    ensures PatPrefixFromToken(plain) == Some(prefix) && Trim(plain) == plain
  {
    var secret: string :| HexPrefix(prefix) && Base64Url(secret) && plain == MakePat(prefix, secret);
    PatRoundTrip(prefix, secret);
  }

  lemma DeskSteps(d: Desk, clock: int, p: Principal, email: string, id: string, secret: string, l: Login,
                  permissions: seq<string>)
    requires DeskInv(d)
    ensures UuidText(id) && id !in d.logins ==> DeskInv(LoggedIn(d, id, l, permissions))
    ensures DeskInv(Presented(d, ReadSession(d, clock, id, secret)))
    ensures p in d.held ==> DeskInv(LoggedOut(d, p))
    ensures DeskInv(EmailChanged(d, clock, p, email))
  {
  }

  lemma PrefixesStayUnique(m: Mint, p: Principal, id: string, prefix: string, plain: string, permissions: seq<string>)
    requires PrefixUnique(m)
    ensures PrefixUnique(TokenCreated(m, p, id, prefix, plain, permissions)) && PrefixUnique(Revoked(m, p, id))
  {
  }

  lemma CreateKeeps(m: Mint, p: Principal, id: string, prefix: string, plain: string, permissions: seq<string>)
    requires MintInv(m) && WellMade(plain, prefix)
    ensures MintInv(TokenCreated(m, p, id, prefix, plain, permissions))
  {
    var m1 := TokenCreated(m, p, id, prefix, plain, permissions);
    PrefixesStayUnique(m, p, id, prefix, plain, permissions);
    if m1 != m {
      forall x | x in m1.tokens ensures RowInv(m1, x) {
        if x != id {
          assert RowInv(m, x);
        }
      }
    }
  }

  lemma RevokeKeeps(m: Mint, p: Principal, id: string)
    requires MintInv(m)
    ensures MintInv(Revoked(m, p, id))
  {
    var m1 := Revoked(m, p, id);
    PrefixesStayUnique(m, p, id, "", "", []);
    forall x | x in m1.tokens ensures RowInv(m1, x) {
      assert RowInv(m, x);
    }
  }

  lemma NextSound(parse: Parser, adminEmails: seq<string>, s: Auth, e: Event)
    requires DeskInv(s.desk) && MintInv(s.mint)
    ensures DeskInv(Next(parse, adminEmails, s, e).desk) && MintInv(Next(parse, adminEmails, s, e).mint)
  {
    var clock := s.clock + e.delay;
    var nobody, nothing := Principal("", "", "", []), Login("", "", "", [], 0);
    if Possible(s.desk, e) {
      match e
      case LogIn(_, id, secret, sub, email, claims, ttl) =>
        DeskSteps(s.desk, clock, nobody, "", id, "", Login(secret, sub, email, claims, clock + ttl),
                  EffectiveFor(adminEmails, email, claims));
      case Present(_, cookie) =>
        var i := IndexOf(cookie, '.');
        if Authenticate(parse, s.desk, clock, cookie).Some? {
          DeskSteps(s.desk, clock, nobody, "", parse(cookie[..i]).value, cookie[i + 1..], nothing, []);
        }
      case LogOut(_, p, _) => DeskSteps(s.desk, clock, p, "", "", "", nothing, []);
      case ChangeEmail(_, p, email) => DeskSteps(s.desk, clock, p, Normalize(email), "", "", nothing, []);
      case CreateToken(_, p, id, prefix, secret) =>
        assert WellMade(MakePat(prefix, secret), prefix);
        CreateKeeps(s.mint, p, id, prefix, MakePat(prefix, secret), EffectiveFor(adminEmails, p.email, p.permissions));
      case Revoke(_, p, id) => RevokeKeeps(s.mint, p, id);
    }
  }

  lemma {:induction false} RunSound(parse: Parser, adminEmails: seq<string>, es: seq<Event>)
    ensures DeskInv(Run(parse, adminEmails, es).desk) && MintInv(Run(parse, adminEmails, es).mint)
  {
    if es != [] {
      RunSound(parse, adminEmails, es[..|es| - 1]);
      NextSound(parse, adminEmails, Run(parse, adminEmails, es[..|es| - 1]), es[|es| - 1]);
    }
  }

  // This cookie names login id and bears its secret; the session was not logged out and is not
  // past the expiry it was given.
  ghost predicate CookieOf(parse: Parser, s: Auth, id: string, cookie: string) {
    && id in s.desk.logins && id !in s.desk.loggedOut
    && Names(parse, cookie, id, s.desk.logins[id].secret)
    && s.clock < s.desk.logins[id].expiresAt
  }

  // A text of the id, a dot, the secret.
  ghost predicate Names(parse: Parser, cookie: string, id: string, secret: string) {
    exists text: string :: '.' !in text && parse(text) == Some(id) && cookie == Cookie(text, secret)
  }

  lemma CookieParts(text: string, secret: string)
    requires '.' !in text
    ensures var c := Cookie(text, secret); IndexOf(c, '.') == |text| && c[..|text|] == text && c[|text| + 1..] == secret
  {
    IndexIs(Cookie(text, secret), '.', |text|);
  }

  // The cookie a login sets names it, and no other.
  lemma IssuedCookie(parse: Parser, id: string, secret: string, other: string, otherSecret: string)
    requires ReadsOwn(parse) && UuidText(id)
    ensures Names(parse, Cookie(id, secret), other, otherSecret) <==> id == other && secret == otherSecret
  {
    assert '.' !in id;
    CookieParts(id, secret);
    if text: string :| '.' !in text && parse(text) == Some(other) && Cookie(id, secret) == Cookie(text, otherSecret) {
      CookieParts(text, otherSecret);
    }
  }

  lemma CookieSplits(cookie: string, i: nat)
    requires i < |cookie| && cookie[i] == '.' && forall k :: 0 <= k < i ==> cookie[k] != '.'
    ensures '.' !in cookie[..i] && cookie == Cookie(cookie[..i], cookie[i + 1..])
  {
    assert "." + cookie[i + 1..] == cookie[i..];
  }

  lemma NamedCookie(parse: Parser, cookie: string, id: string, secret: string)
    ensures var i := IndexOf(cookie, '.');
            Names(parse, cookie, id, secret)
            <==> i < |cookie| && parse(cookie[..i]) == Some(id) && cookie[i + 1..] == secret
  {
    var i := IndexOf(cookie, '.');
    if Names(parse, cookie, id, secret) {
      var text: string :| '.' !in text && parse(text) == Some(id) && cookie == Cookie(text, secret);
      CookieParts(text, secret);
    }
    if i < |cookie| && parse(cookie[..i]) == Some(id) && cookie[i + 1..] == secret {
      CookieSplits(cookie, i);
      assert Names(parse, cookie, id, secret);
    }
  }

  lemma AuthenticatedCookie(parse: Parser, s: Auth, cookie: string)
    requires DeskInv(s.desk) && Authenticate(parse, s.desk, s.clock, cookie).Some?
    ensures var p := Authenticate(parse, s.desk, s.clock, cookie).value;
            CookieOf(parse, s, p.sessionId, cookie) && p.sub == s.desk.logins[p.sessionId].sub
  {
    var i := IndexOf(cookie, '.');
    NamedCookie(parse, cookie, parse(cookie[..i]).value, cookie[i + 1..]);
  }

  lemma CookieAuthenticates(parse: Parser, s: Auth, id: string, cookie: string)
    requires DeskInv(s.desk) && CookieOf(parse, s, id, cookie)
    ensures Authenticate(parse, s.desk, s.clock, cookie).Some?
  {
    NamedCookie(parse, cookie, id, s.desk.logins[id].secret);
  }

  // A cookie authenticates exactly when it is an issued (id, secret) pair still in force, and
  // then as the user it was issued to.
  lemma CookieSound(parse: Parser, adminEmails: seq<string>, es: seq<Event>, cookie: string)
    ensures var s := Run(parse, adminEmails, es);
            var p := Authenticate(parse, s.desk, s.clock, cookie);
            && (p.Some? <==> exists id :: CookieOf(parse, s, id, cookie))
            && (p.Some? ==> CookieOf(parse, s, p.value.sessionId, cookie)
                            && p.value.sub == s.desk.logins[p.value.sessionId].sub)
  {
    RunSound(parse, adminEmails, es);
    var s := Run(parse, adminEmails, es);
    if Authenticate(parse, s.desk, s.clock, cookie).Some? {
      AuthenticatedCookie(parse, s, cookie);
    }
    forall id | CookieOf(parse, s, id, cookie) ensures Authenticate(parse, s.desk, s.clock, cookie).Some? {
      CookieAuthenticates(parse, s, id, cookie);
    }
  }

  ghost predicate TokenOf(m: Mint, id: string, text: string) {
    id in m.minted && Trim(text) == m.minted[id].plain && id !in m.revoked
  }

  lemma LiveToken(m: Mint, id: string, text: string)
    requires MintInv(m) && TokenOf(m, id, text)
    ensures PatPrefixFromToken(Trim(text)) == Some(m.tokens[id].prefix)
    ensures LiveRows(m, m.tokens[id].prefix) == {id} && CheckSecret(Trim(text), m.tokens[id].hash)
  {
    assert RowInv(m, id);
    WellMadeReads(m.minted[id].plain, m.tokens[id].prefix);
    assert id in LiveRows(m, m.tokens[id].prefix);
  }

  lemma ActiveToken(adminEmails: seq<string>, m: Mint, text: string, a: Answer)
    requires MintInv(m) && Introspects(adminEmails, m, text, a) && a.Active?
    ensures exists id :: TokenOf(m, id, text)
  {
    var id :| id in LiveRows(m, PatPrefixFromToken(Trim(text)).value) && CheckSecret(Trim(text), m.tokens[id].hash);
    assert RowInv(m, id);
    assert TokenOf(m, id, text);
  }

  lemma TokenAnswered(adminEmails: seq<string>, m: Mint, id: string, text: string, a: Answer)
    requires MintInv(m) && TokenOf(m, id, text) && Introspects(adminEmails, m, text, a)
    ensures a.Active? && a.sub == m.minted[id].sub
  {
    LiveToken(m, id, text);
    assert RowInv(m, id);
    assert id in LiveRows(m, m.tokens[id].prefix);
    var x :| x in LiveRows(m, m.tokens[id].prefix) && a == if CheckSecret(Trim(text), m.tokens[x].hash)
      then Active(m.tokens[x].sub, m.tokens[x].email,
                  EffectiveFor(adminEmails, m.tokens[x].email, m.tokens[x].permissions))
      else Inactive;
    assert x == id;
  }

  // Some issued and unrevoked token has this text.
  ghost predicate Honoured(m: Mint, text: string) {
    exists id :: TokenOf(m, id, text)
  }

  lemma TokenExact(adminEmails: seq<string>, m: Mint, text: string, a: Answer)
    requires MintInv(m) && Introspects(adminEmails, m, text, a)
    ensures a.Active? <==> Honoured(m, text)
    ensures forall id :: TokenOf(m, id, text) ==> a.Active? && a.sub == m.minted[id].sub
  {
    if a.Active? {
      ActiveToken(adminEmails, m, text, a);
      var id :| TokenOf(m, id, text);
    }
    forall id | TokenOf(m, id, text) ensures a.Active? && a.sub == m.minted[id].sub {
      TokenAnswered(adminEmails, m, id, text, a);
    }
  }

  // A token is active exactly when its trimmed text was issued and not revoked, and the answer
  // names the user it was issued to.
  lemma TokenSound(parse: Parser, adminEmails: seq<string>, es: seq<Event>, text: string, a: Answer)
    ensures var m := Run(parse, adminEmails, es).mint;
            Introspects(adminEmails, m, text, a) ==>
              && (a.Active? <==> Honoured(m, text))
              && (forall id :: TokenOf(m, id, text) ==> a.Active? && a.sub == m.minted[id].sub)
  {
    RunSound(parse, adminEmails, es);
    var m := Run(parse, adminEmails, es).mint;
    if Introspects(adminEmails, m, text, a) {
      TokenExact(adminEmails, m, text, a);
    }
  }
}
