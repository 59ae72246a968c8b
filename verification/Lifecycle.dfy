/** Sessions and tokens from the statement that makes them to the one that ends them, from any point of
    any run: what becomes valid, for how long, and what can never be valid again. */
module Lifecycle {
  import opened Credentials
  import opened Permissions
  import opened Security
  import opened Text
  import opened Wrappers

  // es, then more events.
  lemma {:induction false} RunOn(parse: Parser, adminEmails: seq<string>, es: seq<Event>, e: Event)
    ensures Run(parse, adminEmails, es + [e]) == Next(parse, adminEmails, Run(parse, adminEmails, es), e)
  {
    assert (es + [e])[..|es|] == es;
  }

  // A login opens a session: until its lifetime is over its cookie authenticates as its user, with what
  // its claims yield, and a handler that reads it holds that principal.
  lemma LoginOpens(parse: Parser, adminEmails: seq<string>, es: seq<Event>, delay: nat, id: string, secret: string,
                   sub: string, email: string, claims: seq<string>, ttl: int, wait: nat)
    requires ReadsOwn(parse) && UuidText(id) && id !in Run(parse, adminEmails, es).desk.logins
    ensures var s := Run(parse, adminEmails, es);
            var s1 := Next(parse, adminEmails, s, LogIn(delay, id, secret, sub, email, claims, ttl));
            var p := Principal(id, sub, email, EffectiveFor(adminEmails, email, claims));
            && Authenticate(parse, s1.desk, s1.clock + wait, Cookie(id, secret))
               == (if wait < ttl then Some(p) else None)
            && (wait < ttl ==> p in Next(parse, adminEmails, s1, Present(wait, Cookie(id, secret))).desk.held)
            && s1.desk.sessions - {id} == s.desk.sessions - {id} && s1.mint == s.mint
  {
    CookieParts(id, secret);
  }

  // Changing the e-mail of a session in force changes just that: user, permissions, secret and expiry
  // stay, and so does every other session.
  lemma EmailChangeMoves(parse: Parser, adminEmails: seq<string>, es: seq<Event>, delay: nat, p: Principal,
                         email: string)
    requires p in Run(parse, adminEmails, es).desk.held
    ensures var s := Run(parse, adminEmails, es);
            var rows, rows1 := s.desk.sessions, Next(parse, adminEmails, s, ChangeEmail(delay, p, email)).desk.sessions;
            if Normalize(email) != "" && p.sessionId in rows && s.clock + delay < rows[p.sessionId].expiresAt then
              && rows1 - {p.sessionId} == rows - {p.sessionId} && p.sessionId in rows1
              && rows1[p.sessionId].email == Normalize(email)
              && rows1[p.sessionId].sub == rows[p.sessionId].sub
              && rows1[p.sessionId].permissions == rows[p.sessionId].permissions
              && rows1[p.sessionId].hash == rows[p.sessionId].hash
              && rows1[p.sessionId].expiresAt == rows[p.sessionId].expiresAt
            else rows1 == rows
  {
  }

  lemma {:induction false} LoggedOutStays(parse: Parser, adminEmails: seq<string>, es: seq<Event>, later: seq<Event>,
                                          id: string)
    requires id in Run(parse, adminEmails, es).desk.loggedOut
    ensures id in Run(parse, adminEmails, es + later).desk.loggedOut
  {
    if later == [] {
      assert es + later == es;
    } else {
      var front, e := later[..|later| - 1], later[|later| - 1];
      assert es + later == (es + front) + [e];
      LoggedOutStays(parse, adminEmails, es, front, id);
      RunOn(parse, adminEmails, es + front, e);
    }
  }

  // Once a logout took effect no cookie that names the session authenticates, whatever happens later.
  lemma LogoutIsFinal(parse: Parser, adminEmails: seq<string>, es: seq<Event>, delay: nat, p: Principal,
                      later: seq<Event>, cookie: string, secret: string)
    requires p in Run(parse, adminEmails, es).desk.held && Names(parse, cookie, p.sessionId, secret)
    ensures var s := Run(parse, adminEmails, es + [LogOut(delay, p, true)] + later);
            Authenticate(parse, s.desk, s.clock, cookie).None? && p.sessionId !in s.desk.sessions
  {
    var e := LogOut(delay, p, true);
    RunOn(parse, adminEmails, es, e);
    LoggedOutStays(parse, adminEmails, es + [e], later, p.sessionId);
    RunSound(parse, adminEmails, es + [e] + later);
    NamedCookie(parse, cookie, p.sessionId, secret);
  }

  lemma PatText(prefix: string, secret: string)
    ensures MakePat(prefix, secret) == "kalke_" + prefix + "_" + secret
  {
    assert "kalke_" + (prefix + ("_" + secret)) == "kalke_" + prefix + "_" + secret;
  }

  // The id and prefix are no token's yet.
  ghost predicate Free(m: Mint, id: string, prefix: string) {
    id !in m.tokens && forall other :: other in m.tokens ==> m.tokens[other].prefix != prefix
  }

  lemma FreeInserts(m: Mint, p: Principal, id: string, prefix: string, plain: string, permissions: seq<string>)
    requires Free(m, id, prefix)
    ensures var m1 := TokenCreated(m, p, id, prefix, plain, permissions);
            && LiveRows(m1, prefix) == {id} && m1.tokens - {id} == m.tokens
            && m1.tokens[id] == Token(p.sub, p.email, prefix, HashOf(plain), permissions, false)
            && m1.minted == m.minted[id := Minted(plain, p.sub)]
  {
  }

  lemma NextCreates(parse: Parser, adminEmails: seq<string>, s: Auth, delay: nat, p: Principal, id: string,
                    prefix: string, secret: string)
    requires p in s.desk.held && HexPrefix(prefix) && Base64Url(secret)
    ensures Next(parse, adminEmails, s, CreateToken(delay, p, id, prefix, secret)).mint
            == TokenCreated(s.mint, p, id, prefix, MakePat(prefix, secret),
                            EffectiveFor(adminEmails, p.email, p.permissions))
  {
  }

  // A token made under a free id and prefix introspects, by its text, as its maker, with what the
  // maker's own permissions yield.
  lemma TokenOpens(parse: Parser, adminEmails: seq<string>, es: seq<Event>, delay: nat, p: Principal, id: string,
                   prefix: string, secret: string, text: string, a: Answer)
    requires p in Run(parse, adminEmails, es).desk.held && HexPrefix(prefix) && Base64Url(secret)
    requires Free(Run(parse, adminEmails, es).mint, id, prefix) && Trim(text) == "kalke_" + prefix + "_" + secret
    ensures var s1 := Next(parse, adminEmails, Run(parse, adminEmails, es), CreateToken(delay, p, id, prefix, secret));
            Introspects(adminEmails, s1.mint, text, a) ==>
              a == Active(p.sub, p.email, EffectiveFor(adminEmails, p.email, p.permissions))
  {
    var s := Run(parse, adminEmails, es);
    var permissions := EffectiveFor(adminEmails, p.email, p.permissions);
    NextCreates(parse, adminEmails, s, delay, p, id, prefix, secret);
    FreeInserts(s.mint, p, id, prefix, MakePat(prefix, secret), permissions);
    PatText(prefix, secret);
    PatRoundTrip(prefix, secret);
    EffectiveLaws(adminEmails, p.email, p.email, p.permissions);
    var m := TokenCreated(s.mint, p, id, prefix, MakePat(prefix, secret), permissions);
    if Introspects(adminEmails, m, text, a) {
      IntrospectsOne(adminEmails, m, text, a, prefix, id);
    }
  }

  lemma IntrospectsOne(adminEmails: seq<string>, m: Mint, text: string, a: Answer, prefix: string, id: string)
    requires Introspects(adminEmails, m, text, a) && PatPrefixFromToken(Trim(text)) == Some(prefix)
    requires LiveRows(m, prefix) == {id} && CheckSecret(Trim(text), m.tokens[id].hash)
    ensures var t := m.tokens[id]; a == Active(t.sub, t.email, EffectiveFor(adminEmails, t.email, t.permissions))
  {
  }

  lemma {:induction false} RevokedStays(parse: Parser, adminEmails: seq<string>, es: seq<Event>, later: seq<Event>,
                                        id: string)
    requires id in Run(parse, adminEmails, es).mint.revoked && id in Run(parse, adminEmails, es).mint.minted
    ensures var m, m1 := Run(parse, adminEmails, es).mint, Run(parse, adminEmails, es + later).mint;
            id in m1.revoked && id in m1.minted && m1.minted[id] == m.minted[id]
  {
    if later == [] {
      assert es + later == es;
    } else {
      var front, e := later[..|later| - 1], later[|later| - 1];
      assert es + later == (es + front) + [e];
      RevokedStays(parse, adminEmails, es, front, id);
      RunOn(parse, adminEmails, es + front, e);
      RunSound(parse, adminEmails, es + front);
    }
  }

  // Once its owner revoked it, a token's text never introspects as active again.
  lemma RevokeIsFinal(parse: Parser, adminEmails: seq<string>, es: seq<Event>, delay: nat, p: Principal, id: string,
                      later: seq<Event>, text: string, a: Answer)
    requires var s := Run(parse, adminEmails, es);
             && p in s.desk.held && id in s.mint.minted && s.mint.minted[id].sub == p.sub
             && Trim(text) == s.mint.minted[id].plain
    ensures Introspects(adminEmails, Run(parse, adminEmails, es + [Revoke(delay, p, id)] + later).mint, text, a) ==>
              a == Inactive
  {
    var e := Revoke(delay, p, id);
    RunSound(parse, adminEmails, es);
    var s := Run(parse, adminEmails, es);
    assert RowInv(s.mint, id);
    RunOn(parse, adminEmails, es, e);
    assert id in Run(parse, adminEmails, es + [e]).mint.revoked;
    RevokedStays(parse, adminEmails, es + [e], later, id);
    var m := Run(parse, adminEmails, es + [e] + later).mint;
    RunSound(parse, adminEmails, es + [e] + later);
    if Introspects(adminEmails, m, text, a) {
      TokenExact(adminEmails, m, text, a);
      if a.Active? {
        var other :| TokenOf(m, other, text);
        SamePlain(m, id, other);
      }
    }
  }

  // No two tokens have the same text.
  lemma SamePlain(m: Mint, a: string, b: string)
    requires MintInv(m) && a in m.minted && b in m.minted && m.minted[a].plain == m.minted[b].plain
    ensures a == b
  {
    assert RowInv(m, a) && RowInv(m, b);
    WellMadeReads(m.minted[a].plain, m.tokens[a].prefix);
    WellMadeReads(m.minted[b].plain, m.tokens[b].prefix);
  }
}
