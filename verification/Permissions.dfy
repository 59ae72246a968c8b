/** Which permissions a principal effectively holds: the filter loop, its declarative
    specification and its algebra. */
module Permissions {
  import opened Lists
  import opened Text

  const BANK_DEMO := "bank:demo"

  predicate Privileged(p: string) {
    p == "admin" || p == "bank:write"
  }

  predicate Noise(p: string) {
    || p == "offline_access"
    || p == "uma_authorization"
    || p == "manage-account"
    || p == "manage-account-links"
    || p == "view-profile"
  }

  // May the trimmed claim p be kept? allowPriv says that the principal's e-mail is allowlisted.
  predicate Permitted(allowPriv: bool, p: string) {
    p != "" && !HasPrefix(p, "default-roles-") && !Noise(p) && (Privileged(p) ==> allowPriv)
  }

  predicate AdminEmail(adminEmails: seq<string>, email: string) {
    Normalize(email) != "" && exists i :: 0 <= i < |adminEmails| && Normalize(adminEmails[i]) == Normalize(email)
  }

  method IsAdminEmail(adminEmails: seq<string>, email: string) returns (listed: bool)
    ensures listed == AdminEmail(adminEmails, email)
    ensures listed <==> && Normalize(email) != ""
                        && exists i :: 0 <= i < |adminEmails| && Normalize(adminEmails[i]) == Normalize(email)
  {
    var wanted := Normalize(email);
    if wanted == "" {
      return false;
    }
    for i := 0 to |adminEmails|
      invariant forall k :: 0 <= k < i ==> Normalize(adminEmails[k]) != wanted
    {
      if wanted == Normalize(adminEmails[i]) {
        return true;
      }
    }
    return false;
  }

  function TrimAll(perms: seq<string>): seq<string> {
    seq(|perms|, i requires 0 <= i < |perms| => Trim(perms[i]))
  }

  // The permitted claims, trimmed, in order, repetitions included.
  function Kept(allowPriv: bool, claims: seq<string>): seq<string> {
    Filter(p => Permitted(allowPriv, p), claims)
  }

  function WithDemo(s: seq<string>): seq<string> {
    if BANK_DEMO in s then s else s + [BANK_DEMO]
  }

  function Effective(allowPriv: bool, perms: seq<string>): seq<string> {
    WithDemo(Firsts(Kept(allowPriv, TrimAll(perms))))
  }

  // effectivePermissions for the configured allowlist.
  function EffectiveFor(adminEmails: seq<string>, email: string, perms: seq<string>): seq<string> {
    Effective(AdminEmail(adminEmails, email), perms)
  }

  method EffectivePermissions(adminEmails: seq<string>, email: string, perms: seq<string>) returns (out: seq<string>)
    ensures out == EffectiveFor(adminEmails, email, perms)
  {
    var allowPriv := IsAdminEmail(adminEmails, email);
    out := [];
    var seen: set<string> := {};
    ghost var claims := TrimAll(perms);
    for i := 0 to |perms|
      invariant out == Firsts(Kept(allowPriv, claims[..i]))
      invariant forall x :: x in seen <==> x in out
    {
      var p := Trim(perms[i]);
      KeptFirstsStep(allowPriv, claims, i);
      if p == "" || HasPrefix(p, "default-roles-") {
        continue;
      }
      if Noise(p) {
        continue;
      }
      if Privileged(p) && !allowPriv {
        continue;
      }
      if p in seen {
        continue;
      }
      seen := seen + {p};
      out := out + [p];
    }
    assert claims[..|perms|] == claims;
    if BANK_DEMO !in seen {
      out := out + [BANK_DEMO];
    }
  }

  lemma KeptFirstsStep(a: bool, claims: seq<string>, i: nat)
    requires i < |claims|
    ensures var p, before := claims[i], Firsts(Kept(a, claims[..i]));
            Firsts(Kept(a, claims[..i + 1])) == if Permitted(a, p) && p !in before then before + [p] else before
  {
    assert claims[..i + 1] == claims[..i] + [claims[i]];
    FilterAppend(p => Permitted(a, p), claims[..i], claims[i]);
    FirstsAppend(Kept(a, claims[..i]), claims[i]);
  }

  method HasPermission(perms: seq<string>, want: string) returns (ok: bool)
    ensures ok <==> want in perms || "admin" in perms
  {
    for i := 0 to |perms|
      invariant forall k :: 0 <= k < i ==> perms[k] != want && perms[k] != "admin"
    {
      if perms[i] == want || perms[i] == "admin" {
        return true;
      }
    }
    return false;
  }

  predicate BankPermission(perms: seq<string>) {
    "bank:write" in perms || BANK_DEMO in perms || "admin" in perms
  }

  method HasBankPermission(perms: seq<string>) returns (ok: bool)
    ensures ok <==> "bank:write" in perms || "bank:demo" in perms || "admin" in perms
  {
    for i := 0 to |perms|
      invariant !BankPermission(perms[..i])
    {
      if perms[i] == "bank:write" || perms[i] == BANK_DEMO || perms[i] == "admin" {
        return true;
      }
    }
    assert perms[..|perms|] == perms;
    return false;
  }

  // ---- The declarative specification

  // What the answer must be: exactly the permitted claims and bank:demo, in the order of
  // their first claim (an unclaimed bank:demo last).
  ghost predicate IsEffective(allowPriv: bool, perms: seq<string>, out: seq<string>) {
    && (forall x :: x in out <==> x == BANK_DEMO || (x in TrimAll(perms) && Permitted(allowPriv, x)))
    && InOrderOf(TrimAll(perms), out)
  }

  // The loop's answer meets the specification ...
  lemma EffectiveMeetsSpec(a: bool, perms: seq<string>)
    ensures IsEffective(a, perms, Effective(a, perms))
    ensures Distinct(Effective(a, perms))
  {
    var claims := TrimAll(perms);
    var keep := (p: string) => Permitted(a, p);
    var f := Firsts(Filter(keep, claims));
    FilterMembers(keep, claims);
    FirstsMembers(Filter(keep, claims));
    FirstsInOrder(keep, claims);
    DemoPermitted(a);
    forall x ensures x in f <==> x in claims && Permitted(a, x) {
    }
    if BANK_DEMO !in f {
      forall i | 0 <= i < |f| ensures FirstPlace(claims, f[i]) < FirstPlace(claims, BANK_DEMO) {
        FirstsMember(Filter(keep, claims), i);
        assert f[i] in claims;
      }
    }
  }

  lemma DemoPermitted(a: bool)
    ensures Permitted(a, BANK_DEMO)
  {
    assert BANK_DEMO[0] == 'b' && "default-roles-"[0] == 'd';
    assert BANK_DEMO[1] == 'a' && BANK_DEMO[5] == 'd' && "bank:write"[5] == 'w';
  }

  // ... and nothing else does: the specification fixes the answer, order included.
  lemma SpecIsUnique(a: bool, perms: seq<string>, out: seq<string>)
    requires IsEffective(a, perms, out)
    ensures out == Effective(a, perms)
  {
    EffectiveMeetsSpec(a, perms);
    SameOrderSameList(TrimAll(perms), out, Effective(a, perms));
  }

  // ---- Algebra: filtering twice is filtering once under both e-mails

  lemma EffectiveTrimmed(a: bool, perms: seq<string>)
    ensures TrimAll(Effective(a, perms)) == Effective(a, perms)
  {
    var out := Effective(a, perms);
    EffectiveMeetsSpec(a, perms);
    forall i | 0 <= i < |out| ensures Trim(out[i]) == out[i] {
      assert out[i] in out;
      if out[i] != BANK_DEMO {
        var k :| 0 <= k < |perms| && TrimAll(perms)[k] == out[i];
        TrimIdempotent(perms[k]);
      } else {
        TrimFixed(BANK_DEMO);
      }
    }
  }

  lemma EffectiveTwice(a: bool, b: bool, perms: seq<string>)
    ensures Effective(a, Effective(b, perms)) == Effective(a && b, perms)
  {
    var claims := TrimAll(perms);
    var keepA, keepB := (p: string) => Permitted(a, p), (p: string) => Permitted(b, p);
    var keepAB := (p: string) => Permitted(a && b, p);
    var f, g := Firsts(Filter(keepB, claims)), Firsts(Filter(keepAB, claims));
    assert Filter(keepA, f) == g by {
      FilterFirsts(keepA, Filter(keepB, claims));
      FilterFilter(keepA, keepB, keepAB, claims);
    }
    FirstsMembers(Filter(keepAB, claims));
    FirstsOfDistinct(g);
    EffectiveTrimmed(b, perms);
    assert BANK_DEMO in f <==> BANK_DEMO in g by {
      DemoPermitted(b);
      DemoPermitted(a && b);
      FilterMembers(keepB, claims);
      FilterMembers(keepAB, claims);
      FirstsMembers(Filter(keepB, claims));
    }
    if BANK_DEMO !in f {
      DemoPermitted(a);
      FilterAppend(keepA, f, BANK_DEMO);
      FirstsAppend(g, BANK_DEMO);
    }
  }

  // Applied under two e-mails the filter commutes, list order included; under one it is
  // idempotent; and its answer always opens the bank routes.
  lemma EffectiveLaws(adminEmails: seq<string>, e1: string, e2: string, perms: seq<string>)
    ensures EffectiveFor(adminEmails, e1, EffectiveFor(adminEmails, e2, perms))
            == EffectiveFor(adminEmails, e2, EffectiveFor(adminEmails, e1, perms))
    ensures EffectiveFor(adminEmails, e1, EffectiveFor(adminEmails, e1, perms)) == EffectiveFor(adminEmails, e1, perms)
    ensures BankPermission(EffectiveFor(adminEmails, e1, perms))
  {
    var a, b := AdminEmail(adminEmails, e1), AdminEmail(adminEmails, e2);
    EffectiveTwice(a, b, perms);
    EffectiveTwice(b, a, perms);
    EffectiveTwice(a, a, perms);
    assert (a && b) == (b && a);
    EffectiveMeetsSpec(a, perms);
  }

  lemma PermittedMeans(allowPriv: bool, x: string)
    ensures Permitted(allowPriv, x) <==>
              && x != "" && !("default-roles-" <= x)
              && x !in ["offline_access", "uma_authorization", "manage-account", "manage-account-links", "view-profile"]
              && (x == "admin" || x == "bank:write" ==> allowPriv)
  {
  }

  lemma InTrimAll(perms: seq<string>, x: string)
    ensures x in TrimAll(perms) <==> exists i :: 0 <= i < |perms| && Trim(perms[i]) == x
  {
    if i :| 0 <= i < |perms| && Trim(perms[i]) == x {
      assert TrimAll(perms)[i] == x;
    }
  }

  // What the answer holds, written out: bank:demo, and every trimmed claim that is not empty, no default
  // role, none of Keycloak's own five, and, when it is admin or bank:write, only for an allowlisted e-mail.
  lemma EffectiveHolds(adminEmails: seq<string>, email: string, perms: seq<string>, x: string)
    ensures x in EffectiveFor(adminEmails, email, perms) <==>
              || x == "bank:demo"
              || (&& (exists i :: 0 <= i < |perms| && Trim(perms[i]) == x)
                  && x != "" && !("default-roles-" <= x)
                  && x !in ["offline_access", "uma_authorization", "manage-account", "manage-account-links",
                            "view-profile"]
                  && (x == "admin" || x == "bank:write" ==>
                        && Normalize(email) != ""
                        && exists i :: 0 <= i < |adminEmails| && Normalize(adminEmails[i]) == Normalize(email)))
  {
    EffectiveMeetsSpec(AdminEmail(adminEmails, email), perms);
    PermittedMeans(AdminEmail(adminEmails, email), x);
    InTrimAll(perms, x);
  }

  // Privileges survive the filter exactly when claimed and allowlisted.
  lemma PrivilegeNeedsAllowlist(a: bool, perms: seq<string>, p: string)
    requires p == "admin" || p == "bank:write"
    ensures p in Effective(a, perms) <==> a && p in TrimAll(perms)
  {
    EffectiveMeetsSpec(a, perms);
    assert "admin"[0] == 'a' && "bank:write"[0] == 'b' && "bank:write"[5] == 'w' && BANK_DEMO[5] == 'd'
           && BANK_DEMO[0] == 'b';
    assert "offline_access"[0] == 'o' && "uma_authorization"[0] == 'u' && "view-profile"[0] == 'v'
           && "default-roles-"[0] == 'd'
           && "manage-account"[0] == 'm' && "manage-account-links"[0] == 'm';
    assert Permitted(a, p) <==> a;
  }
}
