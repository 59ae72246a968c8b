/** One flat Redis keyspace shared by every store and every rate limiter, as many separate maps. */
module Keyspace {
  import opened Text
  import opened Wrappers

  datatype Family =
    // records
    | LoginCode | ResetCode | EmailCode | TransferCode | PasswordCode | SignupPending | OAuthState
    // rate counters, by client address
    | RateLogin | RateLoginEmail | RateLoginEmailVerify | RateLoginEmailResend
    | RatePassword | RatePasswordVerify | RatePasswordResend
    | RateForgot | RateForgotVerify | RateForgotResend
    | RateSignup | RateSignupHour | RateSignupVerify | RateSignupResend
    | RateProfile | RateEmailChange | RateEmailChangeVerify | RateEmailChangeResend
    | RateOAuthStart | RateOAuthCallback
    // rate counters, by user sub
    | RateTransferChallenge | RateTransferResend | RateTransferConfirm

  // The key's text up to its first colon.
  function Segment(f: Family): string {
    match f
    case LoginCode => "login"
    case ResetCode => "reset"
    case EmailCode => "email"
    case TransferCode => "xfer"
    case PasswordCode => "pwd"
    case SignupPending => "signup"
    case OAuthState => "oauth"
    case RateLogin => "login"
    case RateLoginEmail => "login-email"
    case RateLoginEmailVerify => "login-email-verify"
    case RateLoginEmailResend => "login-email-resend"
    case RatePassword => "password"
    case RatePasswordVerify => "password-verify"
    case RatePasswordResend => "password-resend"
    case RateForgot => "forgot"
    case RateForgotVerify => "forgot-verify"
    case RateForgotResend => "forgot-resend"
    case RateSignup => "signup"
    case RateSignupHour => "signup-hour"
    case RateSignupVerify => "signup-verify"
    case RateSignupResend => "signup-resend"
    case RateProfile => "profile"
    case RateEmailChange => "email-change"
    case RateEmailChangeVerify => "email-change-verify"
    case RateEmailChangeResend => "email-change-resend"
    case RateOAuthStart => "oauth-start"
    case RateOAuthCallback => "oauth-callback"
    case RateTransferChallenge => "xfer-challenge"
    case RateTransferResend => "xfer-resend"
    case RateTransferConfirm => "xfer-confirm"
  }

  // The rest of the fixed part.
  function Infix(f: Family): string {
    match f
    case LoginCode => "otp:"
    case ResetCode => "otp:"
    case EmailCode => "otp:"
    case TransferCode => "otp:"
    case PasswordCode => "otp:"
    case SignupPending => "pending:"
    case OAuthState => "state:"
    case _ => ""
  }

  function Prefix(f: Family): string {
    Segment(f) + ":" + Infix(f)
  }

  // How a family names its entries.
  function Name(f: Family, id: string): string {
    match f
    case LoginCode => Normalize(id)
    case ResetCode => Normalize(id)
    case EmailCode => Normalize(id)
    case SignupPending => Normalize(id)
    case TransferCode => Trim(id)
    case PasswordCode => Trim(id)
    case _ => id
  }

  function Key(f: Family, id: string): string {
    Prefix(f) + Name(f, id)
  }

  // otp.NewStore's clean-up of its prefix argument.
  function StorePrefix(arg: string): string {
    var p := Trim(arg);
    var q := if p == "" then "otp:" else p;
    if q[|q| - 1] == ':' then q else q + ":"
  }

  lemma StorePrefixFixed(p: string)
    requires p != "" && !IsSpace(p[0]) && p[|p| - 1] == ':'
    ensures StorePrefix(p) == p
  {
    TrimFixed(p);
  }

  lemma StorePrefixes()
    ensures StorePrefix("login:otp:") == Prefix(LoginCode)
    ensures StorePrefix("reset:otp:") == Prefix(ResetCode)
    ensures StorePrefix("email:otp:") == Prefix(EmailCode)
  {
    StorePrefixFixed("login:otp:");
    StorePrefixFixed("reset:otp:");
    StorePrefixFixed("email:otp:");
  }

  // Text form of an IP address begins with a hexadecimal digit or a colon.
  predicate IpLiteral(s: string) {
    s != "" && (s[0] == ':' || '0' <= s[0] <= '9' || 'a' <= s[0] <= 'f' || 'A' <= s[0] <= 'F')
  }

  // Only two families need anything of their names: their prefixes begin a record family's.
  predicate Nameable(f: Family, name: string) {
    f == RateLogin || f == RateSignup ==> IpLiteral(name)
  }

  // ---- The keys, written out

  lemma KeyParts(f: Family, id: string, prefix: string)
    requires Segment(f) + (":" + Infix(f)) == prefix
    ensures Key(f, id) == prefix + Name(f, id)
  {
    assert Segment(f) + ":" + Infix(f) == Segment(f) + (":" + Infix(f));
  }

  lemma StoreKeys(id: string)
    ensures Key(LoginCode, id) == "login:otp:" + Normalize(id)
    ensures Key(ResetCode, id) == "reset:otp:" + Normalize(id)
    ensures Key(EmailCode, id) == "email:otp:" + Normalize(id)
  {
    KeyParts(LoginCode, id, "login:otp:");
    KeyParts(ResetCode, id, "reset:otp:");
    KeyParts(EmailCode, id, "email:otp:");
  }

  lemma UserKeys(sub: string)
    ensures Key(TransferCode, sub) == "xfer:otp:" + Trim(sub)
    ensures Key(PasswordCode, sub) == "pwd:otp:" + Trim(sub)
  {
    KeyParts(TransferCode, sub, "xfer:otp:");
    KeyParts(PasswordCode, sub, "pwd:otp:");
  }

  lemma PendingKeys(email: string, state: string)
    ensures Key(SignupPending, email) == "signup:pending:" + Normalize(email)
    ensures Key(OAuthState, state) == "oauth:state:" + state
  {
    KeyParts(SignupPending, email, "signup:pending:");
    KeyParts(OAuthState, state, "oauth:state:");
  }

  lemma RateKeys(f: Family, id: string)
    requires f !in {LoginCode, ResetCode, EmailCode, TransferCode, PasswordCode, SignupPending, OAuthState}
    ensures Key(f, id) == Segment(f) + ":" + id
  {
    KeyParts(f, id, Segment(f) + ":");
  }

  // The text of an IP address can name a counter.
  lemma AddressesNameable(f: Family, ip: string)
    requires ip != "" && (ip[0] in "0123456789abcdefABCDEF" || ip[0] == ':')
    ensures Nameable(f, ip)
  {
  }

  // ---- No key belongs to two families

  function UntilColon(s: string): string {
    if s == "" || s[0] == ':' then "" else [s[0]] + UntilColon(s[1..])
  }

  lemma {:induction false} UntilColonOf(seg: string, rest: string)
    requires ':' !in seg
    ensures UntilColon(seg + (":" + rest)) == seg
  {
    var s := seg + (":" + rest);
    if seg == "" {
      assert s[0] == ':';
    } else {
      assert s[0] == seg[0] != ':';
      assert s[1..] == seg[1..] + (":" + rest);
      UntilColonOf(seg[1..], rest);
    }
  }

  // Length, first and last letter tell the segments apart.
  function Mark(f: Family): (int, char, char) {
    match f
    case LoginCode => (5, 'l', 'n')
    case ResetCode => (5, 'r', 't')
    case EmailCode => (5, 'e', 'l')
    case TransferCode => (4, 'x', 'r')
    case PasswordCode => (3, 'p', 'd')
    case SignupPending => (6, 's', 'p')
    case OAuthState => (5, 'o', 'h')
    case RateLogin => (5, 'l', 'n')
    case RateLoginEmail => (11, 'l', 'l')
    case RateLoginEmailVerify => (18, 'l', 'y')
    case RateLoginEmailResend => (18, 'l', 'd')
    case RatePassword => (8, 'p', 'd')
    case RatePasswordVerify => (15, 'p', 'y')
    case RatePasswordResend => (15, 'p', 'd')
    case RateForgot => (6, 'f', 't')
    case RateForgotVerify => (13, 'f', 'y')
    case RateForgotResend => (13, 'f', 'd')
    case RateSignup => (6, 's', 'p')
    case RateSignupHour => (11, 's', 'r')
    case RateSignupVerify => (13, 's', 'y')
    case RateSignupResend => (13, 's', 'd')
    case RateProfile => (7, 'p', 'e')
    case RateEmailChange => (12, 'e', 'e')
    case RateEmailChangeVerify => (19, 'e', 'y')
    case RateEmailChangeResend => (19, 'e', 'd')
    case RateOAuthStart => (11, 'o', 't')
    case RateOAuthCallback => (14, 'o', 'k')
    case RateTransferChallenge => (14, 'x', 'e')
    case RateTransferResend => (11, 'x', 'd')
    case RateTransferConfirm => (12, 'x', 'm')
  }

  lemma SegmentMark(f: Family)
    ensures var s := Segment(f); |s| > 0 && Mark(f) == (|s|, s[0], s[|s| - 1])
  {
  }

  predicate RateFamily(f: Family) {
    Infix(f) == ""
  }

  lemma NoColonInRates(f: Family)
    requires RateFamily(f)
    ensures ':' !in Segment(f)
  {
  }

  lemma NoColon(f: Family)
    ensures ':' !in Segment(f)
  {
    if RateFamily(f) {
      NoColonInRates(f);
    }
  }

  // The two pairs of families that share a segment.
  predicate Siblings(f: Family, g: Family) {
    || (f == LoginCode && g == RateLogin) || (f == RateLogin && g == LoginCode)
    || (f == SignupPending && g == RateSignup) || (f == RateSignup && g == SignupPending)
  }

  lemma RecordSegmentsDiffer(f: Family, g: Family)
    requires !RateFamily(f) && f != g && !Siblings(f, g)
    ensures Mark(f) != Mark(g)
  {
  }

  lemma RateSegmentsDiffer(f: Family, g: Family)
    requires RateFamily(f) && RateFamily(g) && f != g
    ensures Mark(f) != Mark(g)
  {
  }

  lemma SegmentsDiffer(f: Family, g: Family)
    requires f != g && !Siblings(f, g)
    ensures Mark(f) != Mark(g)
  {
    if !RateFamily(f) {
      RecordSegmentsDiffer(f, g);
    } else if !RateFamily(g) {
      RecordSegmentsDiffer(g, f);
    } else {
      RateSegmentsDiffer(f, g);
    }
  }

  lemma SegmentOfKey(f: Family, name: string)
    ensures UntilColon(Prefix(f) + name) == Segment(f)
  {
    assert Prefix(f) + name == Segment(f) + (":" + (Infix(f) + name));
    NoColon(f);
    UntilColonOf(Segment(f), Infix(f) + name);
  }

  lemma SiblingsDisjoint(rate: Family, ip: string, record: Family, name: string)
    requires (rate == RateLogin && record == LoginCode) || (rate == RateSignup && record == SignupPending)
    requires IpLiteral(ip)
    ensures Prefix(rate) + ip != Prefix(record) + name
  {
    var n := |Segment(rate)| + 1;
    assert (Prefix(rate) + ip)[n] == ip[0];
    assert (Prefix(record) + name)[n] == Infix(record)[0];
  }

  lemma FamiliesDisjoint(f: Family, a: string, g: Family, b: string)
    requires f != g && Nameable(f, a) && Nameable(g, b)
    ensures Prefix(f) + a != Prefix(g) + b
  {
    if !Siblings(f, g) {
      SegmentOfKey(f, a);
      SegmentOfKey(g, b);
      SegmentMark(f);
      SegmentMark(g);
      SegmentsDiffer(f, g);
    } else if f == RateLogin || f == RateSignup {
      SiblingsDisjoint(f, a, g, b);
    } else {
      SiblingsDisjoint(g, b, f, a);
    }
  }

  lemma NameIdempotent(f: Family, id: string)
    ensures Name(f, Name(f, id)) == Name(f, id)
  {
    NormalizeIdempotent(id);
    TrimIdempotent(id);
  }

  // Within a family, ids share a key exactly when they agree up to white space and case (or up
  // to white space, for user subs); so a record is found by the name it is stored under.
  lemma KeyInjective(f: Family, a: string, b: string)
    ensures Key(f, a) == Key(f, b) <==> Name(f, a) == Name(f, b)
    ensures Key(f, Name(f, a)) == Key(f, a)
  {
    NameIdempotent(f, a);
    assert Key(f, a)[|Prefix(f)|..] == Name(f, a);
    assert Key(f, b)[|Prefix(f)|..] == Name(f, b);
  }

  // Why the addresses must be IP literals: exactly the names that begin like the record
  // family's own infix collide with one of its keys.
  lemma LoginCollision(ip: string)
    ensures Collides(RateLogin, LoginCode, ip) <==> HasPrefix(ip, "otp:") && Normalize(ip[4..]) == ip[4..]
  {
    if Collides(RateLogin, LoginCode, ip) {
      CollidingName(RateLogin, LoginCode, ip);
    } else if HasPrefix(ip, "otp:") && Normalize(ip[4..]) == ip[4..] {
      NameCollides(RateLogin, LoginCode, ip);
    }
  }

  lemma SignupCollision(ip: string)
    ensures Collides(RateSignup, SignupPending, ip) <==> HasPrefix(ip, "pending:") && Normalize(ip[8..]) == ip[8..]
  {
    if Collides(RateSignup, SignupPending, ip) {
      CollidingName(RateSignup, SignupPending, ip);
    } else if HasPrefix(ip, "pending:") && Normalize(ip[8..]) == ip[8..] {
      NameCollides(RateSignup, SignupPending, ip);
    }
  }

  lemma SameTail(segment: string, a: string, infix: string, b: string)
    ensures segment + ":" + "" + a == segment + ":" + infix + b <==> a == infix + b
  {
    var head := segment + ":";
    assert head + "" + a == head + a;
    assert head + infix + b == head + (infix + b);
    assert (head + a)[|head|..] == a && (head + (infix + b))[|head|..] == infix + b;
  }

  lemma CollisionAt(rate: Family, record: Family, ip: string, email: string)
    requires (rate == RateLogin && record == LoginCode) || (rate == RateSignup && record == SignupPending)
    ensures Key(rate, ip) == Key(record, email) <==> ip == Infix(record) + Normalize(email)
  {
    assert Segment(rate) == Segment(record);
    SameTail(Segment(rate), ip, Infix(record), Normalize(email));
    assert Infix(rate) == "";
  }

  ghost predicate Collides(rate: Family, record: Family, ip: string) {
    exists email: string :: Key(rate, ip) == Key(record, email)
  }

  lemma CollidingName(rate: Family, record: Family, ip: string)
    requires (rate == RateLogin && record == LoginCode) || (rate == RateSignup && record == SignupPending)
    requires Collides(rate, record, ip)
    ensures HasPrefix(ip, Infix(record)) && Normalize(ip[|Infix(record)|..]) == ip[|Infix(record)|..]
  {
    var email: string :| Key(rate, ip) == Key(record, email);
    CollisionAt(rate, record, ip, email);
    NormalizeIdempotent(email);
    assert ip[|Infix(record)|..] == Normalize(email);
  }

  lemma NameCollides(rate: Family, record: Family, ip: string)
    requires (rate == RateLogin && record == LoginCode) || (rate == RateSignup && record == SignupPending)
    requires HasPrefix(ip, Infix(record)) && Normalize(ip[|Infix(record)|..]) == ip[|Infix(record)|..]
    ensures Collides(rate, record, ip)
  {
    var name := ip[|Infix(record)|..];
    CollisionAt(rate, record, ip, name);
    assert ip == Infix(record) + name;
  }

  // ---- The flat map as one map a family

  predicate Belongs(f: Family, key: string) {
    HasPrefix(key, Prefix(f)) && Nameable(f, key[|Prefix(f)|..])
  }

  // Family f's own map, by entry name.
  function View<V>(data: map<string, V>, f: Family): map<string, V> {
    var n := |Prefix(f)|;
    map name | name in (set key | key in data && Belongs(f, key) :: key[n..]) && Prefix(f) + name in data ::
        data[Prefix(f) + name]
  }

  lemma ViewAt<V>(data: map<string, V>, f: Family, name: string)
    ensures name in View(data, f) <==> Prefix(f) + name in data && Nameable(f, name)
    ensures name in View(data, f) ==> View(data, f)[name] == data[Prefix(f) + name]
  {
    var key := Prefix(f) + name;
    assert key[|Prefix(f)|..] == name;
    if key in data && Nameable(f, name) {
      assert Belongs(f, key);
    }
    if name in View(data, f) {
      var k :| k in data && Belongs(f, k) && k[|Prefix(f)|..] == name;
      assert k == key;
    }
  }

  lemma OthersUntouched<V>(before: map<string, V>, after: map<string, V>, f: Family, name: string, g: Family)
    requires f != g && Nameable(f, name)
    requires before - {Prefix(f) + name} == after - {Prefix(f) + name}
    ensures View(after, g) == View(before, g)
  {
    var key := Prefix(f) + name;
    forall n ensures n in View(after, g) <==> n in View(before, g)
             ensures n in View(after, g) ==> View(after, g)[n] == View(before, g)[n] {
      ViewAt(before, g, n);
      ViewAt(after, g, n);
      if Nameable(g, n) {
        FamiliesDisjoint(f, name, g, n);
        var k := Prefix(g) + n;
        assert k in before <==> k in before - {key};
        assert k in after <==> k in after - {key};
        assert k in before ==> before[k] == (before - {key})[k];
        assert k in after ==> after[k] == (after - {key})[k];
      }
    }
  }

  lemma SetInView<V>(before: map<string, V>, f: Family, name: string, v: V)
    requires Nameable(f, name)
    ensures View(before[Prefix(f) + name := v], f) == View(before, f)[name := v]
  {
    var after := before[Prefix(f) + name := v];
    forall n
      ensures n in View(after, f) <==> n in View(before, f)[name := v]
      ensures n in View(after, f) ==> View(after, f)[n] == View(before, f)[name := v][n]
    {
      ViewAt(before, f, n);
      ViewAt(after, f, n);
      SameName(f, n, name);
    }
  }

  lemma DelInView<V>(before: map<string, V>, f: Family, name: string)
    requires Nameable(f, name)
    ensures View(before - {Prefix(f) + name}, f) == View(before, f) - {name}
  {
    var after := before - {Prefix(f) + name};
    forall n
      ensures n in View(after, f) <==> n in View(before, f) - {name}
      ensures n in View(after, f) ==> View(after, f)[n] == (View(before, f) - {name})[n]
    {
      ViewAt(before, f, n);
      ViewAt(after, f, n);
      SameName(f, n, name);
    }
  }

  lemma SameName(f: Family, m: string, n: string)
    ensures Prefix(f) + m == Prefix(f) + n <==> m == n
  {
    assert (Prefix(f) + m)[|Prefix(f)|..] == m && (Prefix(f) + n)[|Prefix(f)|..] == n;
  }

  // An operation on one family's entry changes that entry of its map and no other family's map.
  lemma SetEffect<V>(before: map<string, V>, f: Family, name: string, v: V)
    requires Nameable(f, name)
    ensures var after := before[Prefix(f) + name := v];
            View(after, f) == View(before, f)[name := v] && forall g :: g != f ==> View(after, g) == View(before, g)
  {
    var after := before[Prefix(f) + name := v];
    SetInView(before, f, name, v);
    forall g: Family | g != f ensures View(after, g) == View(before, g) {
      assert before - {Prefix(f) + name} == after - {Prefix(f) + name};
      OthersUntouched(before, after, f, name, g);
    }
  }

  lemma DelEffect<V>(before: map<string, V>, f: Family, name: string)
    requires Nameable(f, name)
    ensures var after := before - {Prefix(f) + name};
            View(after, f) == View(before, f) - {name} && forall g :: g != f ==> View(after, g) == View(before, g)
  {
    var after := before - {Prefix(f) + name};
    DelInView(before, f, name);
    forall g: Family | g != f ensures View(after, g) == View(before, g) {
      assert before - {Prefix(f) + name} == after - {Prefix(f) + name};
      OthersUntouched(before, after, f, name, g);
    }
  }

  // What a key holds, and when Redis drops it, if ever.
  datatype Slot<+V> = Slot(value: V, deadline: Option<int>)

  predicate InForce<V>(slot: Slot<V>, now: int) {
    slot.deadline.None? || now < slot.deadline.value
  }

  // What a GET of the name finds in its family's map.
  function Lookup<V>(view: map<string, Slot<V>>, name: string, now: int): Option<V> {
    if name in view && InForce(view[name], now) then Some(view[name].value) else None
  }

  class Redis<V> {
    var data: map<string, Slot<V>>
    var clock: int

    constructor (clock: int)
      ensures data == map[] && this.clock == clock
    {
      this.data, this.clock := map[], clock;
    }

    // SET with a lifetime.
    method Set(f: Family, id: string, v: V, ttl: int)
      requires Nameable(f, Name(f, id))
      modifies this`data
      ensures View(data, f) == View(old(data), f)[Name(f, id) := Slot(v, Some(clock + ttl))]
      ensures forall g :: g != f ==> View(data, g) == View(old(data), g)
    {
      Write(f, Name(f, id), Slot(v, Some(clock + ttl)));
    }

    method Write(f: Family, name: string, slot: Slot<V>)
      requires Nameable(f, name)
      modifies this`data
      ensures View(data, f) == View(old(data), f)[name := slot]
      ensures forall g :: g != f ==> View(data, g) == View(old(data), g)
    {
      data := data[Prefix(f) + name := slot];
      SetEffect(old(data), f, name, slot);
    }

    method Get(f: Family, id: string) returns (r: Option<V>)
      requires Nameable(f, Name(f, id))
      ensures r == Lookup(View(data, f), Name(f, id), clock)
    {
      var key := Key(f, id);
      ViewAt(data, f, Name(f, id));
      r := if key in data && InForce(data[key], clock) then Some(data[key].value) else None;
    }

    method Del(f: Family, id: string)
      requires Nameable(f, Name(f, id))
      modifies this`data
      ensures View(data, f) == View(old(data), f) - {Name(f, id)}
      ensures forall g :: g != f ==> View(data, g) == View(old(data), g)
    {
      var key := Key(f, id);
      data := data - {key};
      DelEffect(old(data), f, Name(f, id));
    }

    // EXPIRE: restarts the lifetime of a key that is there.
    method Expire(f: Family, id: string, ttl: int)
      requires Nameable(f, Name(f, id))
      modifies this`data
      ensures var before := View(old(data), f);
              View(data, f) == if Lookup(before, Name(f, id), clock).None? then before
                               else before[Name(f, id) := before[Name(f, id)].(deadline := Some(clock + ttl))]
      ensures forall g :: g != f ==> View(data, g) == View(old(data), g)
    {
      var key := Key(f, id);
      ViewAt(data, f, Name(f, id));
      if key in data && InForce(data[key], clock) {
        Write(f, Name(f, id), data[key].(deadline := Some(clock + ttl)));
      }
    }
  }
}
