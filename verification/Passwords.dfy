/** Passwords on their way to Keycloak: signup and password change seal them in Redis behind a
    code, reset takes one with the code. unicode.IsLetter is a parameter: nothing here depends
    on which characters are letters. */
module Passwords {
  import opened Text
  import opened Permissions
  import opened Otp
  import opened Interleaved
  import opened Requests
  import opened Wrappers
  import opened Security

  datatype ChangeError = Fine | Missing | Weak(why: Strength) | MustDiffer

  // passwordChangeValidationError
  method ValidateChange(letter: char -> bool, current: string, next: string) returns (r: ChangeError)
    ensures r == Fine <==> current != "" && next != current && StrongPassword(letter, next)
    ensures r == Missing <==> current == "" || next == ""
    ensures r.Weak? <==> current != "" && next != "" && !StrongPassword(letter, next)
    ensures r.Weak? ==> Answers(letter, next, r.why)
    ensures r == MustDiffer <==> current != "" && current == next && StrongPassword(letter, next)
  {
    if current == "" || next == "" {
      return Missing;
    }
    var why := PasswordStrengthError(letter, next);
    if why != Strong {
      return Weak(why);
    }
    if current == next {
      return MustDiffer;
    }
    return Fine;
  }

  // ---- Signup: the record carries the name and the sealed password, under the e-mail

  datatype Signup = Signup(name: string, seal: Sealed)

  predicate SignupOk(letter: char -> bool, adminEmails: seq<string>, email: string, p: Signup) {
    && p.name != "" && Trim(p.name) == p.name && 2 <= |p.name| <= 80
    && Normalize(email) != "" && '@' in Normalize(email)
    && StrongPassword(letter, Open(p.seal))
    && !AdminEmail(adminEmails, Normalize(email))
  }

  function SignupFlow(letter: char -> bool, adminEmails: seq<string>): Flow<Signup> {
    Flow(id => Normalize(id), false, (id, p) => SignupOk(letter, adminEmails, id, p), (caller, p) => true,
         input => true)
  }

  // ---- Password change: the record carries the sealed password, under the user sub

  function ChangeFlow(letter: char -> bool): Flow<Sealed> {
    Flow(id => Trim(id), true, (id, seal) => StrongPassword(letter, Open(seal)), (caller, seal) => true, input => true)
  }

  // ---- Reset: nothing but the code is stored, the password comes with the confirmation

  function ResetFlow(letter: char -> bool): Flow<()> {
    Flow(id => Normalize(id), false, (id, p) => Normalize(id) != "" && '@' in Normalize(id), (caller, p) => true,
         input => StrongPassword(letter, input))
  }

  // ---- Passwordless login: the record is just the code

  function LoginFlow(): Flow<()> {
    Flow(id => Normalize(id), true, (id, p) => Normalize(id) != "" && '@' in Normalize(id), (caller, p) => true,
         input => true)
  }

  lemma FlowsSound(letter: char -> bool, adminEmails: seq<string>)
    ensures Sound(SignupFlow(letter, adminEmails)) && Sound(ChangeFlow(letter)) && Sound(ResetFlow(letter))
            && Sound(LoginFlow())
  {
    forall id: string ensures Normalize(Normalize(id)) == Normalize(id) && Trim(Trim(id)) == Trim(id) {
      NormalizeIdempotent(id);
      TrimIdempotent(id);
    }
  }

  // In every interleaving, a user is created only with the name and password of one start for
  // that very e-mail; the password is strong and the e-mail is not an administrator's.
  lemma SignupHandsOverItsStart(letter: char -> bool, adminEmails: seq<string>, clock: int, es: seq<Event<Signup>>,
                                i: nat)
    requires var log := Run(SignupFlow(letter, adminEmails), Boot(clock), es).core.log; i < |log| && log[i].Effect?
    ensures var log := Run(SignupFlow(letter, adminEmails), Boot(clock), es).core.log;
            && (exists j :: && 0 <= j < i && log[j].Started? && Normalize(log[j].id) == Normalize(log[i].id)
                            && log[j].payload == log[i].payload)
            && StrongPassword(letter, Open(log[i].payload.seal))
            && !AdminEmail(adminEmails, Normalize(log[i].id))
  {
    FlowsSound(letter, adminEmails);
    var f := SignupFlow(letter, adminEmails);
    var log := Run(f, Boot(clock), es).core.log;
    Provenance(f, clock, es, i);
    var j :| From(f, log, j, f.norm(log[i].id), log[i].payload) && j < i;
    assert SignupOk(letter, adminEmails, log[j].id, log[j].payload);
    assert Normalize(log[j].id) == Normalize(log[i].id);
  }

  // Likewise every sealed password stored for a signup.
  lemma SignupStoresStrong(letter: char -> bool, adminEmails: seq<string>, clock: int, es: seq<Event<Signup>>,
                           email: string)
    requires email in Run(SignupFlow(letter, adminEmails), Boot(clock), es).core.redis
    ensures var c := Run(SignupFlow(letter, adminEmails), Boot(clock), es).core.redis[email].challenge;
            && StrongPassword(letter, Open(c.payload.seal)) && !AdminEmail(adminEmails, email) && '@' in email
            && Trim(c.payload.name) == c.payload.name && 2 <= |c.payload.name| <= 80
  {
    FlowsSound(letter, adminEmails);
    var f := SignupFlow(letter, adminEmails);
    var core := Run(f, Boot(clock), es).core;
    Stored(f, clock, es, email);
    var j :| From(f, core.log, j, email, core.redis[email].challenge.payload);
    assert SignupOk(letter, adminEmails, core.log[j].id, core.log[j].payload);
    assert Normalize(core.log[j].id) == email;
  }

  // A change sets exactly the password of one start by that user, and it is strong; so is every
  // sealed password waiting in Redis.
  lemma ChangeHandsOverItsStart(letter: char -> bool, clock: int, es: seq<Event<Sealed>>, i: nat)
    requires var log := Run(ChangeFlow(letter), Boot(clock), es).core.log; i < |log| && log[i].Effect?
    ensures var log := Run(ChangeFlow(letter), Boot(clock), es).core.log;
            && (exists j :: 0 <= j < i && log[j].Started? && Trim(log[j].id) == Trim(log[i].id)
                            && Open(log[j].payload) == Open(log[i].payload))
            && StrongPassword(letter, Open(log[i].payload))
  {
    FlowsSound(letter, []);
    var f := ChangeFlow(letter);
    var log := Run(f, Boot(clock), es).core.log;
    Provenance(f, clock, es, i);
    var j :| From(f, log, j, f.norm(log[i].id), log[i].payload) && j < i;
    assert Trim(log[j].id) == Trim(log[i].id) && Open(log[j].payload) == Open(log[i].payload);
  }

  lemma ChangeStoresStrong(letter: char -> bool, clock: int, es: seq<Event<Sealed>>, sub: string)
    requires sub in Run(ChangeFlow(letter), Boot(clock), es).core.redis
    ensures StrongPassword(letter, Open(Run(ChangeFlow(letter), Boot(clock), es).core.redis[sub].challenge.payload))
  {
    FlowsSound(letter, []);
    Stored(ChangeFlow(letter), clock, es, sub);
  }

  // A reset sets only strong passwords, and only for an address a code was asked for.
  lemma ResetSetsStrong(letter: char -> bool, clock: int, es: seq<Event<()>>, i: nat)
    requires var log := Run(ResetFlow(letter), Boot(clock), es).core.log; i < |log| && log[i].Effect?
    ensures var log := Run(ResetFlow(letter), Boot(clock), es).core.log;
            && StrongPassword(letter, log[i].input) && '@' in Normalize(log[i].id)
            && (exists j :: 0 <= j < i && log[j].Started? && Normalize(log[j].id) == Normalize(log[i].id))
  {
    FlowsSound(letter, []);
    var f := ResetFlow(letter);
    var log := Run(f, Boot(clock), es).core.log;
    Provenance(f, clock, es, i);
    var j :| From(f, log, j, f.norm(log[i].id), log[i].payload) && j < i;
    assert Normalize(log[j].id) == Normalize(log[i].id);
  }

  // In every interleaving a login follows the entry of a code that was issued for that very address, at
  // most 15 minutes before.
  lemma LoginNeedsItsCode(clock: int, es: seq<Event<()>>, i: nat)
    requires var log := Run(LoginFlow(), Boot(clock), es).core.log; i < |log| && log[i].Effect?
    ensures var log := Run(LoginFlow(), Boot(clock), es).core.log;
            && '@' in Normalize(log[i].id)
            && exists j, p :: 0 <= j < p < i && LoginCode(log[j], log[p], Normalize(log[i].id))
  {
    FlowsSound(c => true, []);
    var f := LoginFlow();
    var log := Run(f, Boot(clock), es).core.log;
    Provenance(f, clock, es, i);
    var k :| From(f, log, k, f.norm(log[i].id), log[i].payload) && k < i;
    assert Normalize(log[k].id) == Normalize(log[i].id);
    var j, p :| PassedOn(f, log, j, p, f.norm(log[i].id), log[i].payload) && p < i;
    assert LoginCode(log[j], log[p], Normalize(log[i].id));
  }

  // A code issued for the address, and its entry in time.
  predicate LoginCode(issued: Item<()>, passed: Item<()>, email: string) {
    && (issued.Started? || issued.Rotated?) && Normalize(issued.id) == email
    && passed.Passed? && Normalize(passed.id) == email
    && Trim(passed.code) == issued.code && issued.at <= passed.at <= issued.at + 900_000_000_000
  }

  // With handlers run one at a time: one code yields at most one session, one password change,
  // one accepted reset, one created user.
  lemma OneEffectPerCode(letter: char -> bool, adminEmails: seq<string>, clock: int, id: string,
                         login: seq<Request<()>>, change: seq<Request<Sealed>>, reset: seq<Request<()>>,
                         signup: seq<Request<Signup>>)
    ensures UsesSince(LoginFlow(), HandleAll(LoginFlow(), Empty(clock), login).log, Normalize(id)) <= 1
    ensures UsesSince(ChangeFlow(letter), HandleAll(ChangeFlow(letter), Empty(clock), change).log, Trim(id)) <= 1
    ensures UsesSince(ResetFlow(letter), HandleAll(ResetFlow(letter), Empty(clock), reset).log, Normalize(id)) <= 1
    ensures UsesSince(SignupFlow(letter, adminEmails),
                      HandleAll(SignupFlow(letter, adminEmails), Empty(clock), signup).log, Normalize(id)) <= 1
  {
    FlowsSound(letter, adminEmails);
    CodeBounds(LoginFlow(), clock, login, Normalize(id));
    CodeBounds(ChangeFlow(letter), clock, change, Trim(id));
    CodeBounds(ResetFlow(letter), clock, reset, Normalize(id));
    CodeBounds(SignupFlow(letter, adminEmails), clock, signup, Normalize(id));
  }

  // ---- Each flow goes through, and keeps to its own record

  // s2 is s after a mailed start and the entry of its code: one call was made, with what was started.
  ghost predicate WentThrough<P>(s: Core<P>, s2: Core<P>, delay: nat, id: string, payload: P, code: string, wait: nat,
                                 caller: string, id': string, typed: string, input: string, outcome: Outcome) {
    s2.log == s.log + [Started(id, payload, code, s.clock + delay), Passed(id', typed, s.clock + delay + wait),
                       Effect(id', caller, payload, input, outcome)]
  }

  lemma SignupGoesThrough(letter: char -> bool, adminEmails: seq<string>, s: Core<Signup>, delay: nat, name: string,
                          email: string, password: string, code: string, wait: nat, email': string, typed: string,
                          outcome: Outcome)
    requires Reachable(SignupFlow(letter, adminEmails), s)
    requires 2 <= |Trim(name)| <= 80 && Normalize(email) != "" && '@' in Normalize(email)
    requires StrongPassword(letter, password) && !AdminEmail(adminEmails, Normalize(email))
    requires Normalize(email') == Normalize(email) && Trim(typed) == code != "" && wait <= 900_000_000_000
    ensures var f, p := SignupFlow(letter, adminEmails), Signup(Trim(name), Seal(password));
            var s1 := Handle(f, s, StartReq(delay, email, p, code, true));
            var s2 := Handle(f, s1, ConfirmReq(wait, "", email', typed, "", outcome));
            && WentThrough(s, s2, delay, email, p, code, wait, "", email', typed, "", outcome)
            && Open(p.seal) == password
            && (Get(s2, Normalize(email)).None? <==> outcome != Failed)
  {
    FlowsSound(letter, adminEmails);
    TrimIdempotent(name);
    var f, p := SignupFlow(letter, adminEmails), Signup(Trim(name), Seal(password));
    StartThenConfirm(f, s, delay, email, p, code, wait, "", email', typed, "", outcome);
  }

  lemma ChangeGoesThrough(letter: char -> bool, s: Core<Sealed>, delay: nat, sub: string, password: string,
                          code: string, wait: nat, sub': string, typed: string, outcome: Outcome)
    requires Reachable(ChangeFlow(letter), s) && StrongPassword(letter, password)
    requires Trim(sub') == Trim(sub) && Trim(typed) == code != "" && wait <= 900_000_000_000
    ensures var s1 := Handle(ChangeFlow(letter), s, StartReq(delay, sub, Seal(password), code, true));
            var s2 := Handle(ChangeFlow(letter), s1, ConfirmReq(wait, sub', sub', typed, "", outcome));
            && WentThrough(s, s2, delay, sub, Seal(password), code, wait, sub', sub', typed, "", outcome)
            && Open(Seal(password)) == password
            && Get(s2, Trim(sub)).None?
  {
    FlowsSound(letter, []);
    StartThenConfirm(ChangeFlow(letter), s, delay, sub, Seal(password), code, wait, sub', sub', typed, "", outcome);
  }

  lemma ResetGoesThrough(letter: char -> bool, s: Core<()>, delay: nat, email: string, password: string, code: string,
                         wait: nat, email': string, typed: string, outcome: Outcome)
    requires Reachable(ResetFlow(letter), s) && StrongPassword(letter, password)
    requires Normalize(email) != "" && '@' in Normalize(email)
    requires Normalize(email') == Normalize(email) && Trim(typed) == code != "" && wait <= 900_000_000_000
    ensures var s1 := Handle(ResetFlow(letter), s, StartReq(delay, email, (), code, true));
            var s2 := Handle(ResetFlow(letter), s1, ConfirmReq(wait, "", email', typed, password, outcome));
            && WentThrough(s, s2, delay, email, (), code, wait, "", email', typed, password, outcome)
            && (Get(s2, Normalize(email)).None? <==> outcome != Failed)
  {
    FlowsSound(letter, []);
    StartThenConfirm(ResetFlow(letter), s, delay, email, (), code, wait, "", email', typed, password, outcome);
  }

  lemma LoginGoesThrough(s: Core<()>, delay: nat, email: string, code: string, wait: nat, email': string, typed: string,
                         outcome: Outcome)
    requires Reachable(LoginFlow(), s) && Normalize(email) != "" && '@' in Normalize(email)
    requires Normalize(email') == Normalize(email) && Trim(typed) == code != "" && wait <= 900_000_000_000
    ensures var s1 := Handle(LoginFlow(), s, StartReq(delay, email, (), code, true));
            var s2 := Handle(LoginFlow(), s1, ConfirmReq(wait, "", email', typed, "", outcome));
            && WentThrough(s, s2, delay, email, (), code, wait, "", email', typed, "", outcome)
            && Get(s2, Normalize(email)).None?
  {
    FlowsSound(c => true, []);
    StartThenConfirm(LoginFlow(), s, delay, email, (), code, wait, "", email', typed, "", outcome);
  }

  // A request for one address, or user, changes what is found for no other.
  lemma OtherSignupsKept(letter: char -> bool, adminEmails: seq<string>, s: Core<Signup>, r: Request<Signup>,
                         email: string)
    requires Reachable(SignupFlow(letter, adminEmails), s) && Normalize(r.id) != Normalize(email)
    ensures Get(Handle(SignupFlow(letter, adminEmails), s, r), Normalize(email))
            == Get(Later(s, r.delay), Normalize(email))
  {
    FlowsSound(letter, adminEmails);
    OthersKept(SignupFlow(letter, adminEmails), s, r, Normalize(email));
  }

  lemma OtherChangesKept(letter: char -> bool, s: Core<Sealed>, r: Request<Sealed>, sub: string)
    requires Reachable(ChangeFlow(letter), s) && Trim(r.id) != Trim(sub)
    ensures Get(Handle(ChangeFlow(letter), s, r), Trim(sub)) == Get(Later(s, r.delay), Trim(sub))
  {
    FlowsSound(letter, []);
    OthersKept(ChangeFlow(letter), s, r, Trim(sub));
  }

  lemma OtherResetsKept(letter: char -> bool, s: Core<()>, r: Request<()>, email: string)
    requires Reachable(ResetFlow(letter), s) && Normalize(r.id) != Normalize(email)
    ensures Get(Handle(ResetFlow(letter), s, r), Normalize(email)) == Get(Later(s, r.delay), Normalize(email))
  {
    FlowsSound(letter, []);
    OthersKept(ResetFlow(letter), s, r, Normalize(email));
  }

  lemma OtherLoginsKept(s: Core<()>, r: Request<()>, email: string)
    requires Reachable(LoginFlow(), s) && Normalize(r.id) != Normalize(email)
    ensures Get(Handle(LoginFlow(), s, r), Normalize(email)) == Get(Later(s, r.delay), Normalize(email))
  {
    FlowsSound(c => true, []);
    OthersKept(LoginFlow(), s, r, Normalize(email));
  }
}
