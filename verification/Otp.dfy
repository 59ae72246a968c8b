/** The e-mailed one-time-code challenge, as the five stores share it: otp.Store (login, reset,
    e-mail change), TransferStore, PasswordStore and signup.Store differ only in what a record
    carries besides the code (its payload) and in how its owner is named. Times are nanoseconds. */
module Otp {
  import opened Security
  import opened Text
  import opened Wrappers

  const MINUTE := 60_000_000_000
  const CHALLENGE_TTL := 30 * MINUTE
  const OTP_TTL := 15 * MINUTE
  const RESEND_COOLDOWN := 2 * MINUTE
  const MAX_VERIFY_ATTEMPTS: nat := 5

  datatype Challenge<P> = Challenge(
    id: string, payload: P, otpHash: Hash, createdAt: int, lastSentAt: int, otpExpiresAt: int, attempts: nat)

  datatype Verdict = Accepted | TooManyTries | Expired | Invalid

  function New<P>(f: Flow<P>, id: string, payload: P, code: string, now: int): Challenge<P> {
    Challenge(f.norm(id), payload, HashOf(code), now, now, now + OTP_TTL, 0)
  }

  function Rotate<P>(c: Challenge<P>, code: string, now: int): Challenge<P> {
    c.(otpHash := HashOf(code), lastSentAt := now, otpExpiresAt := now + OTP_TTL, attempts := 0)
  }

  predicate ResendAllowed<P>(c: Challenge<P>, now: int) {
    RESEND_COOLDOWN - (now - c.lastSentAt) <= 0
  }

  // The verdict, and the record with its attempt counted.
  function Verify<P>(c: Challenge<P>, code: string, now: int): (Challenge<P>, Verdict) {
    if c.attempts >= MAX_VERIFY_ATTEMPTS then (c, TooManyTries)
    else if now > c.otpExpiresAt then (c, Expired)
    else
      var counted := c.(attempts := c.attempts + 1);
      (counted, if CheckSecret(Trim(code), c.otpHash) then Accepted else Invalid)
  }

  // What tells one flow's handlers from another's. norm: how a record is named, by normalised
  // e-mail address or by trimmed user sub. deleteFirst: the record is deleted before the
  // effect (login, e-mail change, password change, transfer) or after Keycloak's answer (reset,
  // signup). startOk: the checks of the start handler. owned: may this caller use this record?
  // inputOk: the check on what the verify request brings besides the code (reset's new password).
  datatype Flow<!P> = Flow(
    norm: string -> string, deleteFirst: bool,
    startOk: (string, P) -> bool, owned: (string, P) -> bool, inputOk: string -> bool)

  ghost predicate Sound<P>(f: Flow<P>) {
    forall id :: f.norm(f.norm(id)) == f.norm(id)
  }

  // What the call behind a passed code answered. Refused: the record is obsolete (user exists,
  // user missing); Failed: any other error.
  datatype Outcome = Done | Refused | Failed

  datatype Entry<P> = Entry(challenge: Challenge<P>, deadline: int)

  // The history: codes issued for a payload, starts whose mail did not go out, wrong comparisons,
  // confirmations refused for want of tries or for age, codes passed, and the calls made on them.
  datatype Item<P> =
    | Started(id: string, payload: P, code: string, at: int)
    | Rotated(id: string, payload: P, code: string, at: int)
    | Unsent(id: string)
    | Wrong(id: string, at: int)
    | Dropped(id: string)
    | Passed(id: string, code: string, at: int)
    | Effect(id: string, caller: string, payload: P, input: string, outcome: Outcome)

  datatype Core<P> = Core(redis: map<string, Entry<P>>, clock: int, log: seq<Item<P>>)

  predicate Blank(code: string) {
    Trim(code) == ""
  }

  function Get<P>(s: Core<P>, key: string): Option<Challenge<P>> {
    if key in s.redis && s.clock < s.redis[key].deadline then Some(s.redis[key].challenge) else None
  }

  function Put<P>(f: Flow<P>, s: Core<P>, c: Challenge<P>): Core<P> {
    s.(redis := s.redis[f.norm(c.id) := Entry(c, s.clock + CHALLENGE_TTL)])
  }

  function Delete<P>(f: Flow<P>, s: Core<P>, id: string): Core<P> {
    s.(redis := s.redis - {f.norm(id)})
  }

  function Log<P>(s: Core<P>, item: Item<P>): Core<P> {
    s.(log := s.log + [item])
  }

  function Wait<P>(s: Core<P>, delay: nat): Core<P> {
    s.(clock := s.clock + delay)
  }

  // ---- The handlers, each run as one step

  function Start<P>(f: Flow<P>, s: Core<P>, id: string, payload: P, code: string, mailed: bool): Core<P> {
    if !f.startOk(id, payload) then s
    else
      var s1 := Put(f, Log(s, Started(id, payload, code, s.clock)), New(f, id, payload, code, s.clock));
      if mailed then s1 else Delete(f, Log(s1, Unsent(f.norm(id))), id)
  }

  function Renew<P>(f: Flow<P>, s: Core<P>, c: Challenge<P>, code: string): Core<P> {
    Put(f, Log(s, Rotated(c.id, c.payload, code, s.clock)), Rotate(c, code, s.clock))
  }

  function Resend<P>(f: Flow<P>, s: Core<P>, caller: string, id: string, code: string): Core<P> {
    var found := Get(s, f.norm(id));
    if found.None? || !f.owned(caller, found.value.payload) || !ResendAllowed(found.value, s.clock) then s
    else Renew(f, s, found.value, code)
  }

  function Confirm<P>(f: Flow<P>, s: Core<P>, caller: string, id: string, code: string, input: string,
                      outcome: Outcome): Core<P> {
    var found := Get(s, f.norm(id));
    if Blank(code) || !f.inputOk(input) || found.None? || !f.owned(caller, found.value.payload) then s
    else
      var (c, verdict) := Verify(found.value, code, s.clock);
      match verdict
      case Invalid => Put(f, Log(s, Wrong(id, s.clock)), c)
      case Accepted =>
        var s1 := Log(Log(s, Passed(id, code, s.clock)), Effect(id, caller, c.payload, input, outcome));
        if f.deleteFirst || outcome != Failed then Delete(f, s1, id) else s1
      case _ => Delete(f, Put(f, Log(s, Dropped(id)), c), id)
  }

  datatype Request<P> =
    | StartReq(delay: nat, id: string, payload: P, code: string, mailed: bool)
    | ResendReq(delay: nat, caller: string, id: string, code: string)
    | ConfirmReq(delay: nat, caller: string, id: string, code: string, input: string, outcome: Outcome)

  function Handle<P>(f: Flow<P>, s: Core<P>, r: Request<P>): Core<P> {
    var s1 := Wait(s, r.delay);
    match r
    case StartReq(_, id, payload, code, mailed) => Start(f, s1, id, payload, code, mailed)
    case ResendReq(_, caller, id, code) => Resend(f, s1, caller, id, code)
    case ConfirmReq(_, caller, id, code, input, outcome) => Confirm(f, s1, caller, id, code, input, outcome)
  }

  function HandleAll<P>(f: Flow<P>, s: Core<P>, rs: seq<Request<P>>): Core<P> {
    if rs == [] then s else Handle(f, HandleAll(f, s, rs[..|rs| - 1]), rs[|rs| - 1])
  }

  function Empty<P>(clock: int): Core<P> {
    Core(map[], clock, [])
  }

  // ---- Reading the history of one record key

  predicate Issues<P>(f: Flow<P>, item: Item<P>, key: string) {
    (item.Started? || item.Rotated?) && f.norm(item.id) == key
  }

  predicate Starts<P>(f: Flow<P>, item: Item<P>, key: string) {
    item.Started? && f.norm(item.id) == key
  }

  // A call that spends the code: any call of a flow that deletes first, else an accepted one.
  predicate Uses<P>(f: Flow<P>, item: Item<P>, key: string) {
    item.Effect? && f.norm(item.id) == key && (f.deleteFirst || item.outcome == Done)
  }

  // What takes the record away: a mail that did not go out, a confirmation refused for good, a call
  // before or after which the handler deletes.
  predicate Removes<P>(f: Flow<P>, item: Item<P>, key: string) {
    && (item.Unsent? || item.Dropped? || (item.Effect? && (f.deleteFirst || item.outcome != Failed)))
    && f.norm(item.id) == key
  }

  // What writes the record: issuing a code, counting a wrong one.
  predicate Holds<P>(f: Flow<P>, item: Item<P>, key: string) {
    (item.Started? || item.Rotated? || item.Wrong?) && f.norm(item.id) == key
  }

  predicate WrongFor<P>(f: Flow<P>, item: Item<P>, key: string) {
    item.Wrong? && f.norm(item.id) == key
  }

  // The most recent code issued for the key, and when.
  function LastIssue<P>(f: Flow<P>, log: seq<Item<P>>, key: string): Option<(string, int)> {
    if log == [] then None
    else
      var last := log[|log| - 1];
      if Issues(f, last, key) then Some((last.code, last.at)) else LastIssue(f, log[..|log| - 1], key)
  }

  // Wrong comparisons, and uses, since that code was issued.
  function WrongSince<P>(f: Flow<P>, log: seq<Item<P>>, key: string): nat {
    if log == [] || Issues(f, log[|log| - 1], key) then 0
    else WrongSince(f, log[..|log| - 1], key) + if WrongFor(f, log[|log| - 1], key) then 1 else 0
  }

  function UsesSince<P>(f: Flow<P>, log: seq<Item<P>>, key: string): nat {
    if log == [] || Issues(f, log[|log| - 1], key) then 0
    else UsesSince(f, log[..|log| - 1], key) + if Uses(f, log[|log| - 1], key) then 1 else 0
  }

  // When the key's record was last written, unless it was removed since.
  function LastHold<P>(f: Flow<P>, log: seq<Item<P>>, key: string): Option<int> {
    if log == [] || Removes(f, log[|log| - 1], key) then None
    else if Holds(f, log[|log| - 1], key) then Some(log[|log| - 1].at)
    else LastHold(f, log[..|log| - 1], key)
  }

  // The challenge the key's record belongs to: its payload and start time, how often its code
  // was rotated, and the wrong comparisons over all its codes.
  function LastStart<P>(f: Flow<P>, log: seq<Item<P>>, key: string): Option<(P, int)> {
    if log == [] then None
    else
      var last := log[|log| - 1];
      if Starts(f, last, key) then Some((last.payload, last.at)) else LastStart(f, log[..|log| - 1], key)
  }

  function Rotations<P>(f: Flow<P>, log: seq<Item<P>>, key: string): nat {
    if log == [] || Starts(f, log[|log| - 1], key) then 0
    else Rotations(f, log[..|log| - 1], key) + if Issues(f, log[|log| - 1], key) then 1 else 0
  }

  function WrongInAll<P>(f: Flow<P>, log: seq<Item<P>>, key: string): nat {
    if log == [] || Starts(f, log[|log| - 1], key) then 0
    else WrongInAll(f, log[..|log| - 1], key) + if WrongFor(f, log[|log| - 1], key) then 1 else 0
  }

  lemma ReadAppend<P>(f: Flow<P>, log: seq<Item<P>>, item: Item<P>, key: string)
    ensures LastIssue(f, log + [item], key)
            == if Issues(f, item, key) then Some((item.code, item.at)) else LastIssue(f, log, key)
    ensures LastStart(f, log + [item], key)
            == if Starts(f, item, key) then Some((item.payload, item.at)) else LastStart(f, log, key)
    ensures WrongSince(f, log + [item], key)
            == if Issues(f, item, key) then 0 else WrongSince(f, log, key) + if WrongFor(f, item, key) then 1 else 0
    ensures UsesSince(f, log + [item], key)
            == if Issues(f, item, key) then 0 else UsesSince(f, log, key) + if Uses(f, item, key) then 1 else 0
    ensures LastHold(f, log + [item], key)
            == if Removes(f, item, key) then None
               else if Holds(f, item, key) then Some(item.at) else LastHold(f, log, key)
    ensures Rotations(f, log + [item], key)
            == if Starts(f, item, key) then 0 else Rotations(f, log, key) + if Issues(f, item, key) then 1 else 0
    ensures WrongInAll(f, log + [item], key)
            == if Starts(f, item, key) then 0 else WrongInAll(f, log, key) + if WrongFor(f, item, key) then 1 else 0
  {
    assert (log + [item])[..|log|] == log;
  }

  // ---- The invariant of atomic handlers

  ghost predicate EntryInv<P>(f: Flow<P>, s: Core<P>, key: string, e: Entry<P>) {
    var c := e.challenge;
    && c.id == key == f.norm(key)
    && c.lastSentAt <= s.clock
    && e.deadline >= c.lastSentAt + CHALLENGE_TTL
    && LastHold(f, s.log, key) == Some(e.deadline - CHALLENGE_TTL)
    && c.otpExpiresAt == c.lastSentAt + OTP_TTL
    && LastIssue(f, s.log, key) == Some((c.otpHash.secret, c.lastSentAt))
    && LastStart(f, s.log, key) == Some((c.payload, c.createdAt))
    && c.attempts == WrongSince(f, s.log, key)
    && UsesSince(f, s.log, key) == 0
  }

  ghost predicate KeyInv<P>(f: Flow<P>, s: Core<P>, key: string) {
    var log := s.log;
    && (LastHold(f, log, key).Some? ==> key in s.redis)
    && WrongSince(f, log, key) <= MAX_VERIFY_ATTEMPTS
    && UsesSince(f, log, key) <= 1
    && (LastIssue(f, log, key).None? <==> LastStart(f, log, key).None?)
    && (LastStart(f, log, key).None? ==>
          WrongInAll(f, log, key) == 0 && WrongSince(f, log, key) == 0 && Rotations(f, log, key) == 0)
    && (LastStart(f, log, key).Some? ==>
          && LastStart(f, log, key).value.1 + RESEND_COOLDOWN * Rotations(f, log, key)
             <= LastIssue(f, log, key).value.1 <= s.clock
          && WrongInAll(f, log, key) <= MAX_VERIFY_ATTEMPTS * Rotations(f, log, key) + WrongSince(f, log, key))
  }

  // Each item against what was recorded before it.
  ghost predicate ItemOk<P>(f: Flow<P>, before: seq<Item<P>>, item: Item<P>) {
    match item
    case Started(id, payload, _, _) => f.startOk(id, payload)
    case Passed(id, code, at) =>
      var issue := LastIssue(f, before, f.norm(id));
      issue.Some? && Trim(code) == issue.value.0 && at <= issue.value.1 + 900_000_000_000
    case Effect(id, caller, payload, input, _) =>
      && before != [] && before[|before| - 1].Passed? && f.norm(before[|before| - 1].id) == f.norm(id)
      && LastStart(f, before, f.norm(id)).Some?
      && LastStart(f, before, f.norm(id)).value.0 == payload
      && f.owned(caller, payload) && f.inputOk(input)
    case _ => true
  }

  ghost predicate OkAt<P>(f: Flow<P>, log: seq<Item<P>>, i: nat) {
    i < |log| ==> ItemOk(f, log[..i], log[i])
  }

  ghost predicate LogOk<P>(f: Flow<P>, log: seq<Item<P>>) {
    forall i: nat :: OkAt(f, log, i)
  }

  ghost predicate Inv<P>(f: Flow<P>, s: Core<P>) {
    && (forall key :: key in s.redis ==> EntryInv(f, s, key, s.redis[key]))
    && (forall key :: KeyInv(f, s, key))
    && LogOk(f, s.log)
  }

  lemma LogOkAppend<P>(f: Flow<P>, log: seq<Item<P>>, item: Item<P>)
    requires LogOk(f, log) && ItemOk(f, log, item)
    ensures LogOk(f, log + [item])
  {
    var more := log + [item];
    forall i: nat ensures OkAt(f, more, i) {
      if i < |log| {
        assert OkAt(f, log, i);
        assert more[..i] == log[..i];
      } else if i == |log| {
        assert more[..i] == log;
      }
    }
  }

  lemma WaitInv<P>(f: Flow<P>, s: Core<P>, delay: nat)
    requires Inv(f, s)
    ensures Inv(f, Wait(s, delay))
  {
    var s1 := Wait(s, delay);
    forall key ensures KeyInv(f, s1, key) {
      assert KeyInv(f, s, key);
    }
    forall key | key in s1.redis ensures EntryInv(f, s1, key, s1.redis[key]) {
      assert EntryInv(f, s, key, s.redis[key]);
    }
  }

  // An item leaves every key but its own alone.
  lemma OtherKey<P>(f: Flow<P>, s: Core<P>, s1: Core<P>, item: Item<P>, key: string)
    requires f.norm(item.id) != key
    requires s1.log == s.log + [item] && s1.clock == s.clock && (key in s.redis <==> key in s1.redis)
    requires KeyInv(f, s, key)
    ensures KeyInv(f, s1, key)
    ensures key in s.redis && EntryInv(f, s, key, s.redis[key]) ==> EntryInv(f, s1, key, s.redis[key])
  {
    ReadAppend(f, s.log, item, key);
  }

  // A step that records one item and touches one record needs checking at that record only.
  lemma OneKey<P>(f: Flow<P>, s: Core<P>, s1: Core<P>, item: Item<P>, k: string)
    requires Inv(f, s) && f.norm(item.id) == k
    requires s1.log == s.log + [item] && s1.clock == s.clock && s1.redis - {k} == s.redis - {k}
    requires ItemOk(f, s.log, item) && KeyInv(f, s1, k) && (k in s1.redis ==> EntryInv(f, s1, k, s1.redis[k]))
    ensures Inv(f, s1)
  {
    LogOkAppend(f, s.log, item);
    forall key ensures KeyInv(f, s1, key) {
      assert KeyInv(f, s, key);
      if key != k {
        assert key in s.redis <==> key in s.redis - {k};
        assert key in s1.redis <==> key in s1.redis - {k};
        OtherKey(f, s, s1, item, key);
      }
    }
    forall key | key in s1.redis ensures EntryInv(f, s1, key, s1.redis[key]) {
      if key != k {
        assert key in s1.redis - {k};
        assert s1.redis[key] == (s1.redis - {k})[key] == s.redis[key];
        assert EntryInv(f, s, key, s.redis[key]) && KeyInv(f, s, key);
        OtherKey(f, s, s1, item, key);
      }
    }
  }

  lemma UnsentInv<P>(f: Flow<P>, s: Core<P>, id: string)
    requires Sound(f) && Inv(f, s)
    ensures Inv(f, Delete(f, Log(s, Unsent(f.norm(id))), id))
  {
    var k := f.norm(id);
    var item: Item<P> := Unsent(k);
    assert KeyInv(f, s, k);
    ReadAppend(f, s.log, item, k);
    OneKey(f, s, Delete(f, Log(s, item), id), item, k);
  }

  lemma StartInv<P>(f: Flow<P>, s: Core<P>, id: string, payload: P, code: string, mailed: bool)
    requires Sound(f) && Inv(f, s)
    ensures Inv(f, Start(f, s, id, payload, code, mailed))
  {
    if f.startOk(id, payload) {
      var item := Started(id, payload, code, s.clock);
      var k := f.norm(id);
      var s1 := Put(f, Log(s, item), New(f, id, payload, code, s.clock));
      ReadAppend(f, s.log, item, k);
      OneKey(f, s, s1, item, k);
      if !mailed {
        UnsentInv(f, s1, id);
      }
    }
  }

  lemma OneMoreRotation(n: nat, start: int, sent: int, now: int)
    requires start + RESEND_COOLDOWN * n <= sent && RESEND_COOLDOWN - (now - sent) <= 0
    ensures start + RESEND_COOLDOWN * (n + 1) <= now
  {
  }

  lemma RotateInv<P>(f: Flow<P>, s: Core<P>, c: Challenge<P>, code: string)
    requires Sound(f) && Inv(f, s) && ResendAllowed(c, s.clock)
    requires var k := f.norm(c.id); k in s.redis && s.redis[k].challenge == c
    ensures Inv(f, Renew(f, s, c, code))
  {
    var k := f.norm(c.id);
    var item := Rotated(c.id, c.payload, code, s.clock);
    assert EntryInv(f, s, k, s.redis[k]) && KeyInv(f, s, k);
    ReadAppend(f, s.log, item, k);
    OneMoreRotation(Rotations(f, s.log, k), LastStart(f, s.log, k).value.1, c.lastSentAt, s.clock);
    assert KeyInv(f, Renew(f, s, c, code), k);
    OneKey(f, s, Renew(f, s, c, code), item, k);
  }

  lemma ResendInv<P>(f: Flow<P>, s: Core<P>, caller: string, id: string, code: string)
    requires Sound(f) && Inv(f, s)
    ensures Inv(f, Resend(f, s, caller, id, code))
  {
    var k := f.norm(id);
    var found := Get(s, k);
    if found.Some? && f.owned(caller, found.value.payload) && ResendAllowed(found.value, s.clock) {
      assert EntryInv(f, s, k, s.redis[k]);
      RotateInv(f, s, found.value, code);
    }
  }

  lemma InvalidInv<P>(f: Flow<P>, s: Core<P>, id: string, c: Challenge<P>)
    requires Sound(f) && Inv(f, s)
    requires var k := f.norm(id);
             && k in s.redis && s.redis[k].challenge.attempts < MAX_VERIFY_ATTEMPTS
             && c == s.redis[k].challenge.(attempts := s.redis[k].challenge.attempts + 1)
    ensures Inv(f, Put(f, Log(s, Wrong(id, s.clock)), c))
  {
    var k := f.norm(id);
    var item := Wrong(id, s.clock);
    var s1 := Put(f, Log(s, item), c);
    assert EntryInv(f, s, k, s.redis[k]) && KeyInv(f, s, k);
    ReadAppend(f, s.log, item, k);
    OneKey(f, s, s1, item, k);
  }

  lemma PassedInv<P>(f: Flow<P>, s: Core<P>, id: string, code: string)
    requires Inv(f, s) && Get(s, f.norm(id)).Some? && Verify(Get(s, f.norm(id)).value, code, s.clock).1 == Accepted
    ensures Inv(f, Log(s, Passed(id, code, s.clock)))
  {
    var k := f.norm(id);
    var passed: Item<P> := Passed(id, code, s.clock);
    assert EntryInv(f, s, k, s.redis[k]) && KeyInv(f, s, k);
    ReadAppend(f, s.log, passed, k);
    OneKey(f, s, Log(s, passed), passed, k);
  }

  lemma EffectInv<P>(f: Flow<P>, s: Core<P>, caller: string, id: string, input: string, outcome: Outcome)
    requires Inv(f, s) && f.norm(id) in s.redis && f.inputOk(input)
    requires s.log != [] && s.log[|s.log| - 1].Passed? && f.norm(s.log[|s.log| - 1].id) == f.norm(id)
    requires f.owned(caller, s.redis[f.norm(id)].challenge.payload)
    ensures var s1 := Log(s, Effect(id, caller, s.redis[f.norm(id)].challenge.payload, input, outcome));
            Inv(f, if f.deleteFirst || outcome != Failed then Delete(f, s1, id) else s1)
  {
    var k := f.norm(id);
    var effect: Item<P> := Effect(id, caller, s.redis[k].challenge.payload, input, outcome);
    var s1 := Log(s, effect);
    assert EntryInv(f, s, k, s.redis[k]) && KeyInv(f, s, k);
    ReadAppend(f, s.log, effect, k);
    OneKey(f, s, if f.deleteFirst || outcome != Failed then Delete(f, s1, id) else s1, effect, k);
  }

  lemma DiscardInv<P>(f: Flow<P>, s: Core<P>, c: Challenge<P>, id: string)
    requires Sound(f) && Inv(f, s) && f.norm(c.id) == f.norm(id)
    ensures Inv(f, Delete(f, Put(f, Log(s, Dropped(id)), c), id))
  {
    var k := f.norm(id);
    var item: Item<P> := Dropped(id);
    assert KeyInv(f, s, k);
    ReadAppend(f, s.log, item, k);
    OneKey(f, s, Delete(f, Put(f, Log(s, item), c), id), item, k);
  }

  lemma ConfirmInv<P>(f: Flow<P>, s: Core<P>, caller: string, id: string, code: string, input: string, outcome: Outcome)
    requires Sound(f) && Inv(f, s)
    ensures Inv(f, Confirm(f, s, caller, id, code, input, outcome))
  {
    var k := f.norm(id);
    var found := Get(s, k);
    if Trim(code) != "" && f.inputOk(input) && found.Some? && f.owned(caller, found.value.payload) {
      assert EntryInv(f, s, k, s.redis[k]);
      var (c, verdict) := Verify(found.value, code, s.clock);
      match verdict
      case Invalid => InvalidInv(f, s, id, c);
      case Accepted =>
        PassedInv(f, s, id, code);
        EffectInv(f, Log(s, Passed(id, code, s.clock)), caller, id, input, outcome);
      case TooManyTries => DiscardInv(f, s, c, id);
      case Expired => DiscardInv(f, s, c, id);
    }
  }

  lemma HandleInv<P>(f: Flow<P>, s: Core<P>, r: Request<P>)
    requires Sound(f) && Inv(f, s)
    ensures Inv(f, Handle(f, s, r))
  {
    WaitInv(f, s, r.delay);
    match r
    case StartReq(delay, id, payload, code, mailed) => StartInv(f, Wait(s, delay), id, payload, code, mailed);
    case ResendReq(delay, caller, id, code) => ResendInv(f, Wait(s, delay), caller, id, code);
    case ConfirmReq(delay, caller, id, code, input, outcome) =>
      ConfirmInv(f, Wait(s, delay), caller, id, code, input, outcome);
  }

  lemma {:induction false} RunInv<P>(f: Flow<P>, clock: int, rs: seq<Request<P>>)
    requires Sound(f)
    ensures Inv(f, HandleAll(f, Empty(clock), rs))
  {
    if rs != [] {
      RunInv(f, clock, rs[..|rs| - 1]);
      HandleInv(f, HandleAll(f, Empty(clock), rs[..|rs| - 1]), rs[|rs| - 1]);
    }
  }

  // ---- What every run of atomic handlers keeps

  // Each issued code sees at most five wrong comparisons, and is used at most once.
  lemma CodeBounds<P>(f: Flow<P>, clock: int, rs: seq<Request<P>>, key: string)
    requires Sound(f)
    ensures var log := HandleAll(f, Empty(clock), rs).log;
            WrongSince(f, log, key) <= 5 && UsesSince(f, log, key) <= 1
  {
    RunInv(f, clock, rs);
    assert KeyInv(f, HandleAll(f, Empty(clock), rs), key);
  }

  // A challenge started at t0 has by time t been rotated at most floor((t - t0) / 2min) times, and
  // all its codes together have seen at most 5 * (1 + floor((t - t0) / 2min)) wrong comparisons.
  ghost predicate WithinBounds<P>(f: Flow<P>, s: Core<P>, key: string, t0: int) {
    && t0 <= s.clock
    && Rotations(f, s.log, key) <= (s.clock - t0) / 120_000_000_000
    && WrongInAll(f, s.log, key) <= 5 * (1 + (s.clock - t0) / 120_000_000_000)
  }

  lemma KeyBounds<P>(f: Flow<P>, s: Core<P>, key: string)
    requires KeyInv(f, s, key) && LastStart(f, s.log, key).Some?
    ensures WithinBounds(f, s, key, LastStart(f, s.log, key).value.1)
  {
    Quotient(Rotations(f, s.log, key), s.clock - LastStart(f, s.log, key).value.1);
  }

  lemma ChallengeBounds<P>(f: Flow<P>, clock: int, rs: seq<Request<P>>, key: string)
    requires Sound(f)
    requires LastStart(f, HandleAll(f, Empty(clock), rs).log, key).Some?
    ensures WithinBounds(f, HandleAll(f, Empty(clock), rs), key,
                         LastStart(f, HandleAll(f, Empty(clock), rs).log, key).value.1)
  {
    RunInv(f, clock, rs);
    KeyBounds(f, HandleAll(f, Empty(clock), rs), key);
  }

  lemma Quotient(n: nat, d: int)
    requires n * RESEND_COOLDOWN <= d
    ensures n <= d / RESEND_COOLDOWN
  {
  }

  // A code passes only if it is the most recent one issued for its record, at most 15 minutes old;
  // and each call made on a passed code carries the payload of the latest start for that record,
  // which the caller owns.
  lemma PassedIsCurrent<P>(f: Flow<P>, clock: int, rs: seq<Request<P>>, i: nat)
    requires Sound(f)
    requires i < |HandleAll(f, Empty(clock), rs).log|
    ensures ItemOk(f, HandleAll(f, Empty(clock), rs).log[..i], HandleAll(f, Empty(clock), rs).log[i])
  {
    RunInv(f, clock, rs);
    assert OkAt(f, HandleAll(f, Empty(clock), rs).log, i);
  }

  // A record is found exactly when, by the history, it was written less than 30 minutes ago and not
  // removed since; so Redis never drops one whose code, issued at most 15 minutes ago, is in date.
  lemma TtlCoversCode<P>(f: Flow<P>, clock: int, rs: seq<Request<P>>, key: string)
    requires Sound(f)
    ensures var s := HandleAll(f, Empty(clock), rs);
            var hold, issue := LastHold(f, s.log, key), LastIssue(f, s.log, key);
            && (Get(s, key).Some? <==> hold.Some? && s.clock < hold.value + 1_800_000_000_000)
            && (hold.Some? ==> issue.Some?)
            && (hold.Some? && s.clock <= issue.value.1 + 900_000_000_000 ==> Get(s, key).Some?)
  {
    RunInv(f, clock, rs);
    var s := HandleAll(f, Empty(clock), rs);
    assert KeyInv(f, s, key);
    if key in s.redis {
      assert EntryInv(f, s, key, s.redis[key]);
    }
  }
}
