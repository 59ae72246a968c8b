/** What each request to a challenge flow does, by the history alone: when it must act, when it must
    refuse, and that it leaves every other record as it is. Times are written out: 30 minutes are
    1_800_000_000_000 nanoseconds, 15 are 900_000_000_000, 2 are 120_000_000_000. */
module Requests {
  import opened Otp
  import opened Security
  import opened Text
  import opened Wrappers

  // s is where some run of the flow's requests ends.
  ghost predicate Reachable<P(!new)>(f: Flow<P>, s: Core<P>) {
    exists clock, rs :: s == HandleAll(f, Empty(clock), rs)
  }

  lemma ReachableInv<P(!new)>(f: Flow<P>, s: Core<P>)
    requires Sound(f) && Reachable(f, s)
    ensures Inv(f, s)
  {
    var clock, rs :| s == HandleAll(f, Empty(clock), rs);
    RunInv(f, clock, rs);
  }

  lemma ReachableNext<P(!new)>(f: Flow<P>, s: Core<P>, r: Request<P>)
    requires Reachable(f, s)
    ensures Reachable(f, Handle(f, s, r))
  {
    var clock, rs :| s == HandleAll(f, Empty(clock), rs);
    assert (rs + [r])[..|rs|] == rs;
    assert Handle(f, s, r) == HandleAll(f, Empty(clock), rs + [r]);
  }

  // s once `delay` has passed.
  function Later<P>(s: Core<P>, delay: nat): Core<P> {
    Core(s.redis, s.clock + delay, s.log)
  }

  // Records other than k are found as before.
  ghost predicate Elsewhere<P>(s: Core<P>, s1: Core<P>, k: string) {
    s1.clock == s.clock && forall other :: other != k ==> Get(s1, other) == Get(s, other)
  }

  // ---- Start

  ghost predicate Begun<P>(f: Flow<P>, s: Core<P>, s1: Core<P>, id: string, payload: P, code: string, mailed: bool) {
    var k, now := f.norm(id), s.clock;
    && Elsewhere(s, s1, k)
    && s1.log == s.log + [Started(id, payload, code, now)] + (if mailed then [] else [Unsent(k)])
    && Get(s1, k) == if !mailed then None
                     else Some(Challenge(k, payload, HashOf(code), now, now, now + 900_000_000_000, 0))
  }

  // A start that passes its checks leaves a fresh record for 15 minutes, or none when the mail did
  // not go out; one that does not pass them does nothing.
  lemma StartActs<P>(f: Flow<P>, s: Core<P>, delay: nat, id: string, payload: P, code: string, mailed: bool)
    requires Sound(f)
    ensures var now := Later(s, delay);
            var s1 := Handle(f, s, StartReq(delay, id, payload, code, mailed));
            if f.startOk(id, payload) then Begun(f, now, s1, id, payload, code, mailed) else s1 == now
  {
  }

  // ---- Resend

  // The history says that the record is there, whose it is, and that its last mail is two minutes old.
  ghost predicate Due<P>(f: Flow<P>, s: Core<P>, caller: string, k: string) {
    var hold, issue, start := LastHold(f, s.log, k), LastIssue(f, s.log, k), LastStart(f, s.log, k);
    && hold.Some? && issue.Some? && start.Some?
    && s.clock < hold.value + 1_800_000_000_000
    && f.owned(caller, start.value.0)
    && s.clock >= issue.value.1 + 120_000_000_000
  }

  // A new code with all its tries, for the same payload; the challenge's start stays what it was.
  ghost predicate Renewed<P>(f: Flow<P>, s: Core<P>, s1: Core<P>, k: string, code: string)
    requires LastStart(f, s.log, k).Some?
  {
    var payload := LastStart(f, s.log, k).value.0;
    && Elsewhere(s, s1, k)
    && s1.log == s.log + [Rotated(k, payload, code, s.clock)]
    && LastIssue(f, s1.log, k) == Some((code, s.clock)) && LastStart(f, s1.log, k) == LastStart(f, s.log, k)
    && WrongSince(f, s1.log, k) == 0
    && Get(s1, k) == Some(Challenge(k, payload, HashOf(code), LastStart(f, s.log, k).value.1, s.clock,
                                    s.clock + 900_000_000_000, 0))
  }

  // A resend renews the code exactly when it is due and else does nothing.
  lemma ResendActs<P(!new)>(f: Flow<P>, s: Core<P>, delay: nat, caller: string, id: string, code: string)
    requires Sound(f) && Reachable(f, s)
    ensures var now, k := Later(s, delay), f.norm(id);
            var s1 := Handle(f, s, ResendReq(delay, caller, id, code));
            if Due(f, now, caller, k) then Renewed(f, now, s1, k, code) else s1 == now
  {
    ReachableInv(f, s);
    WaitInv(f, s, delay);
    var now, k := Later(s, delay), f.norm(id);
    assert KeyInv(f, now, k);
    if k in now.redis {
      var c := now.redis[k].challenge;
      assert EntryInv(f, now, k, now.redis[k]);
      ReadAppend(f, now.log, Rotated(k, c.payload, code, now.clock), k);
    }
  }

  // ---- Confirm

  // There is a record to confirm, it is this caller's, and the request is complete.
  ghost predicate Answerable<P>(f: Flow<P>, s: Core<P>, caller: string, k: string, code: string, input: string) {
    var hold, start := LastHold(f, s.log, k), LastStart(f, s.log, k);
    && Trim(code) != "" && f.inputOk(input)
    && hold.Some? && start.Some? && LastIssue(f, s.log, k).Some?
    && s.clock < hold.value + 1_800_000_000_000
    && f.owned(caller, start.value.0)
  }

  // What the history makes of an answerable confirmation.
  ghost predicate Answered<P>(f: Flow<P>, s: Core<P>, s1: Core<P>, caller: string, id: string, code: string,
                              input: string, outcome: Outcome)
    requires LastIssue(f, s.log, f.norm(id)).Some? && LastStart(f, s.log, f.norm(id)).Some?
  {
    var k := f.norm(id);
    var issue, payload := LastIssue(f, s.log, k).value, LastStart(f, s.log, k).value.0;
    && Elsewhere(s, s1, k)
    && if WrongSince(f, s.log, k) >= 5 || s.clock > issue.1 + 900_000_000_000 then
         // out of tries or out of date: refused, and the record goes
         s1.log == s.log + [Dropped(id)] && Get(s1, k) == None
       else if Trim(code) == issue.0 then
         // the latest code: the call is made, with the latest start's payload
         && s1.log == s.log + [Passed(id, code, s.clock), Effect(id, caller, payload, input, outcome)]
         && Get(s1, k) == if f.deleteFirst || outcome != Failed then None else Get(s, k)
       else
         // another code: counted, and nothing else about the record changes
         && s1.log == s.log + [Wrong(id, s.clock)]
         && Get(s, k).Some? && Get(s1, k) == Some(Get(s, k).value.(attempts := WrongSince(f, s.log, k) + 1))
  }

  // The record under k, as the history knows it.
  ghost predicate Recorded<P>(f: Flow<P>, s: Core<P>, k: string, c: Challenge<P>) {
    && Get(s, k) == Some(c) && c.id == k == f.norm(k)
    && LastIssue(f, s.log, k) == Some((c.otpHash.secret, c.lastSentAt))
    && LastStart(f, s.log, k) == Some((c.payload, c.createdAt))
    && c.attempts == WrongSince(f, s.log, k)
    && c.otpExpiresAt == c.lastSentAt + 900_000_000_000
  }

  lemma FoundIsHeld<P>(f: Flow<P>, s: Core<P>, k: string)
    requires Inv(f, s)
    ensures var hold := LastHold(f, s.log, k);
            Get(s, k).Some? <==> hold.Some? && s.clock < hold.value + 1_800_000_000_000
    ensures Get(s, k).Some? ==> Recorded(f, s, k, Get(s, k).value)
  {
    assert KeyInv(f, s, k);
    if k in s.redis {
      assert EntryInv(f, s, k, s.redis[k]);
    }
  }

  lemma ConfirmRecorded<P>(f: Flow<P>, s: Core<P>, caller: string, id: string, code: string, input: string,
                           outcome: Outcome, c: Challenge<P>)
    requires Recorded(f, s, f.norm(id), c) && f.owned(caller, c.payload) && Trim(code) != "" && f.inputOk(input)
    ensures Answered(f, s, Confirm(f, s, caller, id, code, input, outcome), caller, id, code, input, outcome)
  {
  }

  // A confirmation is answered as the history demands and else does nothing.
  lemma ConfirmActs<P(!new)>(f: Flow<P>, s: Core<P>, delay: nat, caller: string, id: string, code: string,
                             input: string, outcome: Outcome)
    requires Sound(f) && Reachable(f, s)
    ensures var now, k := Later(s, delay), f.norm(id);
            var s1 := Handle(f, s, ConfirmReq(delay, caller, id, code, input, outcome));
            if Answerable(f, now, caller, k, code, input) then Answered(f, now, s1, caller, id, code, input, outcome)
            else s1 == now
  {
    ReachableInv(f, s);
    WaitInv(f, s, delay);
    var now, k := Later(s, delay), f.norm(id);
    FoundIsHeld(f, now, k);
    if Answerable(f, now, caller, k, code, input) {
      ConfirmRecorded(f, now, caller, id, code, input, outcome, Get(now, k).value);
    }
  }

  // ---- Consequences, for the flows to instantiate

  // No request for one name changes what is found under another.
  lemma OthersKept<P(!new)>(f: Flow<P>, s: Core<P>, r: Request<P>, key: string)
    requires Sound(f) && Reachable(f, s) && f.norm(r.id) != key
    ensures Get(Handle(f, s, r), key) == Get(Later(s, r.delay), key)
  {
    match r
    case StartReq(delay, id, payload, code, mailed) => StartActs(f, s, delay, id, payload, code, mailed);
    case ResendReq(delay, caller, id, code) => ResendActs(f, s, delay, caller, id, code);
    case ConfirmReq(delay, caller, id, code, input, outcome) =>
      ConfirmActs(f, s, delay, caller, id, code, input, outcome);
  }

  // A start whose mail went out and the code entered within 15 minutes: exactly one call, with what was
  // started, whatever was in the store before.
  lemma StartThenConfirm<P(!new)>(f: Flow<P>, s: Core<P>, delay: nat, id: string, payload: P, code: string,
                            wait: nat, caller: string, id': string, typed: string, input: string, outcome: Outcome)
    requires Sound(f) && Reachable(f, s)
    requires f.startOk(id, payload) && f.norm(id') == f.norm(id) && f.owned(caller, payload) && f.inputOk(input)
    requires Trim(typed) == code != "" && wait <= 900_000_000_000
    ensures var s1 := Handle(f, s, StartReq(delay, id, payload, code, true));
            var s2 := Handle(f, s1, ConfirmReq(wait, caller, id', typed, input, outcome));
            && s2.log == s.log + [Started(id, payload, code, s.clock + delay),
                                  Passed(id', typed, s.clock + delay + wait),
                                  Effect(id', caller, payload, input, outcome)]
            && (Get(s2, f.norm(id)).None? <==> f.deleteFirst || outcome != Failed)
  {
    var r := StartReq(delay, id, payload, code, true);
    var s1 := Handle(f, s, r);
    StartActs(f, s, delay, id, payload, code, true);
    ReachableNext(f, s, r);
    ReadAppend(f, s.log, Started(id, payload, code, s.clock + delay), f.norm(id));
    assert s1.log == s.log + [Started(id, payload, code, s.clock + delay)];
    ConfirmActs(f, s1, wait, caller, id', typed, input, outcome);
  }
}
