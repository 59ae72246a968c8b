/** Changing the account e-mail: the record under the new address names the user who asked, and
    only that user can use or resend its code. */
module EmailChange {
  import opened Text
  import opened Otp
  import opened Requests
  import opened Wrappers

  predicate AcceptableEmail(email: string) {
    Normalize(email) != "" && '@' in Normalize(email)
  }

  // The payload is the record's UserSub.
  function EmailFlow(): Flow<string> {
    Flow(id => Normalize(id), true, (id, owner) => AcceptableEmail(id), (caller, owner) => caller == owner,
         input => true)
  }

  // What the results below need of it; how an address is normalised matters only in that
  // normalising again changes nothing.
  ghost predicate ChangesEmail(f: Flow<string>) {
    Sound(f) && f.deleteFirst && forall caller: string, owner: string :: f.owned(caller, owner) <==> caller == owner
  }

  lemma EmailFlowChangesEmail()
    ensures ChangesEmail(EmailFlow())
  {
    forall id: string ensures Normalize(Normalize(id)) == Normalize(id) {
      NormalizeIdempotent(id);
    }
  }

  // UpdateUserEmail(sub, e) is reached only by the user whose start for e is the latest one, with
  // the code issued last for e, at most 15 minutes after it was issued.
  lemma UpdateIsOwners(f: Flow<string>, clock: int, rs: seq<Request<string>>, i: nat)
    requires ChangesEmail(f)
    requires i < |HandleAll(f, Empty(clock), rs).log| && HandleAll(f, Empty(clock), rs).log[i].Effect?
    ensures var log := HandleAll(f, Empty(clock), rs).log;
            var e := f.norm(log[i].id);
            && i > 0 && log[i - 1].Passed? && f.norm(log[i - 1].id) == e
            && LastStart(f, log[..i], e).Some? && LastStart(f, log[..i], e).value.0 == log[i].caller
            && LastIssue(f, log[..i - 1], e).Some?
            && Trim(log[i - 1].code) == LastIssue(f, log[..i - 1], e).value.0
            && log[i - 1].at <= LastIssue(f, log[..i - 1], e).value.1 + 900_000_000_000
  {
    var log := HandleAll(f, Empty(clock), rs).log;
    PassedIsCurrent(f, clock, rs, i);
    assert i > 0 && log[..i][i - 1] == log[i - 1];
    PassedIsCurrent(f, clock, rs, i - 1);
  }

  // One code, at most one update.
  lemma OneUpdatePerCode(f: Flow<string>, clock: int, rs: seq<Request<string>>, email: string)
    requires ChangesEmail(f)
    ensures UsesSince(f, HandleAll(f, Empty(clock), rs).log, f.norm(email)) <= 1
  {
    CodeBounds(f, clock, rs, f.norm(email));
  }

  // A later start by another user for the same address takes the record over: in every state of every
  // run in which the latest start for the address is not this caller's, this caller's confirmations
  // and resends change nothing, whatever code they offer and whatever became of the other's mail.
  lemma LaterStartTakesOver(f: Flow<string>, clock: int, rs: seq<Request<string>>, caller: string, email: string,
                            code: string, input: string, outcome: Outcome)
    requires ChangesEmail(f)
    requires var start := LastStart(f, HandleAll(f, Empty(clock), rs).log, f.norm(email));
             start.Some? && start.value.0 != caller
    ensures var s := HandleAll(f, Empty(clock), rs);
            && Confirm(f, s, caller, email, code, input, outcome) == s
            && Resend(f, s, caller, email, code) == s
  {
    RunInv(f, clock, rs);
    var s, k := HandleAll(f, Empty(clock), rs), f.norm(email);
    if k in s.redis {
      assert EntryInv(f, s, k, s.redis[k]);
    }
  }

  // The record changes hands only by a start: resending keeps its owner.
  lemma ResendKeepsOwner(f: Flow<string>, clock: int, rs: seq<Request<string>>, caller: string, email: string,
                         code: string)
    requires ChangesEmail(f)
    ensures var s := HandleAll(f, Empty(clock), rs);
            var s1 := Resend(f, s, caller, email, code);
            && s1.redis.Keys == s.redis.Keys
            && (forall k :: k in s.redis ==> s1.redis[k].challenge.payload == s.redis[k].challenge.payload)
            && (s1 != s ==> f.norm(email) in s.redis && s.redis[f.norm(email)].challenge.payload == caller)
  {
    RunInv(f, clock, rs);
    var s := HandleAll(f, Empty(clock), rs);
    var k := f.norm(email);
    if k in s.redis {
      assert EntryInv(f, s, k, s.redis[k]);
    }
  }

  // ---- The handlers' own flow, addresses normalised

  // An update of an address is made by the user whose start for that address is the latest.
  lemma UpdateIsStarters(clock: int, rs: seq<Request<string>>, i: nat)
    requires i < |HandleAll(EmailFlow(), Empty(clock), rs).log|
             && HandleAll(EmailFlow(), Empty(clock), rs).log[i].Effect?
    ensures var log := HandleAll(EmailFlow(), Empty(clock), rs).log;
            exists j :: && 0 <= j < i && log[j].Started? && log[j].payload == log[i].caller
                        && Normalize(log[j].id) == Normalize(log[i].id)
                        && forall k :: j < k < i && log[k].Started? ==> Normalize(log[k].id) != Normalize(log[i].id)
  {
    EmailFlowChangesEmail();
    var f := EmailFlow();
    var log := HandleAll(f, Empty(clock), rs).log;
    UpdateIsOwners(f, clock, rs, i);
    LatestStart(log[..i], Normalize(log[i].id));
    var j :| StartedLast(log[..i], j, Normalize(log[i].id));
    forall k | j < k < i && log[k].Started? ensures Normalize(log[k].id) != Normalize(log[i].id) {
      assert log[..i][k] == log[k];
    }
  }

  ghost predicate StartedLast(log: seq<Item<string>>, j: int, e: string) {
    && 0 <= j < |log| && log[j].Started? && Normalize(log[j].id) == e
    && LastStart(EmailFlow(), log, e) == Some((log[j].payload, log[j].at))
    && forall k :: j < k < |log| && log[k].Started? ==> Normalize(log[k].id) != e
  }

  lemma {:induction false} LatestStart(log: seq<Item<string>>, e: string)
    requires LastStart(EmailFlow(), log, e).Some?
    ensures exists j :: StartedLast(log, j, e)
  {
    var front, last := log[..|log| - 1], log[|log| - 1];
    if last.Started? && Normalize(last.id) == e {
      assert StartedLast(log, |log| - 1, e);
    } else {
      assert LastStart(EmailFlow(), log, e) == LastStart(EmailFlow(), front, e);
      LatestStart(front, e);
      var j :| StartedLast(front, j, e);
      assert StartedLast(log, j, e);
    }
  }

  lemma OtherAddressesKept(s: Core<string>, r: Request<string>, email: string)
    requires Reachable(EmailFlow(), s) && Normalize(r.id) != Normalize(email)
    ensures Get(Handle(EmailFlow(), s, r), Normalize(email)) == Get(Later(s, r.delay), Normalize(email))
  {
    EmailFlowChangesEmail();
    OthersKept(EmailFlow(), s, r, Normalize(email));
  }

  // A user who starts for an acceptable address and enters the code within 15 minutes changes to it, once.
  lemma StartIsUpdated(s: Core<string>, delay: nat, user: string, email: string, code: string, wait: nat,
                       email': string, typed: string, outcome: Outcome)
    requires Reachable(EmailFlow(), s)
    requires Normalize(email) != "" && '@' in Normalize(email) && Normalize(email') == Normalize(email)
    requires Trim(typed) == code != "" && wait <= 900_000_000_000
    ensures var s1 := Handle(EmailFlow(), s, StartReq(delay, email, user, code, true));
            var s2 := Handle(EmailFlow(), s1, ConfirmReq(wait, user, email', typed, "", outcome));
            && s2.log == s.log + [Started(email, user, code, s.clock + delay),
                                  Passed(email', typed, s.clock + delay + wait),
                                  Effect(email', user, user, "", outcome)]
            && Get(s2, Normalize(email)).None?
  {
    EmailFlowChangesEmail();
    StartThenConfirm(EmailFlow(), s, delay, email, user, code, wait, user, email', typed, "", outcome);
  }
}
