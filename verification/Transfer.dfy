/** Bank transfers behind an e-mailed code: what the start handler fixes, what a confirmation
    sends upstream, and why a bank that deduplicates on the idempotency key executes each
    challenge at most once, however the handlers interleave. */
module Transfer {
  import opened Text
  import opened Otp
  import opened Wrappers
  import opened Interleaved
  import opened Requests
  import opened Security

  // The part of TransferPending that is not about the code.
  datatype Intent = Intent(
    email: string, amount: string, account: string, accountId: string, document: string,
    holder: string, display: string, memo: string, source: string, idempotencyKey: string)

  datatype Body = Body(amount: string, memo: string, source: string, account: string, accountId: string,
                       document: string)

  // What /v1/me/transfers/resolve answered.
  datatype Resolved = Recipient(holder: string, display: string) | Unresolved

  datatype Built = Built(intent: Intent) | EmailRequired | AmountRequired | OneDestination | RecipientError

  function Given(s: string): nat {
    if s != "" then 1 else 0
  }

  predicate OneOf(account: string, accountId: string, document: string) {
    Given(account) + Given(accountId) + Given(document) == 1
  }

  predicate Valid(p: Intent) {
    && p.amount != "" && Trim(p.amount) == p.amount
    && Trim(p.memo) == p.memo && Trim(p.source) == p.source
    && Trim(p.account) == p.account && Trim(p.accountId) == p.accountId && Trim(p.document) == p.document
    && OneOf(p.account, p.accountId, p.document)
    && p.idempotencyKey != ""
  }

  // transferChallengeStart after the session checks, with `uuid` for uuid.NewString().
  method BuildIntent(email: string, body: Body, resolved: Resolved, uuid: string) returns (r: Built)
    requires uuid != "" && Trimmed(uuid)
    ensures r.EmailRequired? <==> Trim(email) == ""
    ensures r.AmountRequired? <==> Trim(email) != "" && Trim(body.amount) == ""
    ensures r.OneDestination? <==> Trim(email) != "" && Trim(body.amount) != ""
                                   && !OneOf(Trim(body.account), Trim(body.accountId), Trim(body.document))
    ensures r.RecipientError? <==> Trim(email) != "" && Trim(body.amount) != ""
                                   && OneOf(Trim(body.account), Trim(body.accountId), Trim(body.document))
                                   && Trim(body.accountId) == "" && resolved.Unresolved?
    ensures r.Built? ==>
              && Valid(r.intent)
              && r.intent.email == Normalize(email)
              && r.intent.amount == Trim(body.amount) && r.intent.memo == Trim(body.memo)
              && r.intent.source == Trim(body.source)
              && r.intent.account == Trim(body.account) && r.intent.accountId == Trim(body.accountId)
              && r.intent.document == Trim(body.document)
              && r.intent.idempotencyKey == uuid
    ensures r.Built? && Trim(body.accountId) != "" ==> r.intent.holder == "" && r.intent.display == Trim(body.accountId)
    ensures r.Built? && Trim(body.accountId) == "" ==>
              && resolved.Recipient? && r.intent.holder == Trim(resolved.holder)
              && r.intent.display == if resolved.display == "" then Trim(body.account) else Trim(resolved.display)
  {
    if Trim(email) == "" {
      return EmailRequired;
    }
    var amount := Trim(body.amount);
    if amount == "" {
      return AmountRequired;
    }
    var account, accountId, document := Trim(body.account), Trim(body.accountId), Trim(body.document);
    var n := 0;
    if account != "" {
      n := n + 1;
    }
    if accountId != "" {
      n := n + 1;
    }
    if document != "" {
      n := n + 1;
    }
    if n != 1 {
      return OneDestination;
    }
    var holder, display := "", "";
    if accountId == "" {
      if resolved.Unresolved? {
        return RecipientError;
      }
      holder, display := resolved.holder, resolved.display;
      if display == "" {
        display := account;
      }
    } else {
      display := accountId;
    }
    TrimIdempotent(body.amount);
    TrimIdempotent(body.memo);
    TrimIdempotent(body.source);
    TrimIdempotent(body.account);
    TrimIdempotent(body.accountId);
    TrimIdempotent(body.document);
    TrimFixed(uuid);
    return Built(Intent(Normalize(email), Trim(amount), Trim(account), Trim(accountId), Trim(document),
                        Trim(holder), Trim(display), Trim(Trim(body.memo)), Trim(Trim(body.source)), Trim(uuid)));
  }

  // ---- The upstream call

  // amount, memo, source_account_id, destination_account, destination_account_id, destination_document
  datatype Name = Amount | Memo | SourceAccountId | DestinationAccount | DestinationAccountId | DestinationDocument

  function FieldValue(p: Intent, k: Name): string {
    match k
    case Amount => p.amount
    case Memo => p.memo
    case SourceAccountId => p.source
    case DestinationAccount => p.account
    case DestinationAccountId => p.accountId
    case DestinationDocument => p.document
  }

  // The JSON object of a transfer call: the fields that are not empty.
  function Payload(p: Intent): map<Name, string> {
    map k: Name | FieldValue(p, k) != "" :: FieldValue(p, k)
  }

  // transferConfirm's payload map. Its switch names one destination and would drop others; no
  // intent has others.
  method BuildPayload(p: Intent) returns (payload: map<Name, string>)
    requires p.amount != "" && OneOf(p.account, p.accountId, p.document)
    ensures payload == Payload(p)
  {
    payload := map[Amount := p.amount];
    if p.memo != "" {
      payload := payload[Memo := p.memo];
    }
    if p.source != "" {
      payload := payload[SourceAccountId := p.source];
    }
    if p.accountId != "" {
      payload := payload[DestinationAccountId := p.accountId];
    } else if p.account != "" {
      payload := payload[DestinationAccount := p.account];
    } else if p.document != "" {
      payload := payload[DestinationDocument := p.document];
    }
    SaysIntent(payload, p);
  }

  // A map with these fields and no others is the intent's payload.
  lemma SaysIntent(m: map<Name, string>, p: Intent)
    requires forall k: Name :: k in m <==> FieldValue(p, k) != ""
    requires forall k: Name :: k in m ==> m[k] == FieldValue(p, k)
    ensures m == Payload(p)
  {
  }

  function Read(payload: map<Name, string>, k: Name): string {
    if k in payload then payload[k] else ""
  }

  // The call says everything the intent fixed: every field reads back, and exactly one
  // destination field is there.
  lemma PayloadReadsBack(p: Intent)
    requires Valid(p)
    ensures var m := Payload(p);
            && Read(m, Amount) == p.amount && Read(m, Memo) == p.memo && Read(m, SourceAccountId) == p.source
            && Read(m, DestinationAccount) == p.account && Read(m, DestinationAccountId) == p.accountId
            && Read(m, DestinationDocument) == p.document
    ensures OneOf(Read(Payload(p), DestinationAccount), Read(Payload(p), DestinationAccountId),
                  Read(Payload(p), DestinationDocument))
    ensures forall k :: k in Payload(p) ==> Payload(p)[k] != ""
  {
  }

  // ---- The protocol

  function TransferFlow(): Flow<Intent> {
    Flow(id => Trim(id), true, (id, p) => Valid(p), (caller, p) => true, input => true)
  }

  // What the results below need of it; how a record is named matters only in that naming it
  // again changes nothing.
  ghost predicate Transfers(f: Flow<Intent>) {
    Sound(f) && f.deleteFirst && forall id: string, p: Intent :: f.startOk(id, p) ==> Valid(p)
  }

  lemma TransferFlowTransfers()
    ensures Transfers(TransferFlow())
  {
    forall id: string ensures Trim(Trim(id)) == Trim(id) {
      TrimIdempotent(id);
    }
  }

  // A call to /v1/me/transfer: the X-Kalke-User-Sub and Idempotency-Key headers, and the body.
  datatype Call = Call(sub: string, key: string, body: map<Name, string>)

  function CallOf(e: Item<Intent>): Call
    requires e.Effect?
  {
    Call(e.id, e.payload.idempotencyKey, Payload(e.payload))
  }

  function Calls(log: seq<Item<Intent>>): seq<Call> {
    if log == [] then []
    else
      var calls := Calls(log[..|log| - 1]);
      if log[|log| - 1].Effect? then calls + [CallOf(log[|log| - 1])] else calls
  }

  // A bank that executes the first call with a key and answers later ones from its record.
  function Executed(calls: seq<Call>): seq<Call> {
    if calls == [] then []
    else
      var last := calls[|calls| - 1];
      var done := Executed(calls[..|calls| - 1]);
      if exists i :: 0 <= i < |done| && done[i].key == last.key then done else done + [last]
  }

  // uuid.NewString never repeats: different starts bring different keys.
  ghost predicate FreshKeys(es: seq<Event<Intent>>) {
    forall i, j :: 0 <= i < j < |es| && es[i].BeginStart? && es[j].BeginStart? ==>
      es[i].payload.idempotencyKey != es[j].payload.idempotencyKey
  }

  ghost predicate StartedBy(es: seq<Event<Intent>>, key: string) {
    exists i :: 0 <= i < |es| && es[i].BeginStart? && es[i].payload.idempotencyKey == key
  }

  ghost predicate DistinctStarts(log: seq<Item<Intent>>) {
    forall i, j :: 0 <= i < j < |log| && log[i].Started? && log[j].Started? ==>
      log[i].payload.idempotencyKey != log[j].payload.idempotencyKey
  }

  ghost predicate StartsKnown(log: seq<Item<Intent>>, es: seq<Event<Intent>>) {
    forall i :: 0 <= i < |log| && log[i].Started? ==> StartedBy(es, log[i].payload.idempotencyKey)
  }

  lemma StartsKnownStep(log: seq<Item<Intent>>, log': seq<Item<Intent>>, front: seq<Event<Intent>>, e: Event<Intent>)
    requires StartsKnown(log, front)
    requires log' == log || (|log'| == |log| + 1 && log'[..|log|] == log
                             && (log'[|log|].Started? ==> e.BeginStart? && log'[|log|].payload == e.payload))
    ensures StartsKnown(log', front + [e])
  {
    var es := front + [e];
    forall i | 0 <= i < |log'| && log'[i].Started? ensures StartedBy(es, log'[i].payload.idempotencyKey) {
      if i < |log| {
        assert log'[i] == log[i];
        var j :| 0 <= j < |front| && front[j].BeginStart?
            && front[j].payload.idempotencyKey == log[i].payload.idempotencyKey;
        assert es[j] == front[j];
      } else {
        assert es[|front|] == e;
      }
    }
  }

  lemma DistinctStep(log: seq<Item<Intent>>, log': seq<Item<Intent>>, front: seq<Event<Intent>>, e: Event<Intent>)
    requires FreshKeys(front + [e]) && DistinctStarts(log) && StartsKnown(log, front)
    requires log' == log || (|log'| == |log| + 1 && log'[..|log|] == log
                             && (log'[|log|].Started? ==> e.BeginStart? && log'[|log|].payload == e.payload))
    ensures DistinctStarts(log')
  {
    var es := front + [e];
    forall i, j | 0 <= i < j < |log'| && log'[i].Started? && log'[j].Started?
      ensures log'[i].payload.idempotencyKey != log'[j].payload.idempotencyKey
    {
      assert log'[i] == log[i];
      if j < |log| {
        assert log'[j] == log[j];
      } else {
        assert StartedBy(front, log[i].payload.idempotencyKey);
        var k :| 0 <= k < |front| && front[k].BeginStart?
            && front[k].payload.idempotencyKey == log[i].payload.idempotencyKey;
        assert es[k] == front[k] && es[|front|] == e;
      }
    }
  }

  lemma {:induction false} StartsAreDistinct(f: Flow<Intent>, clock: int, es: seq<Event<Intent>>)
    requires FreshKeys(es)
    ensures var log := Run(f, Boot(clock), es).core.log; DistinctStarts(log) && StartsKnown(log, es)
  {
    if es != [] {
      var front, e := es[..|es| - 1], es[|es| - 1];
      assert es == front + [e];
      StartsAreDistinct(f, clock, front);
      var s := Run(f, Boot(clock), front);
      var log' := Next(f, s, e).core.log;
      NextLog(f, s, e);
      StartsKnownStep(s.core.log, log', front, e);
      DistinctStep(s.core.log, log', front, e);
    }
  }

  // Challenge number j fixed this call: its sub, its key and its whole body.
  ghost predicate FixedBy(f: Flow<Intent>, log: seq<Item<Intent>>, j: int, c: Call) {
    && 0 <= j < |log| && log[j].Started? && f.startOk(log[j].id, log[j].payload)
    && f.norm(log[j].id) == f.norm(c.sub)
    && c.key == log[j].payload.idempotencyKey != ""
    && c.body == Payload(log[j].payload)
  }

  lemma {:induction false} CallsComeFromEffects(log: seq<Item<Intent>>, a: nat)
    requires a < |Calls(log)|
    ensures exists i :: 0 <= i < |log| && log[i].Effect? && Calls(log)[a] == CallOf(log[i])
  {
    var front := log[..|log| - 1];
    if a < |Calls(front)| {
      CallsComeFromEffects(front, a);
      var i :| 0 <= i < |front| && front[i].Effect? && Calls(front)[a] == CallOf(front[i]);
      assert log[i] == front[i];
    } else {
      assert log[|log| - 1].Effect?;
    }
  }

  // Every transfer call, in every interleaving, was fixed whole by one earlier start.
  lemma CallIsFixed(f: Flow<Intent>, clock: int, es: seq<Event<Intent>>, a: nat)
    requires Transfers(f)
    requires a < |Calls(Run(f, Boot(clock), es).core.log)|
    ensures var log := Run(f, Boot(clock), es).core.log;
            exists j :: FixedBy(f, log, j, Calls(log)[a])
  {
    var log := Run(f, Boot(clock), es).core.log;
    CallsComeFromEffects(log, a);
    var i :| 0 <= i < |log| && log[i].Effect? && Calls(log)[a] == CallOf(log[i]);
    Provenance(f, clock, es, i);
    var j :| From(f, log, j, f.norm(log[i].id), log[i].payload) && j < i;
    assert FixedBy(f, log, j, Calls(log)[a]);
  }

  // Before this call item p passed a code that item q had issued, at most 15 minutes before, with
  // this very transfer: the same key, the same body, the same user.
  ghost predicate ConfirmedBy(f: Flow<Intent>, log: seq<Item<Intent>>, q: int, p: int, c: Call)
    requires 0 <= q < p < |log|
  {
    && (log[q].Started? || log[q].Rotated?)
    && PassedOn(f, log, q, p, f.norm(c.sub), log[q].payload)
    && c.key == log[q].payload.idempotencyKey
    && c.body == Payload(log[q].payload)
  }

  // What was mailed with the code is what is sent, in every interleaving.
  lemma CallWasConfirmed(f: Flow<Intent>, clock: int, es: seq<Event<Intent>>, a: nat)
    requires Transfers(f)
    requires a < |Calls(Run(f, Boot(clock), es).core.log)|
    ensures var log := Run(f, Boot(clock), es).core.log;
            exists q, p :: 0 <= q < p < |log| && ConfirmedBy(f, log, q, p, Calls(log)[a])
  {
    var log := Run(f, Boot(clock), es).core.log;
    CallsComeFromEffects(log, a);
    var i :| 0 <= i < |log| && log[i].Effect? && Calls(log)[a] == CallOf(log[i]);
    Provenance(f, clock, es, i);
    var q, p :| PassedOn(f, log, q, p, f.norm(log[i].id), log[i].payload) && p < i;
    assert ConfirmedBy(f, log, q, p, Calls(log)[a]);
  }

  // Calls with one key come from one challenge and are the same call; calls of different
  // challenges have different keys.
  lemma KeyNamesOneChallenge(f: Flow<Intent>, clock: int, es: seq<Event<Intent>>, a: nat, b: nat, j: int, k: int)
    requires FreshKeys(es)
    requires var log := Run(f, Boot(clock), es).core.log;
             && a < |Calls(log)| && FixedBy(f, log, j, Calls(log)[a])
             && b < |Calls(log)| && FixedBy(f, log, k, Calls(log)[b])
    ensures var calls := Calls(Run(f, Boot(clock), es).core.log);
            && (calls[a].key == calls[b].key <==> j == k)
            && (j == k ==> calls[a].body == calls[b].body && f.norm(calls[a].sub) == f.norm(calls[b].sub))
  {
    StartsAreDistinct(f, clock, es);
  }

  ghost predicate Answered(done: seq<Call>, key: string) {
    exists j :: 0 <= j < |done| && done[j].key == key
  }

  // The bank executes only calls it got, one for each key.
  lemma {:induction false} ExecutedOnce(calls: seq<Call>)
    ensures forall i, j :: 0 <= i < j < |Executed(calls)| ==> Executed(calls)[i].key != Executed(calls)[j].key
    ensures forall i :: 0 <= i < |Executed(calls)| ==> Executed(calls)[i] in calls
  {
    if calls != [] {
      var front := calls[..|calls| - 1];
      ExecutedOnce(front);
      assert calls == front + [calls[|calls| - 1]];
    }
  }

  lemma {:induction false} EveryKeyAnswered(calls: seq<Call>, i: nat)
    requires i < |calls|
    ensures Answered(Executed(calls), calls[i].key)
  {
    var front := calls[..|calls| - 1];
    var done := Executed(front);
    if i < |front| {
      EveryKeyAnswered(front, i);
      var j :| 0 <= j < |done| && done[j].key == front[i].key;
      assert Executed(calls)[j] == done[j];
    } else if !Answered(done, calls[i].key) {
      assert Executed(calls)[|done|].key == calls[i].key;
    }
  }

  // So the bank executes each challenge at most once, and only as its start fixed it.
  lemma EachChallengeExecutedOnce(f: Flow<Intent>, clock: int, es: seq<Event<Intent>>, x: nat, y: nat, j: int)
    requires var log := Run(f, Boot(clock), es).core.log;
             x < |Executed(Calls(log))| && y < |Executed(Calls(log))|
             && FixedBy(f, log, j, Executed(Calls(log))[x]) && FixedBy(f, log, j, Executed(Calls(log))[y])
    ensures x == y
  {
    var calls := Calls(Run(f, Boot(clock), es).core.log);
    ExecutedOnce(calls);
  }

  lemma ExecutedIsFixed(f: Flow<Intent>, clock: int, es: seq<Event<Intent>>, x: nat)
    requires Transfers(f)
    requires x < |Executed(Calls(Run(f, Boot(clock), es).core.log))|
    ensures var log := Run(f, Boot(clock), es).core.log;
            exists j :: FixedBy(f, log, j, Executed(Calls(log))[x])
  {
    var calls := Calls(Run(f, Boot(clock), es).core.log);
    ExecutedOnce(calls);
    var a :| 0 <= a < |calls| && calls[a] == Executed(calls)[x];
    CallIsFixed(f, clock, es, a);
  }

  // With handlers run one at a time, a code leads to at most one transfer call in the first place.
  lemma OneCallPerCode(f: Flow<Intent>, clock: int, rs: seq<Request<Intent>>, sub: string)
    requires Transfers(f)
    ensures UsesSince(f, HandleAll(f, Empty(clock), rs).log, f.norm(sub)) <= 1
  {
    CodeBounds(f, clock, rs, f.norm(sub));
  }

  // Each call in the history is sent, with that item's user, key and fields.
  lemma {:induction false} EffectIsSent(log: seq<Item<Intent>>, i: nat)
    requires i < |log| && log[i].Effect?
    ensures Call(log[i].id, log[i].payload.idempotencyKey, Payload(log[i].payload)) in Calls(log)
  {
    var front := log[..|log| - 1];
    if i < |front| {
      EffectIsSent(front, i);
    }
  }

  // ---- Whose transfer it is

  // In every interleaving a call is made for the very user, up to surrounding white space, whose earlier
  // start fixed it.
  lemma CallIsItsUsers(clock: int, es: seq<Event<Intent>>, i: nat)
    requires i < |Run(TransferFlow(), Boot(clock), es).core.log|
    requires Run(TransferFlow(), Boot(clock), es).core.log[i].Effect?
    ensures var log := Run(TransferFlow(), Boot(clock), es).core.log;
            exists j :: && 0 <= j < i && log[j].Started? && Trim(log[j].id) == Trim(log[i].id)
                        && log[j].payload == log[i].payload && Valid(log[j].payload)
  {
    TransferFlowTransfers();
    var f := TransferFlow();
    var log := Run(f, Boot(clock), es).core.log;
    Provenance(f, clock, es, i);
    var j :| From(f, log, j, f.norm(log[i].id), log[i].payload) && j < i;
    assert Trim(log[j].id) == Trim(log[i].id);
  }

  // No start, resend or confirmation of one user changes what is found for another.
  lemma OtherUsersKept(s: Core<Intent>, r: Request<Intent>, user: string)
    requires Reachable(TransferFlow(), s) && Trim(r.id) != Trim(user)
    ensures Get(Handle(TransferFlow(), s, r), Trim(user)) == Get(Later(s, r.delay), Trim(user))
  {
    TransferFlowTransfers();
    OthersKept(TransferFlow(), s, r, Trim(user));
  }

  // A valid start whose mail went out leaves its intent under the trimmed sub ...
  lemma StartIsKept(s: Core<Intent>, delay: nat, sub: string, p: Intent, code: string)
    requires Valid(p)
    ensures var s1 := Handle(TransferFlow(), s, StartReq(delay, sub, p, code, true));
            var now := s.clock + delay;
            Get(s1, Trim(sub)) == Some(Challenge(Trim(sub), p, HashOf(code), now, now, now + 900_000_000_000, 0))
  {
    TransferFlowTransfers();
    StartActs(TransferFlow(), s, delay, sub, p, code, true);
  }

  // ... and when the user enters the code within 15 minutes, exactly that transfer is sent, once.
  lemma StartIsSent(s: Core<Intent>, delay: nat, sub: string, p: Intent, code: string, wait: nat, sub': string,
                    typed: string, outcome: Outcome)
    requires Reachable(TransferFlow(), s) && Valid(p) && Trim(sub') == Trim(sub)
    requires Trim(typed) == code != "" && wait <= 900_000_000_000
    ensures var s1 := Handle(TransferFlow(), s, StartReq(delay, sub, p, code, true));
            var s2 := Handle(TransferFlow(), s1, ConfirmReq(wait, sub', sub', typed, "", outcome));
            && s2.log == s.log + [Started(sub, p, code, s.clock + delay), Passed(sub', typed, s.clock + delay + wait),
                                  Effect(sub', sub', p, "", outcome)]
            && Get(s2, Trim(sub)).None?
  {
    TransferFlowTransfers();
    StartThenConfirm(TransferFlow(), s, delay, sub, p, code, wait, sub', sub', typed, "", outcome);
  }

  // ---- Why the idempotency key is needed

  // Every valid transfer can be sent twice: by two confirmations that overlap. Both calls are the same,
  // so a bank that deduplicates on the key executes it once.
  lemma OverlapSendsTwice(clock: int, sub: string, p: Intent, code: string, outcome: Outcome)
    requires Valid(p) && code != "" && Trimmed(code)
    ensures var call := Call(sub, p.idempotencyKey, Payload(p));
            var es := Schedule(1, StartReq(0, sub, p, code, true))
                + Overlap(1, 2, sub, sub, code, "", outcome, outcome);
            var calls := Calls(Run(TransferFlow(), Boot(clock), es).core.log);
            calls == [call, call] && Executed(calls) == [call]
  {
    TransferFlowTransfers();
    var f, r := TransferFlow(), StartReq(0, sub, p, code, true);
    AtomicIsASchedule(f, Boot(clock), 1, r);
    RunOn(f, Boot(clock), Schedule(1, r), Overlap(1, 2, sub, sub, code, "", outcome, outcome));
    var s := Run(f, Boot(clock), Schedule(1, r));
    StartIsKept(Empty(clock), 0, sub, p, code);
    OverlapCallsTwice(f, s, 1, 2, sub, sub, code, "", outcome, outcome);
    var e := Effect(sub, sub, p, "", outcome);
    var log := [Started(sub, p, code, clock), Passed(sub, code, clock), Passed(sub, code, clock)];
    NoCalls(log);
    CallsAppend(log, e);
    CallsAppend(log + [e], e);
    assert s.core.log + [Passed(sub, code, clock), Passed(sub, code, clock), e, e] == log + [e] + [e];
    ExecutedTwice(CallOf(e));
  }

  lemma CallsAppend(log: seq<Item<Intent>>, e: Item<Intent>)
    requires e.Effect?
    ensures Calls(log + [e]) == Calls(log) + [CallOf(e)]
  {
    assert (log + [e])[..|log|] == log;
  }

  lemma {:induction false} NoCalls(log: seq<Item<Intent>>)
    requires forall i :: 0 <= i < |log| ==> !log[i].Effect?
    ensures Calls(log) == []
  {
    if log != [] {
      NoCalls(log[..|log| - 1]);
    }
  }

  lemma ExecutedTwice(c: Call)
    ensures Executed([c, c]) == [c]
  {
    assert [c, c][..1] == [c] && [c][..0] == [];
    assert Executed([c]) == [c];
    assert Executed([c])[0].key == c.key;
  }
}
