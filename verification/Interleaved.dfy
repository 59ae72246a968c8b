/** The same handlers taken apart: every Redis command, mail and upstream call is its own step,
    commands may fail, handlers may stop anywhere, and any number of them interleave. */
module Interleaved {
  import opened Otp
  import opened Security
  import opened Text
  import opened Wrappers

  // Where a handler stands, with the copy of the record it carries.
  datatype Pc<P> =
    | ToPut(c: Challenge<P>, first: bool)                    // record built, before SET
    | ToMail(c: Challenge<P>, first: bool)                   // before the mail
    | ToUndo(id: string)                                     // a start's mail failed, before DEL
    | ToRotate(c: Challenge<P>)                              // resend, after GET
    | ToVerify(c: Challenge<P>, id: string, caller: string, code: string, input: string)
    | ToPersist(c: Challenge<P>, id: string, verdict: Verdict) // code rejected, before SET
    | ToDiscard(id: string)                                  // before the DEL that ends a handler
    | ToClear(c: Challenge<P>, id: string, caller: string, input: string) // passed, before DEL
    | ToEffect(c: Challenge<P>, id: string, caller: string, input: string) // before the call

  datatype Sys<P> = Sys(core: Core<P>, threads: map<int, Pc<P>>)

  datatype Event<P> =
    | BeginStart(tid: int, delay: nat, id: string, payload: P, code: string)
    | BeginResend(tid: int, delay: nat, caller: string, id: string)
    | BeginConfirm(tid: int, delay: nat, caller: string, id: string, code: string, input: string)
    // The handler's next step: `ok` is the command's own outcome, `code` a fresh random code,
    // `outcome` what the call behind a passed code answered.
    | Step(tid: int, delay: nat, ok: bool, code: string, outcome: Outcome)

  function At<P>(s: Sys<P>, tid: int, pc: Pc<P>): Sys<P> {
    s.(threads := s.threads[tid := pc])
  }

  function End<P>(s: Sys<P>, tid: int): Sys<P> {
    s.(threads := s.threads - {tid})
  }

  function On<P>(s: Sys<P>, core: Core<P>): Sys<P> {
    s.(core := core)
  }

  function Advance<P>(f: Flow<P>, s: Sys<P>, tid: int, ok: bool, code: string, outcome: Outcome): Sys<P>
    requires tid in s.threads
  {
    var core := s.core;
    match s.threads[tid]
    case ToPut(c, first) =>
      if ok then At(On(s, Put(f, core, c)), tid, ToMail(c, first)) else End(s, tid)
    case ToMail(c, first) =>
      if !ok && first then At(On(s, Log(core, Unsent(c.id))), tid, ToUndo(c.id)) else End(s, tid)
    case ToUndo(id) =>
      End(if ok then On(s, Delete(f, core, id)) else s, tid)
    case ToRotate(c) =>
      if ResendAllowed(c, core.clock)
      then At(On(s, Log(core, Rotated(c.id, c.payload, code, core.clock))), tid,
              ToPut(Rotate(c, code, core.clock), false))
      else End(s, tid)
    case ToVerify(c, id, caller, guess, input) =>
      var (c', verdict) := Verify(c, guess, core.clock);
      if verdict == Accepted then
        var passed := On(s, Log(core, Passed(id, guess, core.clock)));
        At(passed, tid, if f.deleteFirst then ToClear(c', id, caller, input) else ToEffect(c', id, caller, input))
      else
        At(On(s, Log(core, if verdict == Invalid then Wrong(id, core.clock) else Dropped(id))), tid,
           ToPersist(c', id, verdict))
    case ToPersist(c, id, verdict) =>
      var stored := if ok then On(s, Put(f, core, c)) else s;
      if verdict == Invalid then End(stored, tid) else At(stored, tid, ToDiscard(id))
    case ToDiscard(id) =>
      End(if ok then On(s, Delete(f, core, id)) else s, tid)
    case ToClear(c, id, caller, input) =>
      At(if ok then On(s, Delete(f, core, id)) else s, tid, ToEffect(c, id, caller, input))
    case ToEffect(c, id, caller, input) =>
      var called := On(s, Log(core, Effect(id, caller, c.payload, input, outcome)));
      if f.deleteFirst || outcome == Failed then End(called, tid) else At(called, tid, ToDiscard(id))
  }

  function Next<P>(f: Flow<P>, s: Sys<P>, e: Event<P>): Sys<P> {
    var s1 := On(s, Wait(s.core, e.delay));
    if e.Step? then (if e.tid in s1.threads then Advance(f, s1, e.tid, e.ok, e.code, e.outcome) else s1)
    else if e.tid in s1.threads then s1
    else
      match e
      case BeginStart(tid, _, id, payload, code) =>
        if !f.startOk(id, payload) then s1
        else At(On(s1, Log(s1.core, Started(id, payload, code, s1.core.clock))), tid,
                ToPut(New(f, id, payload, code, s1.core.clock), true))
      case BeginResend(tid, _, caller, id) =>
        var found := Get(s1.core, f.norm(id));
        if found.None? || !f.owned(caller, found.value.payload) then s1 else At(s1, tid, ToRotate(found.value))
      case BeginConfirm(tid, _, caller, id, code, input) =>
        var found := Get(s1.core, f.norm(id));
        if Blank(code) || !f.inputOk(input) || found.None? || !f.owned(caller, found.value.payload) then s1
        else At(s1, tid, ToVerify(found.value, id, caller, code, input))
  }

  function Run<P>(f: Flow<P>, s: Sys<P>, es: seq<Event<P>>): Sys<P> {
    if es == [] then s else Next(f, Run(f, s, es[..|es| - 1]), es[|es| - 1])
  }

  function Boot<P>(clock: int): Sys<P> {
    Sys(Empty(clock), map[])
  }

  // ---- Provenance: no record anywhere mixes two challenges or outlives the facts of its start

  // Start number i recorded exactly this record's name and payload.
  ghost predicate From<P>(f: Flow<P>, log: seq<Item<P>>, i: int, key: string, payload: P) {
    && 0 <= i < |log| && log[i].Started?
    && f.norm(log[i].id) == key && log[i].payload == payload && f.startOk(log[i].id, payload)
  }

  ghost predicate Genuine<P>(f: Flow<P>, log: seq<Item<P>>, key: string, payload: P) {
    exists i :: From(f, log, i, key, payload)
  }

  // Item number j issued, for this payload, the code that the record's hash and dates are about.
  ghost predicate IssuedBy<P>(f: Flow<P>, log: seq<Item<P>>, j: int, c: Challenge<P>) {
    && 0 <= j < |log| && Issues(f, log[j], c.id)
    && log[j].payload == c.payload && c.otpHash == HashOf(log[j].code) && log[j].at == c.lastSentAt
  }

  ghost predicate Current<P>(f: Flow<P>, log: seq<Item<P>>, c: Challenge<P>) {
    exists j :: IssuedBy(f, log, j, c)
  }

  ghost predicate RecordOk<P>(f: Flow<P>, core: Core<P>, c: Challenge<P>) {
    && f.norm(c.id) == c.id
    && Genuine(f, core.log, c.id, c.payload)
    && Current(f, core.log, c)
    && c.lastSentAt <= core.clock
    && c.otpExpiresAt == c.lastSentAt + OTP_TTL
  }

  ghost predicate UserOk<P>(f: Flow<P>, c: Challenge<P>, id: string, caller: string, input: string) {
    c.id == f.norm(id) && f.owned(caller, c.payload) && f.inputOk(input)
  }

  // Item p passed the code that item j had issued for this record and payload, in date.
  ghost predicate PassedOn<P>(f: Flow<P>, log: seq<Item<P>>, j: int, p: int, key: string, payload: P) {
    && 0 <= j < p < |log|
    && Issues(f, log[j], key) && log[j].payload == payload
    && log[p].Passed? && f.norm(log[p].id) == key
    && Trim(log[p].code) == log[j].code
    && log[j].at <= log[p].at <= log[j].at + 900_000_000_000
  }

  ghost predicate Entered<P>(f: Flow<P>, log: seq<Item<P>>, key: string, payload: P) {
    exists j, p :: PassedOn(f, log, j, p, key, payload)
  }

  ghost predicate PcOk<P>(f: Flow<P>, core: Core<P>, pc: Pc<P>) {
    match pc
    case ToPut(c, _) => RecordOk(f, core, c)
    case ToMail(c, _) => RecordOk(f, core, c)
    case ToUndo(_) => true
    case ToRotate(c) => RecordOk(f, core, c)
    case ToVerify(c, id, caller, _, input) => RecordOk(f, core, c) && UserOk(f, c, id, caller, input)
    case ToPersist(c, _, _) => RecordOk(f, core, c)
    case ToDiscard(_) => true
    case ToClear(c, id, caller, input) =>
      RecordOk(f, core, c) && UserOk(f, c, id, caller, input) && Entered(f, core.log, c.id, c.payload)
    case ToEffect(c, id, caller, input) =>
      RecordOk(f, core, c) && UserOk(f, c, id, caller, input) && Entered(f, core.log, c.id, c.payload)
  }

  ghost predicate StoredOk<P>(f: Flow<P>, core: Core<P>, key: string) {
    && key in core.redis
    && core.redis[key].challenge.id == key
    && RecordOk(f, core, core.redis[key].challenge)
    && core.redis[key].deadline >= core.redis[key].challenge.lastSentAt + CHALLENGE_TTL
  }

  ghost predicate CallOk<P>(f: Flow<P>, log: seq<Item<P>>, i: int) {
    0 <= i < |log| && log[i].Effect? ==>
      && Genuine(f, log[..i], f.norm(log[i].id), log[i].payload)
      && Entered(f, log[..i], f.norm(log[i].id), log[i].payload)
      && f.owned(log[i].caller, log[i].payload) && f.inputOk(log[i].input)
  }

  ghost predicate Inv<P>(f: Flow<P>, s: Sys<P>) {
    && (forall key :: key in s.core.redis ==> StoredOk(f, s.core, key))
    && (forall tid :: tid in s.threads ==> PcOk(f, s.core, s.threads[tid]))
    && (forall i :: CallOk(f, s.core.log, i))
  }

  // The history and the clock only grow, so what was true of a record stays true.
  ghost predicate Grown<P>(a: Core<P>, b: Core<P>) {
    a.clock <= b.clock && a.log <= b.log
  }

  lemma GenuineStays<P>(f: Flow<P>, a: seq<Item<P>>, b: seq<Item<P>>, key: string, payload: P)
    requires a <= b && Genuine(f, a, key, payload)
    ensures Genuine(f, b, key, payload)
  {
    var i :| From(f, a, i, key, payload);
    assert From(f, b, i, key, payload);
  }

  lemma RecordStays<P>(f: Flow<P>, a: Core<P>, b: Core<P>, c: Challenge<P>)
    requires Grown(a, b) && RecordOk(f, a, c)
    ensures RecordOk(f, b, c)
  {
    GenuineStays(f, a.log, b.log, c.id, c.payload);
    var j :| IssuedBy(f, a.log, j, c);
    assert IssuedBy(f, b.log, j, c);
  }

  lemma EnteredStays<P>(f: Flow<P>, a: seq<Item<P>>, b: seq<Item<P>>, key: string, payload: P)
    requires a <= b && Entered(f, a, key, payload)
    ensures Entered(f, b, key, payload)
  {
    var j, p :| PassedOn(f, a, j, p, key, payload);
    assert PassedOn(f, b, j, p, key, payload);
  }

  lemma PcStays<P>(f: Flow<P>, a: Core<P>, b: Core<P>, pc: Pc<P>)
    requires Grown(a, b) && PcOk(f, a, pc)
    ensures PcOk(f, b, pc)
  {
    if !pc.ToUndo? && !pc.ToDiscard? {
      RecordStays(f, a, b, pc.c);
      if pc.ToClear? || pc.ToEffect? {
        EnteredStays(f, a.log, b.log, pc.c.id, pc.c.payload);
      }
    }
  }

  // A step that replaces one thread and keeps or improves the store keeps the invariant.
  lemma Frame<P>(f: Flow<P>, s: Sys<P>, s1: Sys<P>, tid: int)
    requires Inv(f, s) && Grown(s.core, s1.core)
    requires forall key :: key in s1.core.redis ==>
               (key in s.core.redis && s1.core.redis[key] == s.core.redis[key]) || StoredOk(f, s1.core, key)
    requires s1.threads - {tid} == s.threads - {tid} && (tid in s1.threads ==> PcOk(f, s1.core, s1.threads[tid]))
    requires forall i :: |s.core.log| <= i < |s1.core.log| ==> CallOk(f, s1.core.log, i)
    ensures Inv(f, s1)
  {
    forall key | key in s1.core.redis ensures StoredOk(f, s1.core, key) {
      if key in s.core.redis && s1.core.redis[key] == s.core.redis[key] {
        assert StoredOk(f, s.core, key);
        RecordStays(f, s.core, s1.core, s.core.redis[key].challenge);
      }
    }
    forall t | t in s1.threads ensures PcOk(f, s1.core, s1.threads[t]) {
      if t != tid {
        assert t in s1.threads - {tid};
        assert s1.threads[t] == (s1.threads - {tid})[t] == s.threads[t];
        PcStays(f, s.core, s1.core, s.threads[t]);
      }
    }
    forall i ensures CallOk(f, s1.core.log, i) {
      if 0 <= i < |s.core.log| {
        assert CallOk(f, s.core.log, i);
        assert s1.core.log[..i] == s.core.log[..i];
      }
    }
  }

  lemma PutInv<P>(f: Flow<P>, s: Sys<P>, tid: int, c: Challenge<P>, pc: Option<Pc<P>>)
    requires Sound(f) && Inv(f, s) && RecordOk(f, s.core, c)
    requires pc.Some? ==> PcOk(f, s.core, pc.value)
    ensures var s1 := On(s, Put(f, s.core, c));
            Inv(f, if pc.Some? then At(s1, tid, pc.value) else End(s1, tid))
  {
    var s1 := On(s, Put(f, s.core, c));
    if pc.Some? { PcStays(f, s.core, s1.core, pc.value); }
    Frame(f, s, if pc.Some? then At(s1, tid, pc.value) else End(s1, tid), tid);
  }

  // Deleting, or doing nothing to the store.
  lemma DeleteInv<P>(f: Flow<P>, s: Sys<P>, tid: int, ok: bool, id: string, pc: Option<Pc<P>>)
    requires Inv(f, s) && (pc.Some? ==> PcOk(f, s.core, pc.value))
    ensures var s1 := if ok then On(s, Delete(f, s.core, id)) else s;
            Inv(f, if pc.Some? then At(s1, tid, pc.value) else End(s1, tid))
  {
    var s1 := if ok then On(s, Delete(f, s.core, id)) else s;
    if pc.Some? { PcStays(f, s.core, s1.core, pc.value); }
    Frame(f, s, if pc.Some? then At(s1, tid, pc.value) else End(s1, tid), tid);
  }

  lemma LogInv<P>(f: Flow<P>, s: Sys<P>, tid: int, item: Item<P>, pc: Option<Pc<P>>)
    requires Inv(f, s)
    requires pc.Some? ==> PcOk(f, Log(s.core, item), pc.value)
    requires item.Effect? ==>
               && Genuine(f, s.core.log, f.norm(item.id), item.payload)
               && Entered(f, s.core.log, f.norm(item.id), item.payload)
               && f.owned(item.caller, item.payload) && f.inputOk(item.input)
    ensures var s1 := On(s, Log(s.core, item));
            Inv(f, if pc.Some? then At(s1, tid, pc.value) else End(s1, tid))
  {
    var s1 := On(s, Log(s.core, item));
    assert s1.core.log[..|s.core.log|] == s.core.log;
    Frame(f, s, if pc.Some? then At(s1, tid, pc.value) else End(s1, tid), tid);
  }

  // An accepted code is the one the record was issued, so its pass is backed by that issue.
  lemma PassEnters<P>(f: Flow<P>, core: Core<P>, c: Challenge<P>, passed: Item<P>)
    requires RecordOk(f, core, c) && passed.Passed? && f.norm(passed.id) == c.id && passed.at == core.clock
    requires CheckSecret(Trim(passed.code), c.otpHash) && core.clock <= c.otpExpiresAt
    ensures Entered(f, Log(core, passed).log, c.id, c.payload)
  {
    var j :| IssuedBy(f, core.log, j, c);
    assert PassedOn(f, Log(core, passed).log, j, |core.log|, c.id, c.payload);
  }

  lemma VerifyStepInv<P>(f: Flow<P>, s: Sys<P>, tid: int)
    requires Sound(f) && Inv(f, s) && tid in s.threads && s.threads[tid].ToVerify?
    ensures forall ok, code, outcome :: Inv(f, Advance(f, s, tid, ok, code, outcome))
  {
    var pc := s.threads[tid];
    assert PcOk(f, s.core, pc);
    var (c, verdict) := Verify(pc.c, pc.code, s.core.clock);
    var j :| IssuedBy(f, s.core.log, j, pc.c);
    assert IssuedBy(f, s.core.log, j, c);
    match verdict
    case Accepted =>
      var passed := Passed(pc.id, pc.code, s.core.clock);
      PassEnters(f, s.core, pc.c, passed);
      RecordStays(f, s.core, Log(s.core, passed), c);
      LogInv(f, s, tid, passed,
             Some(if f.deleteFirst then ToClear(c, pc.id, pc.caller, pc.input)
                  else ToEffect(c, pc.id, pc.caller, pc.input)));
    case Invalid =>
      RecordStays(f, s.core, Log(s.core, Wrong(pc.id, s.core.clock)), c);
      LogInv(f, s, tid, Wrong(pc.id, s.core.clock), Some(ToPersist(c, pc.id, verdict)));
    case _ =>
      RecordStays(f, s.core, Log(s.core, Dropped(pc.id)), c);
      LogInv(f, s, tid, Dropped(pc.id), Some(ToPersist(c, pc.id, verdict)));
  }

  lemma AdvanceInv<P>(f: Flow<P>, s: Sys<P>, tid: int, ok: bool, code: string, outcome: Outcome)
    requires Sound(f) && Inv(f, s) && tid in s.threads
    ensures Inv(f, Advance(f, s, tid, ok, code, outcome))
  {
    assert PcOk(f, s.core, s.threads[tid]);
    match s.threads[tid]
    case ToPut(c, first) =>
      if ok { PutInv(f, s, tid, c, Some(ToMail(c, first))); } else { DeleteInv(f, s, tid, false, c.id, None); }
    case ToMail(c, first) =>
      if !ok && first {
        LogInv(f, s, tid, Unsent(c.id), Some(ToUndo(c.id)));
      } else {
        DeleteInv(f, s, tid, false, c.id, None);
      }
    case ToUndo(id) => DeleteInv(f, s, tid, ok, id, None);
    case ToRotate(c) =>
      if ResendAllowed(c, s.core.clock) {
        var item := Rotated(c.id, c.payload, code, s.core.clock);
        GenuineStays(f, s.core.log, Log(s.core, item).log, c.id, c.payload);
        assert IssuedBy(f, Log(s.core, item).log, |s.core.log|, Rotate(c, code, s.core.clock));
        LogInv(f, s, tid, item, Some(ToPut(Rotate(c, code, s.core.clock), false)));
      } else {
        DeleteInv(f, s, tid, false, c.id, None);
      }
    case ToVerify(_, _, _, _, _) => VerifyStepInv(f, s, tid);
    case ToPersist(c, id, verdict) =>
      var next := if verdict == Invalid then None else Some(ToDiscard(id));
      if ok { PutInv(f, s, tid, c, next); } else { DeleteInv(f, s, tid, false, id, next); }
    case ToDiscard(id) => DeleteInv(f, s, tid, ok, id, None);
    case ToClear(c, id, caller, input) => DeleteInv(f, s, tid, ok, id, Some(ToEffect(c, id, caller, input)));
    case ToEffect(c, id, caller, input) =>
      LogInv(f, s, tid, Effect(id, caller, c.payload, input, outcome),
             if f.deleteFirst || outcome == Failed then None else Some(ToDiscard(id)));
  }

  lemma NextInv<P>(f: Flow<P>, s: Sys<P>, e: Event<P>)
    requires Sound(f) && Inv(f, s)
    ensures Inv(f, Next(f, s, e))
  {
    var s0 := On(s, Wait(s.core, e.delay));
    Frame(f, s, s0, e.tid) by {
      if e.tid in s.threads { PcStays(f, s.core, s0.core, s.threads[e.tid]); }
    }
    if e.Step? {
      if e.tid in s0.threads {
        AdvanceInv(f, s0, e.tid, e.ok, e.code, e.outcome);
      }
    } else if e.tid !in s0.threads {
      var s1 := Next(f, s, e);
      if e.BeginStart? && f.startOk(e.id, e.payload) {
        assert From(f, s1.core.log, |s0.core.log|, f.norm(e.id), e.payload);
        assert IssuedBy(f, s1.core.log, |s0.core.log|, New(f, e.id, e.payload, e.code, s0.core.clock));
      }
      Frame(f, s0, s1, e.tid);
    }
  }

  lemma {:induction false} RunInv<P>(f: Flow<P>, clock: int, es: seq<Event<P>>)
    requires Sound(f)
    ensures Inv(f, Run(f, Boot(clock), es))
  {
    if es != [] {
      RunInv(f, clock, es[..|es| - 1]);
      NextInv(f, Run(f, Boot(clock), es[..|es| - 1]), es[|es| - 1]);
    }
  }

  ghost predicate Adds<P>(log: seq<Item<P>>, log': seq<Item<P>>) {
    |log'| == |log| + 1 && log'[..|log|] == log
  }

  lemma AdvanceLog<P>(f: Flow<P>, s: Sys<P>, tid: int, ok: bool, code: string, outcome: Outcome)
    requires tid in s.threads
    ensures var log, log' := s.core.log, Advance(f, s, tid, ok, code, outcome).core.log;
            log' == log || (Adds(log, log') && !log'[|log|].Started?)
  {
  }

  // What one event adds to the history.
  lemma NextLog<P>(f: Flow<P>, s: Sys<P>, e: Event<P>)
    ensures var log, log' := s.core.log, Next(f, s, e).core.log;
            || log' == log
            || (Adds(log, log') && (log'[|log|].Started? ==> e.BeginStart? && log'[|log|].payload == e.payload))
  {
    var s0 := On(s, Wait(s.core, e.delay));
    if e.Step? && e.tid in s0.threads {
      AdvanceLog(f, s0, e.tid, e.ok, e.code, e.outcome);
    }
  }

  // In every interleaving, whatever fails and wherever handlers stop: each call carries the payload
  // of one earlier start for the same record, checked by the start handler and owned by the caller;
  // and before it a code was passed that had been issued, at most 15 minutes before, for that very
  // record and payload.
  lemma Provenance<P>(f: Flow<P>, clock: int, es: seq<Event<P>>, i: nat)
    requires Sound(f)
    requires i < |Run(f, Boot(clock), es).core.log| && Run(f, Boot(clock), es).core.log[i].Effect?
    ensures var log := Run(f, Boot(clock), es).core.log;
            exists j :: From(f, log, j, f.norm(log[i].id), log[i].payload) && j < i
    ensures var log := Run(f, Boot(clock), es).core.log;
            exists j, p :: PassedOn(f, log, j, p, f.norm(log[i].id), log[i].payload) && p < i
    ensures var e := Run(f, Boot(clock), es).core.log[i]; f.owned(e.caller, e.payload) && f.inputOk(e.input)
  {
    RunInv(f, clock, es);
    var log := Run(f, Boot(clock), es).core.log;
    assert CallOk(f, log, i);
    var q, p :| PassedOn(f, log[..i], q, p, f.norm(log[i].id), log[i].payload);
    assert PassedOn(f, log, q, p, f.norm(log[i].id), log[i].payload);
    var j :| From(f, log[..i], j, f.norm(log[i].id), log[i].payload);
    assert From(f, log, j, f.norm(log[i].id), log[i].payload);
  }

  // Every record in Redis, too, is one start's, and outlives its code.
  lemma Stored<P>(f: Flow<P>, clock: int, es: seq<Event<P>>, key: string)
    requires Sound(f) && key in Run(f, Boot(clock), es).core.redis
    ensures var core := Run(f, Boot(clock), es).core;
            && Genuine(f, core.log, key, core.redis[key].challenge.payload)
            && (core.clock <= core.redis[key].challenge.otpExpiresAt ==>
                  Get(core, key) == Some(core.redis[key].challenge))
  {
    RunInv(f, clock, es);
    assert StoredOk(f, Run(f, Boot(clock), es).core, key);
  }

  // ---- An atomic handler is one schedule of these steps

  function Go<P>(tid: int, ok: bool, code: string, outcome: Outcome): Event<P> {
    Step(tid, 0, ok, code, outcome)
  }

  function Schedule<P>(tid: int, r: Request<P>): seq<Event<P>> {
    match r
    case StartReq(delay, id, payload, code, mailed) =>
      [BeginStart(tid, delay, id, payload, code), Go(tid, true, "", Done), Go(tid, mailed, "", Done),
       Go(tid, true, "", Done)]
    case ResendReq(delay, caller, id, code) =>
      [BeginResend(tid, delay, caller, id), Go(tid, true, code, Done), Go(tid, true, "", Done), Go(tid, true, "", Done)]
    case ConfirmReq(delay, caller, id, code, input, outcome) =>
      [BeginConfirm(tid, delay, caller, id, code, input), Go(tid, true, "", Done), Go(tid, true, "", outcome),
       Go(tid, true, "", outcome)]
  }

  lemma RunFour<P>(f: Flow<P>, s: Sys<P>, es: seq<Event<P>>)
    requires |es| == 4
    ensures Run(f, s, es) == Next(f, Next(f, Next(f, Next(f, s, es[0]), es[1]), es[2]), es[3])
  {
    assert es[..3][..2] == es[..2] && es[..2][..1] == es[..1] && es[..1][..0] == [];
    assert Run(f, s, es[..1]) == Next(f, s, es[0]);
    assert Run(f, s, es[..2]) == Next(f, Run(f, s, es[..1]), es[1]);
    assert Run(f, s, es[..3]) == Next(f, Run(f, s, es[..2]), es[2]);
  }

  ghost predicate Serial<P>(f: Flow<P>, s: Sys<P>, tid: int, r: Request<P>) {
    Run(f, s, Schedule(tid, r)) == Sys(Handle(f, s.core, r), s.threads)
  }

  lemma StartSchedule<P>(f: Flow<P>, s: Sys<P>, tid: int, r: Request<P>)
    requires Sound(f) && tid !in s.threads && r.StartReq?
    ensures Serial(f, s, tid, r)
  {
    var es := Schedule(tid, r);
    RunFour(f, s, es);
    var s1 := Next(f, s, es[0]);
    var s2 := Next(f, s1, es[1]);
    var s3 := Next(f, s2, es[2]);
    if f.startOk(r.id, r.payload) {
      assert s1.threads[tid].ToPut? && s2.threads[tid].ToMail?;
      assert s3.threads - {tid} == s.threads;
    } else {
      assert s1.threads == s.threads;
    }
  }

  lemma ResendSchedule<P>(f: Flow<P>, s: Sys<P>, tid: int, r: Request<P>)
    requires tid !in s.threads && r.ResendReq?
    ensures Serial(f, s, tid, r)
  {
    var es := Schedule(tid, r);
    RunFour(f, s, es);
    var s1 := Next(f, s, es[0]);
    var s2 := Next(f, s1, es[1]);
    var s3 := Next(f, s2, es[2]);
    var found := Get(s1.core, f.norm(r.id));
    if found.Some? && f.owned(r.caller, found.value.payload) {
      if ResendAllowed(found.value, s1.core.clock) {
        assert s2.threads[tid].ToPut? && s3.threads[tid].ToMail?;
      } else {
        assert s2.threads == s.threads && s3 == s2;
      }
    } else {
      assert s1.threads == s.threads && s2 == s1 && s3 == s1;
    }
  }

  // The three steps after a record was fetched for a confirmation, with no thread of this id before.
  lemma AcceptedSteps<P>(f: Flow<P>, s: Sys<P>, tid: int, c: Challenge<P>, id: string, caller: string, code: string,
                         input: string, outcome: Outcome)
    requires tid !in s.threads && Verify(c, code, s.core.clock).1 == Accepted
    ensures var s1 := At(s, tid, ToVerify(c, id, caller, code, input));
            var logged := Log(Log(s.core, Passed(id, code, s.core.clock)),
                              Effect(id, caller, c.payload, input, outcome));
            Next(f, Next(f, Next(f, s1, Go(tid, true, "", Done)), Go(tid, true, "", outcome)),
                 Go(tid, true, "", outcome))
            == Sys(if f.deleteFirst || outcome != Failed then Delete(f, logged, id) else logged, s.threads)
  {
    var s1 := At(s, tid, ToVerify(c, id, caller, code, input));
    var s2 := Next(f, s1, Go(tid, true, "", Done));
    var s3 := Next(f, s2, Go(tid, true, "", outcome));
    assert s2.threads - {tid} == s.threads;
    assert s3.threads - {tid} == s.threads;
    if !f.deleteFirst && outcome == Failed {
      assert s3.threads == s.threads;
    }
  }

  lemma RejectedSteps<P>(f: Flow<P>, s: Sys<P>, tid: int, c: Challenge<P>, id: string, caller: string, code: string,
                         input: string, outcome: Outcome)
    requires tid !in s.threads && Verify(c, code, s.core.clock).1 != Accepted
    ensures var s1 := At(s, tid, ToVerify(c, id, caller, code, input));
            var (c', verdict) := Verify(c, code, s.core.clock);
            Next(f, Next(f, Next(f, s1, Go(tid, true, "", Done)), Go(tid, true, "", outcome)),
                 Go(tid, true, "", outcome))
            == Sys(if verdict == Invalid then Put(f, Log(s.core, Wrong(id, s.core.clock)), c')
                   else Delete(f, Put(f, Log(s.core, Dropped(id)), c'), id), s.threads)
  {
    var s1 := At(s, tid, ToVerify(c, id, caller, code, input));
    var s2 := Next(f, s1, Go(tid, true, "", Done));
    var s3 := Next(f, s2, Go(tid, true, "", outcome));
    assert s2.threads[tid].ToPersist?;
    assert s3.threads - {tid} == s.threads;
    if Verify(c, code, s.core.clock).1 == Invalid {
      assert s3.threads == s.threads;
    }
  }

  lemma ConfirmSchedule<P>(f: Flow<P>, s: Sys<P>, tid: int, r: Request<P>)
    requires tid !in s.threads && r.ConfirmReq?
    ensures Serial(f, s, tid, r)
  {
    var es := Schedule(tid, r);
    RunFour(f, s, es);
    var s0 := On(s, Wait(s.core, r.delay));
    var s1 := Next(f, s, es[0]);
    var found := Get(s0.core, f.norm(r.id));
    if !Blank(r.code) && f.inputOk(r.input) && found.Some? && f.owned(r.caller, found.value.payload) {
      assert s1 == At(s0, tid, ToVerify(found.value, r.id, r.caller, r.code, r.input));
      if Verify(found.value, r.code, s0.core.clock).1 == Accepted {
        AcceptedSteps(f, s0, tid, found.value, r.id, r.caller, r.code, r.input, r.outcome);
      } else {
        RejectedSteps(f, s0, tid, found.value, r.id, r.caller, r.code, r.input, r.outcome);
      }
    } else {
      assert s1 == s0;
    }
  }

  // Running a handler's steps without interruption is the atomic handler: what is proved of
  // atomic handlers holds of every run that keeps each handler's steps together.
  lemma AtomicIsASchedule<P>(f: Flow<P>, s: Sys<P>, tid: int, r: Request<P>)
    requires Sound(f) && tid !in s.threads
    ensures Run(f, s, Schedule(tid, r)) == Sys(Handle(f, s.core, r), s.threads)
  {
    match r
    case StartReq(_, _, _, _, _) => StartSchedule(f, s, tid, r);
    case ResendReq(_, _, _, _) => ResendSchedule(f, s, tid, r);
    case ConfirmReq(_, _, _, _, _, _) => ConfirmSchedule(f, s, tid, r);
  }

  // ---- What the atomic handlers do not show

  lemma {:induction false} RunOn<P>(f: Flow<P>, s: Sys<P>, es: seq<Event<P>>, more: seq<Event<P>>)
    ensures Run(f, s, es + more) == Run(f, Run(f, s, es), more)
  {
    if more == [] {
      assert es + more == es;
    } else {
      RunOn(f, s, es, more[..|more| - 1]);
      assert (es + more)[..|es + more| - 1] == es + more[..|more| - 1];
    }
  }

  // Two confirmations of one record that both read it before either removes it.
  function Overlap<P>(t1: int, t2: int, caller: string, id: string, code: string, input: string, first: Outcome,
                      second: Outcome): seq<Event<P>> {
    [BeginConfirm(t1, 0, caller, id, code, input), BeginConfirm(t2, 0, caller, id, code, input),
     Go(t1, true, "", first), Go(t2, true, "", second)]
    + [Go(t1, true, "", first), Go(t2, true, "", second), Go(t1, true, "", first), Go(t2, true, "", second)]
  }

  // Where a passed code leads: the record is removed before the call or after it.
  function Onward<P>(f: Flow<P>, c: Challenge<P>, id: string, caller: string, input: string): Pc<P> {
    if f.deleteFirst then ToClear(c, id, caller, input) else ToEffect(c, id, caller, input)
  }

  // Both read the record, and both pass.
  lemma BothPass<P>(f: Flow<P>, s: Sys<P>, c: Challenge<P>, es: seq<Event<P>>, t1: int, t2: int, caller: string,
                    id: string, code: string, input: string, first: Outcome, second: Outcome)
    requires t1 != t2 && t1 !in s.threads && t2 !in s.threads && !Blank(code) && f.inputOk(input)
    requires Get(s.core, f.norm(id)) == Some(c) && f.owned(caller, c.payload)
    requires Verify(c, code, s.core.clock).1 == Accepted
    requires es == [BeginConfirm(t1, 0, caller, id, code, input), BeginConfirm(t2, 0, caller, id, code, input),
                    Go(t1, true, "", first), Go(t2, true, "", second)]
    ensures var s4, on := Run(f, s, es), Onward(f, Verify(c, code, s.core.clock).0, id, caller, input);
            && s4.core == Log(Log(s.core, Passed(id, code, s.core.clock)), Passed(id, code, s.core.clock))
            && t1 in s4.threads && s4.threads[t1] == on && t2 in s4.threads && s4.threads[t2] == on
  {
    RunFour(f, s, es);
    var s1 := Next(f, s, es[0]);
    assert s1 == At(s, t1, ToVerify(c, id, caller, code, input));
    var s2 := Next(f, s1, es[1]);
    assert s2 == At(s1, t2, ToVerify(c, id, caller, code, input));
  }

  // One step of each of two threads: its own log entry, and the other thread as it was.
  lemma CallSteps<P>(f: Flow<P>, s: Sys<P>, c: Challenge<P>, t1: int, t2: int, caller: string, id: string,
                     input: string, first: Outcome, second: Outcome)
    requires t1 != t2 && t1 in s.threads && t2 in s.threads
    requires s.threads[t1] == s.threads[t2] == ToEffect(c, id, caller, input)
    ensures var s2 := Next(f, Next(f, s, Go(t1, true, "", first)), Go(t2, true, "", second));
            && s2.core.log == s.core.log + [Effect(id, caller, c.payload, input, first),
                                            Effect(id, caller, c.payload, input, second)]
            && (t1 in s2.threads ==> s2.threads[t1].ToDiscard?) && (t2 in s2.threads ==> s2.threads[t2].ToDiscard?)
  {
    var s1 := Next(f, s, Go(t1, true, "", first));
    assert t2 in s1.threads && s1.threads[t2] == s.threads[t2];
  }

  lemma ClearSteps<P>(f: Flow<P>, s: Sys<P>, c: Challenge<P>, t1: int, t2: int, caller: string, id: string,
                      input: string, first: Outcome, second: Outcome)
    requires t1 != t2 && t1 in s.threads && t2 in s.threads
    requires s.threads[t1] == s.threads[t2] == ToClear(c, id, caller, input)
    ensures var s2 := Next(f, Next(f, s, Go(t1, true, "", first)), Go(t2, true, "", second));
            && s2.core.log == s.core.log && t1 in s2.threads && t2 in s2.threads
            && s2.threads[t1] == s2.threads[t2] == ToEffect(c, id, caller, input)
  {
    var s1 := Next(f, s, Go(t1, true, "", first));
    assert t2 in s1.threads && s1.threads[t2] == s.threads[t2];
  }

  lemma DiscardSteps<P>(f: Flow<P>, s: Sys<P>, t1: int, t2: int, first: Outcome, second: Outcome)
    requires t1 != t2 && (t1 in s.threads ==> s.threads[t1].ToDiscard?)
             && (t2 in s.threads ==> s.threads[t2].ToDiscard?)
    ensures Next(f, Next(f, s, Go(t1, true, "", first)), Go(t2, true, "", second)).core.log == s.core.log
  {
    var s1 := Next(f, s, Go(t1, true, "", first));
    assert t2 in s1.threads ==> t2 in s.threads && s1.threads[t2] == s.threads[t2];
  }

  // From there both make the call.
  lemma BothCall<P>(f: Flow<P>, s: Sys<P>, c: Challenge<P>, es: seq<Event<P>>, t1: int, t2: int, caller: string,
                    id: string, input: string, first: Outcome, second: Outcome)
    requires t1 != t2 && t1 in s.threads && t2 in s.threads
    requires s.threads[t1] == s.threads[t2] == Onward(f, c, id, caller, input)
    requires es == [Go(t1, true, "", first), Go(t2, true, "", second), Go(t1, true, "", first),
                    Go(t2, true, "", second)]
    ensures Run(f, s, es).core.log == s.core.log + [Effect(id, caller, c.payload, input, first),
                                                    Effect(id, caller, c.payload, input, second)]
  {
    RunFour(f, s, es);
    var s2 := Next(f, Next(f, s, es[0]), es[1]);
    if f.deleteFirst {
      ClearSteps(f, s, c, t1, t2, caller, id, input, first, second);
      CallSteps(f, s2, c, t1, t2, caller, id, input, first, second);
    } else {
      CallSteps(f, s, c, t1, t2, caller, id, input, first, second);
      DiscardSteps(f, s2, t1, t2, first, second);
    }
  }

  // Both pass, and the call is made twice: a code is used once only by handlers that do not overlap.
  lemma OverlapCallsTwice<P>(f: Flow<P>, s: Sys<P>, t1: int, t2: int, caller: string, id: string, code: string,
                             input: string, first: Outcome, second: Outcome)
    requires t1 != t2 && t1 !in s.threads && t2 !in s.threads && !Blank(code) && f.inputOk(input)
    requires var found := Get(s.core, f.norm(id));
             && found.Some? && f.owned(caller, found.value.payload)
             && Verify(found.value, code, s.core.clock).1 == Accepted
    ensures var payload := Get(s.core, f.norm(id)).value.payload;
            Run(f, s, Overlap(t1, t2, caller, id, code, input, first, second)).core.log
            == s.core.log + [Passed(id, code, s.core.clock), Passed(id, code, s.core.clock),
                             Effect(id, caller, payload, input, first), Effect(id, caller, payload, input, second)]
  {
    var es := Overlap(t1, t2, caller, id, code, input, first, second);
    var c := Get(s.core, f.norm(id)).value;
    assert es == es[..4] + es[4..];
    RunOn(f, s, es[..4], es[4..]);
    BothPass(f, s, c, es[..4], t1, t2, caller, id, code, input, first, second);
    BothCall(f, Run(f, s, es[..4]), Verify(c, code, s.core.clock).0, es[4..], t1, t2, caller, id, input, first, second);
  }

  // A confirmation whose removal of the record fails: the error is ignored and the call is made.
  function Unremoved<P>(tid: int, caller: string, id: string, code: string, input: string, outcome: Outcome)
    : seq<Event<P>>
  {
    [BeginConfirm(tid, 0, caller, id, code, input), Go(tid, true, "", Done), Go(tid, false, "", Done),
     Go(tid, true, "", outcome)]
  }

  // So the code is as good as before, and a second confirmation makes the call again.
  lemma UnremovedCallsTwice<P>(f: Flow<P>, s: Sys<P>, tid: int, caller: string, id: string, code: string,
                               input: string, first: Outcome, second: Outcome)
    requires Sound(f) && f.deleteFirst && tid !in s.threads && !Blank(code) && f.inputOk(input)
    requires var found := Get(s.core, f.norm(id));
             && found.Some? && f.owned(caller, found.value.payload)
             && Verify(found.value, code, s.core.clock).1 == Accepted
    ensures var payload, now := Get(s.core, f.norm(id)).value.payload, s.core.clock;
            var s1 := Run(f, s, Unremoved(tid, caller, id, code, input, first));
            && Get(s1.core, f.norm(id)) == Get(s.core, f.norm(id))
            && Run(f, s1, Schedule(tid, ConfirmReq(0, caller, id, code, input, second))).core.log
               == s.core.log + [Passed(id, code, now), Effect(id, caller, payload, input, first),
                                Passed(id, code, now), Effect(id, caller, payload, input, second)]
  {
    var es := Unremoved(tid, caller, id, code, input, first);
    var c := Get(s.core, f.norm(id)).value;
    RunFour(f, s, es);
    var s1 := Next(f, s, es[0]);
    assert s1 == At(s, tid, ToVerify(c, id, caller, code, input));
    var s3 := Next(f, Next(f, s1, es[1]), es[2]);
    assert s3.threads[tid].ToEffect? && s3.core.redis == s.core.redis;
    AtomicIsASchedule(f, Run(f, s, es), tid, ConfirmReq(0, caller, id, code, input, second));
  }
}
