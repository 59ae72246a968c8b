/** OAuth logins: a state parameter is good for one code exchange, which sends the PKCE verifier
    whose challenge went out with that state (sections 4.1, 4.2 and 4.6 of RFC 7636). Redis
    commands, the redirect and the exchange are steps of their own; callbacks interleave freely. */
module OAuth {
  import opened Text
  import opened Wrappers

  const STATE_TTL := 10 * 60 * 1_000_000_000

  // The S256 challenge of a verifier, ideal: no two verifiers share one.
  datatype Challenge = S256(verifier: string)

  datatype Pending = Pending(provider: string, verifier: string, returnTo: string)

  datatype Entry = Entry(pending: Pending, deadline: int)

  // What a GETDEL of the state finds at this time.
  function Taken(redis: map<string, Entry>, state: string, now: int): Option<Pending> {
    if state in redis && now < redis[state].deadline then Some(redis[state].pending) else None
  }

  datatype Pc =
    | ToStore(state: string, pending: Pending)     // oauthStart, before SET
    | ToRedirect(state: string, pending: Pending)  // stored, before the redirect
    | ToExchange(state: string, pending: Pending)  // oauthCallback, after GETDEL

  datatype Item =
    | Sent(state: string, challenge: Challenge)     // an authorization URL
    | Exchanged(state: string, verifier: string)    // a request to the token endpoint

  datatype Sys = Sys(redis: map<string, Entry>, clock: int, threads: map<int, Pc>, issued: map<string, string>,
                     log: seq<Item>)

  datatype Event =
    | BeginStart(tid: int, delay: nat, state: string, pending: Pending)
    // GETDEL: `replied` is false when it took effect but the handler saw an error.
    | BeginCallback(tid: int, delay: nat, code: string, state: string, replied: bool)
    | Step(tid: int, delay: nat, ok: bool)

  // RandomToken never repeats a state, and puts no white space in one.
  predicate FreshState(s: Sys, state: string) {
    state !in s.issued && state != "" && Trimmed(state)
  }

  function Next(s: Sys, e: Event): Sys {
    var now := s.clock + e.delay;
    var s1 := s.(clock := now);
    match e
    case BeginStart(tid, _, state, pending) =>
      if tid in s.threads || !FreshState(s, state) then s1
      else s1.(threads := s.threads[tid := ToStore(state, pending)], issued := s.issued[state := pending.verifier])
    case BeginCallback(tid, _, code, param, replied) =>
      var state := Trim(param);
      var found := Taken(s.redis, state, now);
      if tid in s.threads || Trim(code) == "" || state == "" || found.None? then s1
      else
        var s2 := s1.(redis := s.redis - {state});
        if replied then s2.(threads := s.threads[tid := ToExchange(state, found.value)]) else s2
    case Step(tid, _, ok) =>
      if tid !in s.threads then s1
      else
        match s.threads[tid]
        case ToStore(state, pending) =>
          if ok then s1.(redis := s.redis[state := Entry(pending, now + STATE_TTL)],
                         threads := s.threads[tid := ToRedirect(state, pending)])
          else s1.(threads := s.threads - {tid})
        case ToRedirect(state, pending) =>
          s1.(threads := s.threads - {tid}, log := s.log + [Sent(state, S256(pending.verifier))])
        case ToExchange(state, pending) =>
          s1.(threads := s.threads - {tid}, log := s.log + [Exchanged(state, pending.verifier)])
  }

  const Start := Sys(map[], 0, map[], map[], [])

  function Run(es: seq<Event>): Sys {
    if es == [] then Start else Next(Run(es[..|es| - 1]), es[|es| - 1])
  }

  // ---- The state's one ticket: with a thread that will store it, in Redis, with a callback that
  // took it, or spent

  predicate Carries(pc: Pc, state: string) {
    !pc.ToRedirect? && pc.state == state
  }

  ghost predicate Spent(log: seq<Item>, state: string) {
    exists i :: 0 <= i < |log| && log[i].Exchanged? && log[i].state == state
  }

  ghost predicate ThreadOk(s: Sys, tid: int)
    requires tid in s.threads
  {
    var pc := s.threads[tid];
    && pc.state in s.issued && s.issued[pc.state] == pc.pending.verifier
    && (!pc.ToRedirect? ==>
          && pc.state !in s.redis && !Spent(s.log, pc.state)
          && forall other :: other in s.threads && other != tid ==> !Carries(s.threads[other], pc.state))
  }

  ghost predicate ItemOk(s: Sys, i: nat)
    requires i < |s.log|
  {
    var item := s.log[i];
    item.state in s.issued &&
    match item
    case Sent(state, challenge) => challenge == S256(s.issued[state])
    case Exchanged(state, verifier) =>
      && verifier == s.issued[state]
      && forall j :: 0 <= j < |s.log| && j != i && s.log[j].Exchanged? ==> s.log[j].state != state
  }

  ghost predicate Inv(s: Sys) {
    && (forall state :: state in s.redis ==>
          state in s.issued && s.redis[state].pending.verifier == s.issued[state] && !Spent(s.log, state))
    && (forall tid :: tid in s.threads ==> ThreadOk(s, tid))
    && (forall i :: 0 <= i < |s.log| ==> ItemOk(s, i))
  }

  lemma SpentAppend(log: seq<Item>, item: Item, state: string)
    ensures Spent(log + [item], state) <==> Spent(log, state) || (item.Exchanged? && item.state == state)
  {
    var more := log + [item];
    if Spent(log, state) {
      var i :| 0 <= i < |log| && log[i].Exchanged? && log[i].state == state;
      assert more[i] == log[i];
    }
    if item.Exchanged? && item.state == state {
      assert more[|log|] == item;
    }
  }

  // Threads and items other than the one that moved keep their part of the invariant when the
  // store, the history and the threads change only as a step changes them.
  lemma StepInv(s: Sys, e: Event)
    requires Inv(s) && e.Step? && e.tid in s.threads
    ensures Inv(Next(s, e))
  {
    var s1 := Next(s, e);
    var pc := s.threads[e.tid];
    assert ThreadOk(s, e.tid);
    if |s1.log| > |s.log| {
      forall state: string
        ensures Spent(s1.log, state) <==> Spent(s.log, state) || (pc.ToExchange? && pc.state == state)
      {
        SpentAppend(s.log, s1.log[|s.log|], state);
      }
    }
    forall i | 0 <= i < |s1.log| ensures ItemOk(s1, i) {
      if i < |s.log| {
        assert ItemOk(s, i) && s1.log[i] == s.log[i];
      }
    }
    forall tid | tid in s1.threads ensures ThreadOk(s1, tid) {
      assert ThreadOk(s, tid);
    }
  }

  lemma CallbackInv(s: Sys, e: Event)
    requires Inv(s) && e.BeginCallback?
    ensures Inv(Next(s, e))
  {
    var s1 := Next(s, e);
    forall i | 0 <= i < |s1.log| ensures ItemOk(s1, i) {
      assert ItemOk(s, i);
    }
    forall tid | tid in s1.threads ensures ThreadOk(s1, tid) {
      if tid in s.threads {
        assert ThreadOk(s, tid);
      }
    }
  }

  lemma BeginInv(s: Sys, e: Event)
    requires Inv(s) && e.BeginStart?
    ensures Inv(Next(s, e))
  {
    var s1 := Next(s, e);
    forall i | 0 <= i < |s1.log| ensures ItemOk(s1, i) {
      assert ItemOk(s, i);
    }
    if Spent(s.log, e.state) {
      var i :| 0 <= i < |s.log| && s.log[i].Exchanged? && s.log[i].state == e.state;
      assert ItemOk(s, i);
    }
    forall tid | tid in s1.threads ensures ThreadOk(s1, tid) {
      if tid in s.threads {
        assert ThreadOk(s, tid);
      }
    }
  }

  lemma {:induction false} RunInv(es: seq<Event>)
    ensures Inv(Run(es))
  {
    if es != [] {
      var s, e := Run(es[..|es| - 1]), es[|es| - 1];
      RunInv(es[..|es| - 1]);
      match e
      case BeginStart(_, _, _, _) => BeginInv(s, e);
      case BeginCallback(_, _, _, _, _) => CallbackInv(s, e);
      case Step(tid, _, _) =>
        if tid in s.threads {
          StepInv(s, e);
        } else {
          var s1 := Next(s, e);
          forall i | 0 <= i < |s1.log| ensures ItemOk(s1, i) { assert ItemOk(s, i); }
          forall t | t in s1.threads ensures ThreadOk(s1, t) { assert ThreadOk(s, t); }
        }
    }
  }

  // Each state leads to at most one exchange, whatever interleaves.
  lemma OneExchange(es: seq<Event>, i: nat, j: nat)
    requires var log := Run(es).log;
             i < |log| && j < |log| && log[i].Exchanged? && log[j].Exchanged? && log[i].state == log[j].state
    ensures i == j
  {
    RunInv(es);
    assert ItemOk(Run(es), i);
  }

  // The exchange sends exactly the verifier whose challenge was in that state's URL.
  lemma VerifierMatches(es: seq<Event>, i: nat, j: nat)
    requires var log := Run(es).log;
             i < |log| && j < |log| && log[i].Exchanged? && log[j].Sent? && log[i].state == log[j].state
    ensures S256(Run(es).log[i].verifier) == Run(es).log[j].challenge
  {
    RunInv(es);
    assert ItemOk(Run(es), i) && ItemOk(Run(es), j);
  }

  // A login that meets no failure goes through: its state goes out with the verifier's challenge, and
  // the callback that brings the state back within ten minutes, for the first time, exchanges the verifier.
  lemma LoginGoesThrough(es: seq<Event>, tid: int, state: string, p: Pending, code: string, wait: nat)
    requires var s := Run(es); tid !in s.threads && state !in s.issued && state != "" && Trimmed(state)
    requires Trim(code) != "" && wait < 600_000_000_000
    ensures var s := Run(es);
            var s1 := Next(Next(Next(s, BeginStart(tid, 0, state, p)), Step(tid, 0, true)), Step(tid, 0, true));
            var s2 := Next(Next(s1, BeginCallback(tid, wait, code, state, true)), Step(tid, 0, true));
            && s1.log == s.log + [Sent(state, S256(p.verifier))] && s1.threads == s.threads
            && s2.log == s1.log + [Exchanged(state, p.verifier)] && s2.threads == s.threads
            && state !in s2.redis
  {
    TrimFixed(state);
    var s := Run(es);
    var a := Next(s, BeginStart(tid, 0, state, p));
    var b := Next(a, Step(tid, 0, true));
    var c := Next(b, Step(tid, 0, true));
    assert c.threads == s.threads && Taken(c.redis, state, c.clock + wait) == Some(p);
    var d := Next(c, BeginCallback(tid, wait, code, state, true));
    assert d.threads[tid] == ToExchange(state, p);
    assert Next(d, Step(tid, 0, true)).threads == s.threads;
  }

  // ---- The code's own two helpers, each the command of one step

  class Server {
    var redis: map<string, Entry>
    var clock: int
    ghost var threads: map<int, Pc>
    ghost var issued: map<string, string>
    ghost var log: seq<Item>

    constructor ()
      ensures State() == Start
    {
      redis, clock, threads, issued, log := map[], 0, map[], map[], [];
    }

    ghost function State(): Sys
      reads this
    {
      Sys(redis, clock, threads, issued, log)
    }

    // SET, `ok` if it took effect: the record can then be taken until its lifetime is over, and no
    // other state's is touched.
    method PutPending(ghost tid: int, state: string, p: Pending, ok: bool)
      requires tid in threads && threads[tid] == ToStore(state, p)
      modifies this`redis, this`threads
      ensures State() == Next(old(State()), Step(tid, 0, ok))
      ensures ok ==> forall t :: Taken(redis, state, t) == if t < clock + 600_000_000_000 then Some(p) else None
      ensures forall other, t :: other != state || !ok ==> Taken(redis, other, t) == Taken(old(redis), other, t)
    {
      if ok {
        redis := redis[state := Entry(p, clock + STATE_TTL)];
        threads := threads[tid := ToRedirect(state, p)];
      } else {
        threads := threads - {tid};
      }
    }

    // GETDEL, by a callback that brought a code and this state: what is taken is gone for good,
    // whether or not the callback learns of it, and no other state's record is touched.
    method TakePending(ghost tid: int, ghost code: string, state: string, replied: bool)
      returns (found: Option<Pending>)
      requires tid !in threads && Trim(code) != "" && Trim(state) == state != ""
      modifies this`redis, this`threads
      ensures State() == Next(old(State()), BeginCallback(tid, 0, code, state, replied))
      ensures found == if replied then Taken(old(redis), state, clock) else None
      ensures forall t :: t >= clock ==> Taken(redis, state, t) == None
      ensures forall other, t :: other != state ==> Taken(redis, other, t) == Taken(old(redis), other, t)
    {
      if state !in redis || clock >= redis[state].deadline {
        return None;
      }
      var p := redis[state].pending;
      redis := redis - {state};
      if !replied {
        return None;
      }
      threads := threads[tid := ToExchange(state, p)];
      found := Some(p);
    }
  }
}
