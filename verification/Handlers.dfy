/** The store's commands and the handlers as the code runs them, against one Redis. */
module Handlers {
  import opened Otp
  import opened Security
  import opened Wrappers

  class Server<P> {
    const flow: Flow<P>
    var redis: map<string, Entry<P>>
    var clock: int
    ghost var log: seq<Item<P>>

    constructor (flow: Flow<P>, clock: int)
      ensures this.flow == flow && State() == Empty(clock)
    {
      this.flow := flow;
      this.redis := map[];
      this.clock := clock;
      this.log := [];
    }

    ghost function State(): Core<P>
      reads this
    {
      Core(redis, clock, log)
    }

    // SET with the challenge TTL, under the record's own name.
    method Set(c: Challenge<P>)
      modifies this`redis
      ensures State() == Put(flow, old(State()), c)
      ensures forall t :: clock <= t < clock + 1_800_000_000_000 ==>
              Get(State().(clock := t), flow.norm(c.id)) == Some(c)
      ensures forall t :: clock + 1_800_000_000_000 <= t ==> Get(State().(clock := t), flow.norm(c.id)) == None
      ensures forall key :: key != flow.norm(c.id) ==> Get(State(), key) == Get(old(State()), key)
    {
      redis := redis[flow.norm(c.id) := Entry(c, clock + CHALLENGE_TTL)];
    }

    method Fetch(id: string) returns (found: Option<Challenge<P>>)
      ensures found == Get(State(), flow.norm(id))
    {
      var key := flow.norm(id);
      if key !in redis || clock >= redis[key].deadline {
        return None;
      }
      return Some(redis[key].challenge);
    }

    method Del(id: string)
      modifies this`redis
      ensures State() == Delete(flow, old(State()), id)
      ensures Get(State(), flow.norm(id)) == None
      ensures forall key :: key != flow.norm(id) ==> Get(State(), key) == Get(old(State()), key)
    {
      redis := redis - {flow.norm(id)};
    }

    // Counts an attempt in the caller's copy of the record, then compares.
    method Check(c: Challenge<P>, code: string) returns (counted: Challenge<P>, verdict: Verdict)
      ensures (counted, verdict) == Verify(c, code, clock)
      ensures counted == if c.attempts < 5 && clock <= c.otpExpiresAt then c.(attempts := c.attempts + 1) else c
      ensures verdict == Accepted <==> && c.attempts < 5 && clock <= c.otpExpiresAt
                                       && CheckSecret(Text.Trim(code), c.otpHash)
    {
      if c.attempts >= MAX_VERIFY_ATTEMPTS {
        return c, TooManyTries;
      }
      if clock > c.otpExpiresAt {
        return c, Expired;
      }
      counted := c.(attempts := c.attempts + 1);
      if !CheckSecret(Text.Trim(code), counted.otpHash) {
        return counted, Invalid;
      }
      return counted, Accepted;
    }

    ghost method Record(item: Item<P>)
      modifies this`log
      ensures State() == Log(old(State()), item)
    {
      log := log + [item];
    }

    method StartHandler(id: string, payload: P, code: string, mailed: bool)
      modifies this
      ensures State() == Start(flow, old(State()), id, payload, code, mailed)
    {
      if !flow.startOk(id, payload) {
        return;
      }
      var c := New(flow, id, payload, code, clock);
      Record(Started(id, payload, code, clock));
      Set(c);
      if !mailed {
        Record(Unsent(flow.norm(id)));
        Del(id);
      }
    }

    method ResendHandler(caller: string, id: string, code: string)
      modifies this
      ensures State() == Resend(flow, old(State()), caller, id, code)
    {
      var found := Fetch(id);
      if found.None? || !flow.owned(caller, found.value.payload) {
        return;
      }
      var c := found.value;
      if !ResendAllowed(c, clock) {
        return;
      }
      Record(Rotated(c.id, c.payload, code, clock));
      Set(Rotate(c, code, clock));
    }

    method ConfirmHandler(caller: string, id: string, code: string, input: string, outcome: Outcome)
      modifies this
      ensures State() == Confirm(flow, old(State()), caller, id, code, input, outcome)
    {
      if Blank(code) || !flow.inputOk(input) {
        return;
      }
      var found := Fetch(id);
      if found.None? || !flow.owned(caller, found.value.payload) {
        return;
      }
      var c, verdict := Check(found.value, code);
      if verdict != Accepted {
        if verdict == Invalid {
          Record(Wrong(id, clock));
        } else {
          Record(Dropped(id));
        }
        Set(c);
        if verdict == TooManyTries || verdict == Expired {
          Del(id);
        }
        return;
      }
      Record(Passed(id, code, clock));
      if flow.deleteFirst {
        Del(id);
        Record(Effect(id, caller, c.payload, input, outcome));
      } else {
        Record(Effect(id, caller, c.payload, input, outcome));
        if outcome != Failed {
          Del(id);
        }
      }
    }

    method Serve(r: Request<P>)
      modifies this
      ensures State() == Handle(flow, old(State()), r)
    {
      clock := clock + r.delay;
      match r
      case StartReq(_, id, payload, code, mailed) => StartHandler(id, payload, code, mailed);
      case ResendReq(_, caller, id, code) => ResendHandler(caller, id, code);
      case ConfirmReq(_, caller, id, code, input, outcome) => ConfirmHandler(caller, id, code, input, outcome);
    }
  }
}
