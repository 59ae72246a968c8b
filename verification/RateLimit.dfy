/** allowRate: a fixed-window limiter on one Redis counter, INCR and EXPIRE being separate
    commands that other calls may run between and that may fail. */
module RateLimit {

  datatype Deadline = Never | At(t: int)

  // The Redis key. It counts as gone from its deadline on.
  datatype Key = Absent | Live(count: nat, deadline: Deadline)

  datatype Limit = Limit(max: int, window: int)

  // `reply` says whether the caller got the answer; the command takes effect either way.
  // `done` says whether EXPIRE took effect; the caller ignores its answer.
  datatype Event =
    | Incr(call: int, at: int, reply: bool)
    | Expire(call: int, at: int, done: bool)

  // calls: every call that ran INCR. owing: those that saw 1 and have yet to run EXPIRE.
  datatype State = State(clock: int, key: Key, calls: set<int>, owing: set<int>)

  const Start := State(0, Absent, {}, {})

  predicate Alive(k: Key, now: int) {
    k.Live? && (k.deadline.Never? || now < k.deadline.t)
  }

  // The server's clock never runs backwards.
  function Now(s: State, e: Event): int {
    if e.at < s.clock then s.clock else e.at
  }

  function Counted(k: Key, now: int): nat {
    if Alive(k, now) then k.count + 1 else 1
  }

  function Next(w: Limit, s: State, e: Event): State {
    var now := Now(s, e);
    match e
    case Incr(call, _, reply) =>
      if call in s.calls then s.(clock := now)
      else
        var n := Counted(s.key, now);
        State(now, Live(n, if Alive(s.key, now) then s.key.deadline else Never),
              s.calls + {call}, if n == 1 && reply then s.owing + {call} else s.owing)
    case Expire(call, _, done) =>
      if call !in s.owing then s.(clock := now)
      else State(now, if done && Alive(s.key, now) then s.key.(deadline := At(now + w.window)) else s.key,
                 s.calls, s.owing - {call})
  }

  predicate Admitted(w: Limit, s: State, e: Event) {
    e.Incr? && e.call !in s.calls && e.reply && Counted(s.key, Now(s, e)) <= w.max
  }

  function Run(w: Limit, s: State, es: seq<Event>): State
    decreases |es|
  {
    if es == [] then s else Run(w, Next(w, s, es[0]), es[1..])
  }

  // How many calls are let through between the times a and b, both included.
  function Admissions(w: Limit, s: State, es: seq<Event>, a: int, b: int): nat
    decreases |es|
  {
    if es == [] then 0
    else (if Admitted(w, s, es[0]) && a <= Now(s, es[0]) <= b then 1 else 0)
         + Admissions(w, Next(w, s, es[0]), es[1..], a, b)
  }

  // ---- Invariant: a deadline is at most one window away, and a counter without a deadline has
  // at most one call about to set it.
  ghost predicate Inv(w: Limit, s: State) {
    && s.owing <= s.calls
    && (s.owing != {} ==> s.key.Live? && s.key.deadline.Never?)
    && (forall x, y :: x in s.owing && y in s.owing ==> x == y)
    && (s.key.Live? && s.key.deadline.At? ==> s.key.deadline.t <= s.clock + w.window)
    && (s.key.Live? ==> s.key.count >= 1)
  }

  lemma InvNext(w: Limit, s: State, e: Event)
    requires w.window > 0 && Inv(w, s)
    ensures Inv(w, Next(w, s, e))
  {
    if e.Expire? && e.call in s.owing {
      forall x ensures x !in s.owing - {e.call} {
        assert x in s.owing ==> x == e.call;
      }
    } else if e.Incr? && !Alive(s.key, Now(s, e)) {
      assert s.owing == {};
    }
  }

  lemma {:induction false} InvRun(w: Limit, s: State, es: seq<Event>)
    requires w.window > 0 && Inv(w, s)
    ensures Inv(w, Run(w, s, es))
    decreases |es|
  {
    if es != [] {
      InvNext(w, s, es[0]);
      InvRun(w, Next(w, s, es[0]), es[1..]);
    }
  }

  // Nothing moves a window's end once it is set, denied calls least of all.
  lemma WindowIsFixed(w: Limit, es: seq<Event>, e: Event)
    requires w.window > 0
    ensures var s := Run(w, Start, es);
            Alive(s.key, Now(s, e)) && s.key.deadline.At? ==>
              var k := Next(w, s, e).key; k.Live? && k.deadline == s.key.deadline && k.count >= s.key.count
    ensures var s := Run(w, Start, es);
            e.Incr? && Alive(s.key, Now(s, e)) ==> Next(w, s, e).key.deadline == s.key.deadline
  {
    InvRun(w, Start, es);
  }

  // ---- The bound

  // How many windows can start in [x, b] when starts are at least one window apart.
  function Starts(w: Limit, x: int, b: int): nat
    requires w.window > 0
  {
    if b < x then 0 else (b - x) / w.window + 1
  }

  lemma DivStep(y: int, w: int)
    requires w > 0 && y >= w
    ensures y / w == (y - w) / w + 1
  {
    var q, r := (y - w) / w, (y - w) % w;
    assert y == (q + 1) * w + r;
    DivUnique(y, w, q + 1, r);
  }

  lemma DivUnique(y: int, w: int, q: int, r: int)
    requires w > 0 && y == q * w + r && 0 <= r < w
    ensures y / w == q
  {
    var d := y / w - q;
    assert y == (y / w) * w + y % w;
    assert (y / w) * w - q * w == d * w;
    ProductSign(d, w);
  }

  lemma ProductSign(d: int, w: int)
    requires w > 0
    ensures d >= 1 ==> d * w >= w
    ensures d <= -1 ==> d * w <= -w
  {
  }

  lemma {:induction false} DivMonotone(x: int, y: int, w: int)
    requires w > 0 && 0 <= x <= y
    ensures 0 <= x / w <= y / w
    decreases y
  {
    if x >= w {
      DivStep(x, w);
      DivStep(y, w);
      DivMonotone(x - w, y - w, w);
    } else {
      DivUnique(x, w, 0, x);
    }
  }

  lemma StartsStep(w: Limit, x: int, b: int)
    requires w.window > 0 && x <= b
    ensures Starts(w, x, b) == 1 + Starts(w, x + w.window, b)
  {
    if x + w.window <= b {
      DivStep(b - x, w.window);
    } else {
      DivUnique(b - x, w.window, 0, b - x);
    }
  }

  lemma StartsMonotone(w: Limit, x: int, y: int, b: int)
    requires w.window > 0 && x <= y
    ensures Starts(w, x, b) >= Starts(w, y, b)
  {
    if y <= b {
      DivMonotone(b - y, b - x, w.window);
    }
  }

  // The earliest time a new window can start, seen at `now`.
  function Earliest(w: Limit, k: Key, now: int): int {
    if !Alive(k, now) then now
    else if k.deadline.Never? then now + w.window
    else k.deadline.t
  }

  function Left(w: Limit, k: Key, now: int): nat {
    if Alive(k, now) && k.count < w.max then w.max - k.count else 0
  }

  // The most calls that can still be let through in [now, b].
  function Budget(w: Limit, k: Key, now: int, b: int): nat
    requires w.window > 0 && w.max > 0
  {
    if b < now then 0 else Left(w, k, now) + w.max * Starts(w, Earliest(w, k, now), b)
  }

  lemma BudgetStep(w: Limit, s: State, e: Event, now: int, b: int)
    requires w.window > 0 && w.max > 0 && Inv(w, s)
    requires s.clock <= now <= Now(s, e)
    ensures (if Admitted(w, s, e) && Now(s, e) <= b then 1 else 0) + Budget(w, Next(w, s, e).key, Now(s, e), b)
            <= Budget(w, s.key, now, b)
  {
    var t := Now(s, e);
    var k, k' := s.key, Next(w, s, e).key;
    if e.Incr? && e.call !in s.calls && !Alive(k, t) {
      assert Earliest(w, k, now) <= t;
      StartsMonotone(w, Earliest(w, k, now), t, b);
      ProductMonotone(w.max, Starts(w, t, b), Starts(w, Earliest(w, k, now), b));
      if t <= b {
        StartsStep(w, t, b);
        assert w.max * (1 + Starts(w, t + w.window, b)) == w.max + w.max * Starts(w, t + w.window, b);
      }
    } else {
      assert Earliest(w, k, now) <= Earliest(w, k', t);
      StartsMonotone(w, Earliest(w, k, now), Earliest(w, k', t), b);
      ProductMonotone(w.max, Starts(w, Earliest(w, k', t), b), Starts(w, Earliest(w, k, now), b));
    }
  }

  lemma ProductMonotone(m: nat, x: nat, y: nat)
    requires x <= y
    ensures m * x <= m * y
  {
  }

  lemma {:induction false} WithinBudget(w: Limit, s: State, es: seq<Event>, a: int, now: int, b: int)
    requires w.window > 0 && w.max > 0 && Inv(w, s)
    requires a <= now && s.clock <= now && (es != [] ==> now <= Now(s, es[0]))
    ensures Admissions(w, s, es, a, b) <= Budget(w, s.key, now, b)
    decreases |es|
  {
    if es != [] {
      var s' := Next(w, s, es[0]);
      InvNext(w, s, es[0]);
      BudgetStep(w, s, es[0], now, b);
      WithinBudget(w, s', es[1..], a, s'.clock, b);
    }
  }

  // The most a closed interval of this length lets through: a window's worth for every window that
  // can start in it, and, when no window needs to start at its very beginning, what a window begun
  // just before it has left after its first call.
  function Most(w: Limit, length: nat): nat
    requires w.window > 0 && w.max > 0
  {
    w.max * (length / w.window + 1) + if length % w.window == 0 then 0 else w.max - 1
  }

  function CeilDiv(x: int, y: int): int
    requires y > 0
  {
    (x + y - 1) / y
  }

  lemma CeilOf(x: nat, y: int)
    requires y > 0
    ensures CeilDiv(x, y) == if x % y == 0 then x / y else x / y + 1
  {
    var q, r := x / y, x % y;
    assert x == q * y + r;
    if r == 0 {
      DivUnique(x + y - 1, y, q, y - 1);
    } else {
      assert (q + 1) * y == q * y + y;
      DivUnique(x + y - 1, y, q + 1, r - 1);
    }
  }

  lemma MostIsCeil(w: Limit, length: nat)
    requires w.window > 0 && w.max > 0
    ensures Most(w, length) == w.max * (CeilDiv(length, w.window) + 1) - if length % w.window == 0 then 0 else 1
    ensures length <= w.window ==> Most(w, length) <= 2 * w.max
  {
    var q := length / w.window;
    CeilOf(length, w.window);
    assert w.max * (q + 2) == w.max * (q + 1) + w.max;
    if length < w.window {
      DivUnique(length, w.window, 0, length);
    } else if length == w.window {
      DivUnique(length, w.window, 1, 0);
    }
  }

  lemma MostMonotone(w: Limit, x: nat, y: nat)
    requires w.window > 0 && w.max > 0 && x <= y
    ensures Most(w, x) <= Most(w, y)
  {
    DivMonotone(x, y, w.window);
    var p, q := x / w.window, y / w.window;
    assert x == p * w.window + x % w.window && y == q * w.window + y % w.window;
    if p < q {
      ProductMonotone(w.max, p + 2, q + 1);
      assert w.max * (p + 2) == w.max * (p + 1) + w.max;
    }
  }

  // After a: at most ceil((b - a) / window) windows start.
  lemma StartsAfter(w: Limit, a: int, b: int)
    requires w.window > 0 && a <= b
    ensures Starts(w, a + 1, b) <= CeilDiv(b - a, w.window)
  {
    DivMonotone(b - a, b - a + w.window - 1, w.window);
    if a + 1 <= b {
      DivStep(b - a - 1 + w.window, w.window);
    }
  }

  lemma BudgetWhenAlive(w: Limit, k: Key, a: int, b: int)
    requires w.window > 0 && w.max > 0 && a <= b && Alive(k, a) && k.count >= 1
    ensures Budget(w, k, a, b) <= w.max * (CeilDiv(b - a, w.window) + 1) - 1
  {
    StartsAfter(w, a, b);
    StartsMonotone(w, a + 1, Earliest(w, k, a), b);
    var c := CeilDiv(b - a, w.window);
    ProductMonotone(w.max, Starts(w, Earliest(w, k, a), b), c);
    assert w.max * (c + 1) == w.max * c + w.max;
  }

  lemma BudgetOfInterval(w: Limit, k: Key, a: int, b: int)
    requires w.window > 0 && w.max > 0 && a <= b && (k.Live? ==> k.count >= 1)
    ensures Budget(w, k, a, b) <= Most(w, b - a)
  {
    if Alive(k, a) {
      BudgetWhenAlive(w, k, a, b);
      MostIsCeil(w, b - a);
    }
  }

  lemma {:induction false} FromAnyState(w: Limit, s: State, es: seq<Event>, a: int, b: int)
    requires w.window > 0 && w.max > 0 && a <= b && Inv(w, s) && s.clock <= a
    ensures Admissions(w, s, es, a, b) <= Most(w, b - a)
    decreases |es|
  {
    if es == [] || Now(s, es[0]) >= a {
      WithinBudget(w, s, es, a, a, b);
      BudgetOfInterval(w, s.key, a, b);
    } else {
      InvNext(w, s, es[0]);
      FromAnyState(w, Next(w, s, es[0]), es[1..], a, b);
    }
  }

  // For every run, every interleaving of INCR and EXPIRE and every pattern of failures, a closed
  // interval of length b - a sees at most Most admissions ...
  lemma ExactBound(w: Limit, es: seq<Event>, a: int, b: int)
    requires w.window > 0 && w.max > 0 && a <= b
    ensures Admissions(w, Start, es, a, b) <= Most(w, b - a)
  {
    if a < 0 {
      // No command runs before the clock's origin.
      NothingBefore(w, Start, es, a, b);
      if b < 0 {
        NothingUntil(w, Start, es, b);
      } else {
        FromAnyState(w, Start, es, 0, b);
        MostMonotone(w, b, b - a);
      }
    } else {
      FromAnyState(w, Start, es, a, b);
    }
  }

  // ... so at most max * (ceil((b - a) / window) + 1), and at most 2 * max in an interval no longer
  // than a window.
  lemma AdmissionBound(w: Limit, es: seq<Event>, a: int, b: int)
    requires w.window > 0 && w.max > 0 && a <= b
    ensures Admissions(w, Start, es, a, b) <= w.max * (CeilDiv(b - a, w.window) + 1)
    ensures b - a <= w.window ==> Admissions(w, Start, es, a, b) <= 2 * w.max
  {
    ExactBound(w, es, a, b);
    MostIsCeil(w, b - a);
  }

  lemma {:induction false} NothingBefore(w: Limit, s: State, es: seq<Event>, a: int, b: int)
    requires a <= s.clock
    ensures Admissions(w, s, es, a, b) == Admissions(w, s, es, s.clock, b)
    ensures forall c :: a <= c <= s.clock ==> Admissions(w, s, es, c, b) == Admissions(w, s, es, a, b)
    decreases |es|
  {
    if es != [] {
      NothingBefore(w, Next(w, s, es[0]), es[1..], a, b);
    }
  }

  lemma {:induction false} NothingUntil(w: Limit, s: State, es: seq<Event>, b: int)
    requires b < s.clock
    ensures Admissions(w, s, es, 0, b) == 0
    decreases |es|
  {
    if es != [] {
      NothingUntil(w, Next(w, s, es[0]), es[1..], b);
    }
  }

  // ---- The bound is exact: bursts one window apart reach it

  function Burst(first: int, n: nat, t: int): seq<Event>
    decreases n
  {
    if n == 0 then [] else [Incr(first, t, true)] + Burst(first + 1, n - 1, t)
  }

  // A window's worth of calls at t, the first of them setting the deadline.
  function Window(w: Limit, first: int, t: int): seq<Event>
    requires w.max > 0
  {
    [Incr(first, t, true), Expire(first, t, true)] + Burst(first + 1, w.max - 1, t)
  }

  function Windows(w: Limit, k: nat, first: int, t: int): seq<Event>
    requires w.max > 0
    decreases k
  {
    if k == 0 then [] else Window(w, first, t) + Windows(w, k - 1, first + w.max, t + w.window)
  }

  lemma {:induction false} InTurn(w: Limit, s: State, es: seq<Event>, more: seq<Event>, a: int, b: int)
    ensures Run(w, s, es + more) == Run(w, Run(w, s, es), more)
    ensures Admissions(w, s, es + more, a, b) == Admissions(w, s, es, a, b) + Admissions(w, Run(w, s, es), more, a, b)
    decreases |es|
  {
    if es == [] {
      assert es + more == more;
    } else {
      assert (es + more)[1..] == es[1..] + more;
      InTurn(w, Next(w, s, es[0]), es[1..], more, a, b);
    }
  }

  // No call numbered from `first` on was made, and the counter is gone by t.
  ghost predicate Ready(s: State, first: int, t: int) {
    s.owing == {} && s.clock <= t && !Alive(s.key, t) && forall x :: x in s.calls ==> x < first
  }

  lemma {:induction false} BurstAdmits(w: Limit, s: State, first: int, n: nat, t: int, a: int, b: int)
    requires s.owing == {} && s.clock <= t && (forall x :: x in s.calls ==> x < first)
    requires s.key.Live? && s.key.deadline.At? && t < s.key.deadline.t && s.key.count >= 1 && s.key.count + n <= w.max
    requires a <= t <= b
    ensures Admissions(w, s, Burst(first, n, t), a, b) == n
    ensures var s1 := Run(w, s, Burst(first, n, t));
            && s1.owing == {} && s1.clock <= t && s1.key.Live? && s1.key.deadline == s.key.deadline
            && forall x :: x in s1.calls ==> x < first + n
    decreases n
  {
    if n > 0 {
      var es := Burst(first, n, t);
      assert es[0] == Incr(first, t, true) && es[1..] == Burst(first + 1, n - 1, t);
      BurstAdmits(w, Next(w, s, es[0]), first + 1, n - 1, t, a, b);
    }
  }

  lemma WindowAdmits(w: Limit, s: State, first: int, t: int, a: int, b: int)
    requires w.max > 0 && w.window > 0 && Ready(s, first, t) && a <= t <= b
    ensures Admissions(w, s, Window(w, first, t), a, b) == w.max
    ensures Ready(Run(w, s, Window(w, first, t)), first + w.max, t + w.window)
  {
    var e1, e2 := Incr(first, t, true), Expire(first, t, true);
    var more := Burst(first + 1, w.max - 1, t);
    var es := Window(w, first, t);
    var s1 := Next(w, s, e1);
    var s2 := Next(w, s1, e2);
    assert es[0] == e1 && es[1..][0] == e2 && es[1..][1..] == more;
    assert s1.owing == {first};
    assert s2.owing == {} && s2.key == Live(1, At(t + w.window));
    BurstAdmits(w, s2, first + 1, w.max - 1, t, a, b);
    assert Run(w, s, es) == Run(w, s2, more);
  }

  lemma OneFewer(k: nat, n: nat)
    requires k > 0
    ensures (k - 1) * n == (k - 2) * n + n && (k - 1) * n >= 0
  {
  }

  lemma TimesStep(m: nat, k: nat)
    requires k > 0
    ensures m * k == m + m * (k - 1)
  {
  }

  lemma {:induction false} WindowsAdmit(w: Limit, s: State, k: nat, first: int, t: int, a: int, b: int)
    requires w.max > 0 && w.window > 0 && Ready(s, first, t)
    requires a <= t && t + (k - 1) * w.window <= b
    ensures Admissions(w, s, Windows(w, k, first, t), a, b) == w.max * k
    decreases k
  {
    if k > 0 {
      var es, more := Window(w, first, t), Windows(w, k - 1, first + w.max, t + w.window);
      OneFewer(k, w.window);
      WindowAdmits(w, s, first, t, a, b);
      InTurn(w, s, es, more, a, b);
      WindowsAdmit(w, Run(w, s, es), k - 1, first + w.max, t + w.window, a, b);
      TimesStep(w.max, k);
    }
  }

  // A window begun at 0, the rest of its calls at its last tick, then full windows.
  function LateStart(w: Limit, k: nat): seq<Event>
    requires w.max > 0
  {
    [Incr(0, 0, true), Expire(0, 0, true)] + (Burst(1, w.max - 1, w.window - 1) + Windows(w, k, w.max, w.window))
  }

  lemma LateStartAdmits(w: Limit, k: nat, b: int)
    requires w.max > 0 && w.window > 1 && k > 0 && k * w.window <= b
    ensures Admissions(w, Start, LateStart(w, k), w.window - 1, b) == w.max * k + w.max - 1
  {
    var a := w.window - 1;
    var e1, e2 := Incr(0, 0, true), Expire(0, 0, true);
    var s1 := Next(w, Start, e1);
    var s2 := Next(w, s1, e2);
    var late, more := Burst(1, w.max - 1, a), Windows(w, k, w.max, w.window);
    var es := LateStart(w, k);
    assert es[0] == e1 && es[1..][0] == e2 && es[1..][1..] == late + more;
    assert s1.owing == {0};
    assert s2.owing == {} && s2.key == Live(1, At(w.window));
    assert Admissions(w, Start, es, a, b) == Admissions(w, s2, late + more, a, b);
    OneFewer(k, w.window);
    assert k * w.window == (k - 1) * w.window + w.window;
    BurstAdmits(w, s2, 1, w.max - 1, a, a, b);
    InTurn(w, s2, late, more, a, b);
    WindowsAdmit(w, Run(w, s2, late), k, w.max, w.window, a, b);
  }

  ghost predicate Reached(w: Limit, es: seq<Event>, a: int, b: int)
    requires w.window > 0 && w.max > 0 && a <= b
  {
    Admissions(w, Start, es, a, b) == Most(w, b - a)
  }

  lemma LateStartReaches(w: Limit, length: nat)
    requires w.max > 0 && w.window > 0 && length % w.window != 0
    ensures Reached(w, LateStart(w, length / w.window + 1), w.window - 1, w.window - 1 + length)
  {
    var q, r := length / w.window, length % w.window;
    assert length == q * w.window + r;
    assert (q + 1) * w.window == q * w.window + w.window;
    LateStartAdmits(w, q + 1, w.window - 1 + length);
  }

  // The bound cannot be improved: for every length some interval of some run reaches it.
  lemma BoundIsReached(w: Limit, length: nat)
    requires w.max > 0 && w.window > 0
    ensures exists es, a, b :: a <= b && b - a == length && Reached(w, es, a, b)
  {
    if length % w.window == 0 {
      var q := length / w.window;
      assert length == q * w.window;
      WindowsAdmit(w, Start, q + 1, 0, 0, 0, length);
      assert Reached(w, Windows(w, q + 1, 0, 0), 0, length);
    } else {
      LateStartReaches(w, length);
    }
  }

  // A counter whose first call never set a deadline stays for good: it lets through what was
  // left of its first window and then denies every call, whatever their number and times.
  lemma {:induction false} StuckFailsClosed(w: Limit, s: State, es: seq<Event>, a: int, b: int)
    requires w.max > 0 && s.key.Live? && s.key.deadline.Never? && s.owing == {} && s.key.count >= 1
    ensures Admissions(w, s, es, a, b) <= if s.key.count < w.max then w.max - s.key.count else 0
    decreases |es|
  {
    if es != [] {
      StuckFailsClosed(w, Next(w, s, es[0]), es[1..], a, b);
    }
  }

  // ---- The code: one limiter over all its keys

  function Max(a: int, b: int): int {
    if a < b then b else a
  }

  // The counter is there when a command of this time reaches Redis.
  predicate InForce(s: State, at: int) {
    s.key.Live? && (s.key.deadline.Never? || Max(s.clock, at) < s.key.deadline.t)
  }

  // When INCR ran, whether it reached Redis and its reply came back; when EXPIRE ran and whether it
  // took effect.
  datatype Fate = Fate(at: int, reached: bool, reply: bool, expireAt: int, expired: bool)

  // A key's state after one call's INCR, and its EXPIRE if it owes one.
  function Ran(w: Limit, s: State, call: int, fate: Fate): State {
    var s1 := Next(w, s, Incr(call, fate.at, fate.reply));
    if call in s1.owing then Next(w, s1, Expire(call, fate.expireAt, fate.expired)) else s1
  }

  // ---- When every command works, the limiter is the fixed window it is meant to be

  // The state after the first n calls, made at these times, all their commands taking effect.
  function After(w: Limit, ts: seq<int>, n: nat): State
    requires n <= |ts|
  {
    if n == 0 then Start else Ran(w, After(w, ts, n - 1), n - 1, Fate(ts[n - 1], true, true, ts[n - 1], true))
  }

  // The call that opened the window call n falls into: n itself when the window before it is over.
  function Opener(w: Limit, ts: seq<int>, n: nat): (o: nat)
    requires n < |ts|
    ensures o <= n
  {
    if n == 0 then 0
    else
      var o := Opener(w, ts, n - 1);
      if ts[n] >= ts[o] + w.window then n else o
  }

  ghost predicate InOrder(ts: seq<int>) {
    forall i, j :: 0 <= i <= j < |ts| ==> 0 <= ts[i] <= ts[j]
  }

  lemma {:induction false} AfterCalls(w: Limit, ts: seq<int>, n: nat)
    requires w.window > 0 && InOrder(ts) && n < |ts|
    ensures var s, o := After(w, ts, n + 1), Opener(w, ts, n);
            && s.clock == ts[n] && s.key == Live(n - o + 1, At(ts[o] + w.window))
            && s.owing == {} && forall x :: x in s.calls ==> x <= n
  {
    if n > 0 {
      AfterCalls(w, ts, n - 1);
    }
    var s := After(w, ts, n);
    var s1 := Next(w, s, Incr(n, ts[n], true));
    assert s1.owing == if Alive(s.key, ts[n]) then {} else {n};
    assert {n} - {n} == {};
  }

  // Call n is admitted exactly when fewer than max calls came before it in its window; so always when
  // the last window was opened a window or more ago.
  lemma CallsInWindow(w: Limit, ts: seq<int>, n: nat)
    requires w.window > 0 && InOrder(ts) && n < |ts|
    ensures Admitted(w, After(w, ts, n), Incr(n, ts[n], true)) <==> n - Opener(w, ts, n) < w.max
    ensures w.max > 0 && (n > 0 ==> ts[n] >= ts[Opener(w, ts, n - 1)] + w.window) ==>
              Admitted(w, After(w, ts, n), Incr(n, ts[n], true))
  {
    if n > 0 {
      AfterCalls(w, ts, n - 1);
    }
  }

  class Limiter {
    var keys: map<string, State>
    const connected: bool

    constructor (connected: bool)
      ensures keys == map[] && this.connected == connected
    {
      keys := map[];
      this.connected := connected;
    }

    function Of(key: string): State
      reads this
    {
      if key in keys then keys[key] else Start
    }

    method Do(key: string, w: Limit, e: Event)
      modifies this
      ensures keys == old(keys)[key := Next(w, old(Of(key)), e)]
    {
      keys := keys[key := Next(w, Of(key), e)];
    }

    // The fate gives the time and outcome of each command. A call is admitted iff its INCR was answered
    // with a count within the limit. A counter in force is counted up and keeps its deadline; otherwise it
    // begins at 1, with a deadline one window after EXPIRE ran, if it did and took effect.
    method AllowRate(call: int, key: string, w: Limit, fate: Fate) returns (ok: bool)
      requires call !in Of(key).calls && call !in Of(key).owing
      modifies this
      ensures keys == if Sends(key, w, fate) then old(keys)[key := Ran(w, old(Of(key)), call, fate)] else old(keys)
      ensures ok <==> Sends(key, w, fate) && Admitted(w, old(Of(key)), Incr(call, fate.at, fate.reply))
      ensures ok <==> && connected && key != "" && w.max > 0 && fate.reached && fate.reply
                      && (if InForce(old(Of(key)), fate.at) then old(Of(key)).key.count + 1 else 1) <= w.max
      ensures connected && key != "" && w.max > 0 && fate.reached ==>
                var s, k := old(Of(key)), Of(key).key;
                if InForce(s, fate.at) && s.key.count > 0 then k == Live(s.key.count + 1, s.key.deadline)
                else !InForce(s, fate.at) ==>
                  k == Live(1, if !fate.reply || !fate.expired then Never
                               else At(Max(s.clock, Max(fate.at, fate.expireAt)) + w.window))
      ensures forall other :: other != key || !connected || !fate.reached ==> Of(other) == old(Of(other))
    {
      if !connected || key == "" || w.max <= 0 {
        return false;
      }
      if !fate.reached {
        return false;
      }
      var n := Counted(Of(key).key, Now(Of(key), Incr(call, fate.at, fate.reply)));
      Do(key, w, Incr(call, fate.at, fate.reply));
      if !fate.reply {
        return false;
      }
      if n == 1 {
        Do(key, w, Expire(call, fate.expireAt, fate.expired));
      }
      ok := n <= w.max;
    }

    // INCR is sent and reaches Redis.
    predicate Sends(key: string, w: Limit, fate: Fate) {
      connected && key != "" && w.max > 0 && fate.reached
    }

    predicate Passes(s: State, key: string, w: Limit, fate: Fate) {
      Sends(key, w, fate) && fate.reply && (if InForce(s, fate.at) then s.key.count + 1 else 1) <= w.max
    }

    // signupStart's two windows, each with commands of its own: a call passes when both admit it, and
    // the hour's counter is touched only by calls the minute lets through.
    method AllowSignup(call: int, minuteKey: string, hourKey: string, minute: Limit, hour: Limit,
                       first: Fate, second: Fate)
      returns (ok: bool)
      requires minuteKey != hourKey
      requires call !in Of(minuteKey).calls + Of(minuteKey).owing + Of(hourKey).calls + Of(hourKey).owing
      modifies this
      ensures ok <==> && Passes(old(Of(minuteKey)), minuteKey, minute, first)
                      && Passes(old(Of(hourKey)), hourKey, hour, second)
      ensures Of(minuteKey) == if Sends(minuteKey, minute, first) then Ran(minute, old(Of(minuteKey)), call, first)
                               else old(Of(minuteKey))
      ensures Of(hourKey) == if Passes(old(Of(minuteKey)), minuteKey, minute, first)
                                && Sends(hourKey, hour, second)
                             then Ran(hour, old(Of(hourKey)), call, second) else old(Of(hourKey))
      ensures forall k :: k != minuteKey && k != hourKey ==> Of(k) == old(Of(k))
    {
      ok := AllowRate(call, minuteKey, minute, first);
      if !ok {
        return false;
      }
      ok := AllowRate(call, hourKey, hour, second);
    }
  }
}
