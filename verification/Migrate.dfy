/** Database migrations: each file's transaction commits its effects together with its name, in
    sorted order, however many processes run Up, wherever they fail or stop. */
module Migrate {
  import opened Lists

  // ---- Names, sorted

  datatype Entry = File(name: string) | Dir(name: string)

  predicate HasSuffix(s: string, t: string) {
    |t| <= |s| && s[|s| - |t|..] == t
  }

  // Byte order of UTF-8 text is the order of its code points.
  predicate Le(a: string, b: string) {
    a == "" || (b != "" && (a[0] < b[0] || (a[0] == b[0] && Le(a[1..], b[1..]))))
  }

  // At i the two first differ, a's character being the lower.
  ghost predicate LowerAt(a: string, b: string, i: nat) {
    i < |a| && i < |b| && a[i] < b[i] && forall k :: 0 <= k < i ==> a[k] == b[k]
  }

  // The order of names: a beginning comes first, else the first differing character decides.
  lemma {:induction false} LeIsByteOrder(a: string, b: string)
    ensures Le(a, b) <==> a <= b || exists i :: LowerAt(a, b, i)
  {
    if a != "" && b != "" {
      if a[0] == b[0] {
        var c, d := a[1..], b[1..];
        LeIsByteOrder(c, d);
        assert a == [a[0]] + c && b == [b[0]] + d;
        if i: nat :| LowerAt(c, d, i) {
          assert LowerAt(a, b, i + 1);
        }
        if i: nat :| LowerAt(a, b, i) {
          assert LowerAt(c, d, i - 1);
        }
      } else {
        assert LowerAt(a, b, 0) <==> a[0] < b[0];
        if i: nat :| LowerAt(a, b, i) {
          assert i == 0;
        }
      }
    }
  }

  lemma {:induction false} LeTotal(a: string, b: string)
    ensures Le(a, b) || Le(b, a)
    ensures Le(a, b) && Le(b, a) ==> a == b
  {
    if a != "" && b != "" && a[0] == b[0] {
      LeTotal(a[1..], b[1..]);
      assert a == [a[0]] + a[1..] && b == [b[0]] + b[1..];
    }
  }

  lemma {:induction false} LeTransitive(a: string, b: string, c: string)
    requires Le(a, b) && Le(b, c)
    ensures Le(a, c)
  {
    if a != "" && a[0] == b[0] && b[0] == c[0] {
      LeTransitive(a[1..], b[1..], c[1..]);
    }
  }

  predicate Sorted(s: seq<string>) {
    forall i, j :: 0 <= i < j < |s| ==> Le(s[i], s[j])
  }

  function Insert(x: string, s: seq<string>): seq<string> {
    if s == [] then [x] else if Le(x, s[0]) then [x] + s else [s[0]] + Insert(x, s[1..])
  }

  // sort.Strings
  function Sort(s: seq<string>): seq<string> {
    if s == [] then [] else Insert(s[0], Sort(s[1..]))
  }

  lemma {:induction false} InsertKeeps(x: string, s: seq<string>)
    ensures multiset(Insert(x, s)) == multiset(s) + multiset{x}
    ensures Sorted(s) ==> Sorted(Insert(x, s))
  {
    if s != [] {
      assert s == [s[0]] + s[1..];
      if Le(x, s[0]) {
        if Sorted(s) {
          forall j | 0 <= j < |s| ensures Le(x, s[j]) {
            if j > 0 { LeTransitive(x, s[0], s[j]); }
          }
        }
      } else {
        InsertKeeps(x, s[1..]);
        LeTotal(x, s[0]);
        var t := Insert(x, s[1..]);
        if Sorted(s) {
          forall j | 0 <= j < |t| ensures Le(s[0], t[j]) {
            assert t[j] in multiset(t);
            assert t[j] in multiset(s[1..]) + multiset{x};
            if t[j] != x {
              assert t[j] in s[1..];
            }
          }
        }
      }
    }
  }

  lemma {:induction false} SortSorts(s: seq<string>)
    ensures Sorted(Sort(s)) && multiset(Sort(s)) == multiset(s)
  {
    if s != [] {
      SortSorts(s[1..]);
      InsertKeeps(s[0], Sort(s[1..]));
      assert s == [s[0]] + s[1..];
    }
  }

  lemma HeadIsLeast(s: seq<string>, x: string)
    requires s != [] && Sorted(s) && x in s
    ensures Le(s[0], x)
  {
    LeTotal(x, x);
    var j :| 0 <= j < |s| && s[j] == x;
  }

  lemma TailMultiset(s: seq<string>)
    requires s != []
    ensures multiset(s[1..]) == multiset(s) - multiset{s[0]}
  {
    assert s == [s[0]] + s[1..];
  }

  lemma SameHead(s: seq<string>, t: seq<string>)
    requires Sorted(s) && Sorted(t) && multiset(s) == multiset(t) && s != []
    ensures t != [] && s[0] == t[0]
    ensures multiset(s[1..]) == multiset(t[1..])
  {
    assert |s| == |multiset(s)| && |t| == |multiset(t)|;
    assert s[0] in multiset(t) && t[0] in multiset(s);
    HeadIsLeast(s, t[0]);
    HeadIsLeast(t, s[0]);
    LeTotal(s[0], t[0]);
    TailMultiset(s);
    TailMultiset(t);
  }

  lemma {:induction false} SortedIsUnique(s: seq<string>, t: seq<string>)
    requires Sorted(s) && Sorted(t) && multiset(s) == multiset(t)
    ensures s == t
  {
    assert |s| == |multiset(s)| && |t| == |multiset(t)|;
    if s != [] {
      SameHead(s, t);
      SortedIsUnique(s[1..], t[1..]);
      assert s == [s[0]] + s[1..] && t == [t[0]] + t[1..];
    }
  }

  function SqlNames(ents: seq<Entry>): seq<string> {
    if ents == [] then []
    else
      var front := SqlNames(ents[..|ents| - 1]);
      var e := ents[|ents| - 1];
      if e.File? && HasSuffix(e.name, ".sql") then front + [e.name] else front
  }

  lemma {:induction false} SqlNamesCount(ents: seq<Entry>, x: string)
    ensures multiset(SqlNames(ents))[x] == if HasSuffix(x, ".sql") then multiset(ents)[File(x)] else 0
  {
    if ents != [] {
      var front := ents[..|ents| - 1];
      SqlNamesCount(front, x);
      assert ents == front + [ents[|ents| - 1]];
    }
  }

  method CollectNames(ents: seq<Entry>) returns (names: seq<string>)
    ensures names == Sort(SqlNames(ents))
    ensures Sorted(names)
    ensures forall x :: multiset(names)[x] == if |x| >= 4 && x[|x| - 4..] == ".sql" then multiset(ents)[File(x)] else 0
  {
    names := [];
    for i := 0 to |ents|
      invariant names == SqlNames(ents[..i])
    {
      assert ents[..i + 1][..i] == ents[..i];
      var e := ents[i];
      if e.File? && HasSuffix(e.name, ".sql") {
        names := names + [e.name];
      }
    }
    assert ents[..|ents|] == ents;
    SortSorts(names);
    forall x ensures multiset(names)[x] == if |x| >= 4 && x[|x| - 4..] == ".sql" then multiset(ents)[File(x)] else 0 {
      SqlNamesCount(ents, x);
    }
    names := Sort(names);
  }

  // The order in which the directory is read does not matter: every process works through the
  // same list.
  lemma SameFilesSameNames(a: seq<Entry>, b: seq<Entry>)
    requires multiset(SqlNames(a)) == multiset(SqlNames(b))
    ensures Sort(SqlNames(a)) == Sort(SqlNames(b))
  {
    SortSorts(SqlNames(a));
    SortSorts(SqlNames(b));
    SortedIsUnique(Sort(SqlNames(a)), Sort(SqlNames(b)));
  }

  // ---- The protocol

  // table: schema_migrations exists; recorded: its rows; effects: the file bodies committed, in
  // the order they were.
  datatype Db = Db(table: bool, recorded: set<string>, effects: seq<string>)

  // Where a process stands with file number i.
  datatype Pc =
    | Checking(i: nat)       // before SELECT EXISTS
    | Beginning(i: nat)      // not recorded, before BEGIN
    | InTx(i: nat)           // before the file's body
    | BodyDone(i: nat)       // before the INSERT
    | Inserted(i: nat)       // before COMMIT
    | Returned(ok: bool)

  // locks: file names inserted by a transaction still open, and by whom.
  datatype Sys = Sys(db: Db, locks: map<string, int>, procs: map<int, Pc>)

  // Lost: the command took effect but the process saw an error.
  datatype Fate = Ok | Fail | Lost

  datatype Event = Launch(pid: int, fate: Fate) | Step(pid: int, fate: Fate) | Crash(pid: int)

  function Move(s: Sys, pid: int, pc: Pc): Sys {
    s.(procs := s.procs[pid := pc])
  }

  function Unlock(s: Sys, name: string): Sys {
    s.(locks := s.locks - {name})
  }

  function Commit(s: Sys, name: string): Sys {
    Unlock(s, name).(db := s.db.(recorded := s.db.recorded + {name}, effects := s.db.effects + [name]))
  }

  function Advance(names: seq<string>, s: Sys, pid: int, fate: Fate): Sys
    requires pid in s.procs
  {
    match s.procs[pid]
    case Returned(_) => s
    case Checking(i) =>
      if i >= |names| then Move(s, pid, Returned(true))
      else if fate != Ok then Move(s, pid, Returned(false))
      else if names[i] in s.db.recorded then Move(s, pid, Checking(i + 1))
      else Move(s, pid, Beginning(i))
    case Beginning(i) => Move(s, pid, if fate == Ok then InTx(i) else Returned(false))
    case InTx(i) => Move(s, pid, if fate == Ok then BodyDone(i) else Returned(false))
    case BodyDone(i) =>
      // The primary key: an open transaction's insert of the name makes this one wait, a
      // committed one makes it fail.
      if i >= |names| then s
      else if names[i] in s.locks then s
      else if fate != Ok || names[i] in s.db.recorded then Move(s, pid, Returned(false))
      else Move(s.(locks := s.locks[names[i] := pid]), pid, Inserted(i))
    case Inserted(i) =>
      if i >= |names| then s
      else
        match fate
        case Ok => Move(Commit(s, names[i]), pid, Checking(i + 1))
        case Lost => Move(Commit(s, names[i]), pid, Returned(false))
        case Fail => Move(Unlock(s, names[i]), pid, Returned(false))
  }

  function Next(names: seq<string>, s: Sys, e: Event): Sys {
    match e
    case Launch(pid, fate) =>
      if pid in s.procs then s
      else
        var s1 := if fate == Fail then s else s.(db := s.db.(table := true));
        Move(s1, pid, if fate == Ok then Checking(0) else Returned(false))
    case Step(pid, fate) => if pid in s.procs then Advance(names, s, pid, fate) else s
    case Crash(pid) =>
      // The server rolls the open transaction back.
      if pid !in s.procs then s
      else
        var s1 := s.(procs := s.procs - {pid});
        if s.procs[pid].Inserted? && s.procs[pid].i < |names| then Unlock(s1, names[s.procs[pid].i]) else s1
  }

  function Run(names: seq<string>, s: Sys, es: seq<Event>): Sys {
    if es == [] then s else Next(names, Run(names, s, es[..|es| - 1]), es[|es| - 1])
  }

  const Fresh := Db(false, {}, [])

  ghost predicate DbInv(names: seq<string>, db: Db) {
    && |db.effects| <= |names| && db.effects == names[..|db.effects|]
    && (forall x :: x in db.recorded <==> x in db.effects)
  }

  ghost predicate ProcInv(names: seq<string>, s: Sys, pid: int)
    requires pid in s.procs
  {
    match s.procs[pid]
    case Returned(ok) => ok ==> s.db.effects == names
    case Checking(i) => i <= |s.db.effects|
    case Beginning(i) => i <= |s.db.effects| && i < |names|
    case InTx(i) => i <= |s.db.effects| && i < |names|
    case BodyDone(i) => i <= |s.db.effects| && i < |names|
    case Inserted(i) => i <= |s.db.effects| && i < |names| && names[i] in s.locks && s.locks[names[i]] == pid
  }

  ghost predicate LockInv(names: seq<string>, s: Sys, name: string)
    requires name in s.locks
  {
    && name !in s.db.recorded
    && s.locks[name] in s.procs
    && var pc := s.procs[s.locks[name]]; pc.Inserted? && pc.i < |names| && names[pc.i] == name
  }

  ghost predicate Inv(names: seq<string>, s: Sys) {
    && DbInv(names, s.db)
    && (forall pid :: pid in s.procs ==> ProcInv(names, s, pid))
    && (forall name :: name in s.locks ==> LockInv(names, s, name))
  }

  // A commit under the lock extends the prefix by its next name.
  lemma CommitInv(names: seq<string>, s: Sys, pid: int, next: Pc)
    requires Distinct(names) && Inv(names, s) && pid in s.procs && s.procs[pid].Inserted?
    requires var i := s.procs[pid].i; next == Checking(i + 1) || next == Returned(false)
    ensures var i := s.procs[pid].i; i < |names| && Inv(names, Move(Commit(s, names[i]), pid, next))
  {
    assert ProcInv(names, s, pid);
    var i := s.procs[pid].i;
    var name := names[i];
    assert LockInv(names, s, name);
    assert forall k :: 0 <= k < |s.db.effects| ==> names[k] == s.db.effects[k] && names[k] in s.db.effects;
    assert name !in s.db.effects;
    assert i == |s.db.effects|;
    var s1 := Move(Commit(s, name), pid, next);
    assert names[..i + 1] == names[..i] + [name];
    forall p | p in s1.procs ensures ProcInv(names, s1, p) {
      if p != pid {
        assert ProcInv(names, s, p);
      }
    }
    forall n | n in s1.locks ensures LockInv(names, s1, n) {
      assert LockInv(names, s, n);
    }
  }

  // Steps that commit nothing and hold on to every lock but the mover's own.
  lemma MoveInv(names: seq<string>, s: Sys, s1: Sys, pid: int)
    requires Inv(names, s)
    requires s1.db.recorded == s.db.recorded && s1.db.effects == s.db.effects
    requires s1.procs - {pid} == s.procs - {pid}
    requires forall n :: n in s1.locks ==> LockInv(names, s1, n)
    requires forall n :: n in s.locks && s.locks[n] != pid ==> n in s1.locks && s1.locks[n] == s.locks[n]
    requires pid in s1.procs ==> ProcInv(names, s1, pid)
    ensures Inv(names, s1)
  {
    forall p | p in s1.procs ensures ProcInv(names, s1, p) {
      if p != pid {
        assert p in s1.procs - {pid} && s1.procs[p] == (s1.procs - {pid})[p] == s.procs[p];
        assert ProcInv(names, s, p);
      }
    }
  }

  // The two steps that handle the lock: taking it with the INSERT ...
  lemma InsertInv(names: seq<string>, s: Sys, pid: int, fate: Fate)
    requires Inv(names, s) && pid in s.procs && s.procs[pid].BodyDone?
    ensures Inv(names, Advance(names, s, pid, fate))
  {
    assert ProcInv(names, s, pid);
    var s1 := Advance(names, s, pid, fate);
    if s1 != s {
      forall n | n in s1.locks ensures LockInv(names, s1, n) {
        if n in s.locks {
          assert LockInv(names, s, n);
        }
      }
      MoveInv(names, s, s1, pid);
    }
  }

  // ... and giving it back with the COMMIT.
  lemma LockStepInv(names: seq<string>, s: Sys, pid: int, fate: Fate)
    requires Distinct(names) && Inv(names, s) && pid in s.procs && s.procs[pid].Inserted?
    ensures Inv(names, Advance(names, s, pid, fate))
  {
    assert ProcInv(names, s, pid);
    var i := s.procs[pid].i;
    if fate != Fail {
      CommitInv(names, s, pid, if fate == Ok then Checking(i + 1) else Returned(false));
    } else {
      var s1 := Move(Unlock(s, names[i]), pid, Returned(false));
      forall n | n in s1.locks ensures LockInv(names, s1, n) {
        assert LockInv(names, s, n);
      }
      MoveInv(names, s, s1, pid);
    }
  }

  lemma AdvanceInv(names: seq<string>, s: Sys, pid: int, fate: Fate)
    requires Distinct(names) && Inv(names, s) && pid in s.procs
    ensures Inv(names, Advance(names, s, pid, fate))
  {
    var pc := s.procs[pid];
    if pc.Inserted? {
      LockStepInv(names, s, pid, fate);
    } else if pc.BodyDone? {
      InsertInv(names, s, pid, fate);
    } else {
      var s1 := Advance(names, s, pid, fate);
      assert ProcInv(names, s, pid);
      forall n | n in s.locks ensures LockInv(names, s, n) {
      }
      LocksStay(names, s, s1, pid);
      if pc.Checking? && pc.i < |names| && names[pc.i] in s.db.recorded {
        RecordedIsNext(names, s.db, pc.i);
      }
      MoveInv(names, s, s1, pid);
    }
  }

  lemma RecordedIsNext(names: seq<string>, db: Db, i: nat)
    requires Distinct(names) && DbInv(names, db) && i < |names| && names[i] in db.recorded
    ensures i < |db.effects|
  {
    var k :| 0 <= k < |db.effects| && db.effects[k] == names[i];
    assert names[k] == names[i];
  }

  // Locks of the others survive a step that takes none.
  lemma LocksStay(names: seq<string>, s: Sys, s1: Sys, pid: int)
    requires Inv(names, s) && s1.db.recorded == s.db.recorded && s1.procs - {pid} == s.procs - {pid}
    requires forall n :: n in s1.locks ==> n in s.locks && s1.locks[n] == s.locks[n] && s.locks[n] != pid
    ensures forall n :: n in s1.locks ==> LockInv(names, s1, n)
  {
    forall n | n in s1.locks ensures LockInv(names, s1, n) {
      assert LockInv(names, s, n);
      var p := s.locks[n];
      assert p in s.procs - {pid};
      assert s1.procs[p] == (s1.procs - {pid})[p] == s.procs[p];
    }
  }

  lemma NextInv(names: seq<string>, s: Sys, e: Event)
    requires Distinct(names) && Inv(names, s)
    ensures Inv(names, Next(names, s, e))
  {
    var s1 := Next(names, s, e);
    match e
    case Step(pid, fate) =>
      if pid in s.procs { AdvanceInv(names, s, pid, fate); }
    case Launch(pid, fate) =>
      if pid !in s.procs {
        assert forall n :: n in s.locks ==> LockInv(names, s, n);
        LocksStay(names, s, s1, pid);
        MoveInv(names, s, s1, pid);
      }
    case Crash(pid) =>
      if pid in s.procs {
        assert ProcInv(names, s, pid);
        assert forall n :: n in s.locks ==> LockInv(names, s, n);
        LocksStay(names, s, s1, pid);
        MoveInv(names, s, s1, pid);
      }
  }

  lemma {:induction false} RunInv(names: seq<string>, s: Sys, es: seq<Event>)
    requires Distinct(names) && Inv(names, s)
    ensures Inv(names, Run(names, s, es))
  {
    if es != [] {
      RunInv(names, s, es[..|es| - 1]);
      NextInv(names, Run(names, s, es[..|es| - 1]), es[|es| - 1]);
    }
  }

  // From an empty schema, in every run: a file's effects are committed exactly when its name is
  // recorded, none twice, in sorted order without a gap; and a nil return means all of them are.
  lemma MigrationsSound(names: seq<string>, es: seq<Event>)
    requires Distinct(names)
    ensures var s := Run(names, Sys(Fresh, map[], map[]), es);
            && (forall x :: x in s.db.recorded <==> x in s.db.effects)
            && s.db.effects <= names && Distinct(s.db.effects)
            && (forall pid :: pid in s.procs && s.procs[pid] == Returned(true) ==> s.db.effects == names)
  {
    var s0 := Sys(Fresh, map[], map[]);
    RunInv(names, s0, es);
    var s := Run(names, s0, es);
    forall pid | pid in s.procs && s.procs[pid] == Returned(true) ensures s.db.effects == names {
      assert ProcInv(names, s, pid);
    }
  }

  // Once all are recorded, no run changes anything but, at most, the processes running.
  lemma {:induction false} RerunChangesNothing(names: seq<string>, s: Sys, es: seq<Event>)
    requires Distinct(names) && Inv(names, s) && s.db.effects == names
    ensures Run(names, s, es).db.effects == names && Run(names, s, es).db.recorded == s.db.recorded
  {
    if es != [] {
      var front := es[..|es| - 1];
      RerunChangesNothing(names, s, front);
      RunInv(names, s, front);
      var t := Run(names, s, front);
      NextInv(names, t, es[|es| - 1]);
      assert names[..|names|] == names;
      assert forall x :: x in t.db.recorded <==> x in names;
      var u := Run(names, s, es);
      assert u.db.effects == names by {
        assert |u.db.effects| >= |t.db.effects|;
      }
      assert forall x :: x in u.db.recorded <==> x in names;
    }
  }

  lemma RunOne(names: seq<string>, s: Sys, es: seq<Event>, e: Event)
    ensures Run(names, s, es + [e]) == Next(names, Run(names, s, es), e)
  {
    assert (es + [e])[..|es|] == es;
  }

  // ---- Recovery: whatever happened, one more process that meets no failure finishes the work

  // pid has not failed, and no other process has an insert open.
  ghost predicate Ready(names: seq<string>, s: Sys, pid: int) {
    && Inv(names, s) && pid in s.procs
    && (forall name :: name in s.locks ==> s.locks[name] == pid)
    && match s.procs[pid]
       case Returned(ok) => ok
       case Beginning(i) => i < |names| && names[i] !in s.db.recorded
       case InTx(i) => i < |names| && names[i] !in s.db.recorded
       case BodyDone(i) => i < |names| && names[i] !in s.db.recorded
       case Checking(i) => i <= |names|
       case Inserted(i) => i < |names|
  }

  // At most so many commands are left.
  function Left(n: nat, pc: Pc): int {
    match pc
    case Checking(i) => 5 * (n - i) + 1
    case Beginning(i) => 5 * (n - i)
    case InTx(i) => 5 * (n - i) - 1
    case BodyDone(i) => 5 * (n - i) - 2
    case Inserted(i) => 5 * (n - i) - 3
    case Returned(_) => 0
  }

  lemma ReadyStep(names: seq<string>, s: Sys, pid: int)
    requires Distinct(names) && Ready(names, s, pid)
    ensures var s1 := Next(names, s, Step(pid, Ok));
            && Ready(names, s1, pid)
            && (s1.procs[pid].Returned? || Left(|names|, s1.procs[pid]) < Left(|names|, s.procs[pid]))
  {
    AdvanceInv(names, s, pid, Ok);
    assert ProcInv(names, s, pid);
    assert forall name :: name in s.locks ==> LockInv(names, s, name);
  }

  function OkSteps(pid: int, k: nat): seq<Event> {
    if k == 0 then [] else OkSteps(pid, k - 1) + [Step(pid, Ok)]
  }

  // From s, k commands of pid have brought it to s1.
  ghost predicate Nearer(names: seq<string>, s: Sys, s1: Sys, pid: int, k: nat) {
    && pid in s.procs && Ready(names, s1, pid)
    && (s1.procs[pid].Returned? || Left(|names|, s1.procs[pid]) <= Left(|names|, s.procs[pid]) - k)
  }

  lemma NearerStep(names: seq<string>, s: Sys, s1: Sys, pid: int, k: nat)
    requires Distinct(names) && Nearer(names, s, s1, pid, k)
    ensures Nearer(names, s, Next(names, s1, Step(pid, Ok)), pid, k + 1)
  {
    ReadyStep(names, s1, pid);
  }

  lemma {:induction false} ReadySteps(names: seq<string>, s: Sys, es: seq<Event>, pid: int, k: nat)
    requires Distinct(names) && Ready(names, Run(names, s, es), pid)
    ensures Nearer(names, Run(names, s, es), Run(names, s, es + OkSteps(pid, k)), pid, k)
  {
    if k == 0 {
      assert es + [] == es;
    } else {
      ReadySteps(names, s, es, pid, k - 1);
      var front := es + OkSteps(pid, k - 1);
      assert es + OkSteps(pid, k) == front + [Step(pid, Ok)];
      RunOne(names, s, front, Step(pid, Ok));
      NearerStep(names, Run(names, s, es), Run(names, s, front), pid, k - 1);
    }
  }

  function Crashes(pids: seq<int>): seq<Event> {
    if pids == [] then [] else Crashes(pids[..|pids| - 1]) + [Crash(pids[|pids| - 1])]
  }

  // Crashed processes hold no lock and are gone; nothing else changes.
  ghost predicate Released(s: Sys, s1: Sys, pids: seq<int>) {
    && s1.db == s.db
    && (forall pid :: pid in s1.procs <==> pid in s.procs && pid !in pids)
    && (forall pid :: pid in s1.procs ==> s1.procs[pid] == s.procs[pid])
    && (forall name :: name in s1.locks <==> name in s.locks && s.locks[name] !in pids)
    && forall name :: name in s1.locks ==> s1.locks[name] == s.locks[name]
  }

  lemma CrashReleases(names: seq<string>, s: Sys, pid: int)
    requires Inv(names, s)
    ensures Released(s, Next(names, s, Crash(pid)), [pid])
  {
    assert forall name :: name in s.locks ==> LockInv(names, s, name);
    if pid in s.procs {
      assert ProcInv(names, s, pid);
    }
  }

  lemma ReleasedMore(s: Sys, s1: Sys, s2: Sys, pids: seq<int>, pid: int)
    requires Released(s, s1, pids) && Released(s1, s2, [pid])
    ensures Released(s, s2, pids + [pid])
  {
  }

  lemma {:induction false} CrashesRelease(names: seq<string>, s: Sys, es: seq<Event>, pids: seq<int>)
    requires Distinct(names) && Inv(names, s)
    ensures Inv(names, Run(names, s, es + Crashes(pids)))
    ensures Released(Run(names, s, es), Run(names, s, es + Crashes(pids)), pids)
  {
    RunInv(names, s, es + Crashes(pids));
    if pids == [] {
      assert es + [] == es;
    } else {
      var front, pid := pids[..|pids| - 1], pids[|pids| - 1];
      CrashesRelease(names, s, es, front);
      assert es + Crashes(pids) == (es + Crashes(front)) + [Crash(pid)];
      RunOne(names, s, es + Crashes(front), Crash(pid));
      CrashReleases(names, Run(names, s, es + Crashes(front)), pid);
      ReleasedMore(Run(names, s, es), Run(names, s, es + Crashes(front)), Run(names, s, es + Crashes(pids)), front,
                   pid);
      assert pids == front + [pid];
    }
  }

  lemma LaunchReady(names: seq<string>, s: Sys, pid: int)
    requires Distinct(names) && Inv(names, s) && pid !in s.procs && s.locks == map[]
    ensures Ready(names, Next(names, s, Launch(pid, Ok)), pid)
    ensures Next(names, s, Launch(pid, Ok)).procs[pid] == Checking(0)
  {
    NextInv(names, s, Launch(pid, Ok));
  }

  lemma NearestIsDone(names: seq<string>, s: Sys, s1: Sys, pid: int)
    requires Nearer(names, s, s1, pid, 5 * |names| + 1) && s.procs[pid] == Checking(0)
    ensures Done(names, s1, pid)
  {
    assert ProcInv(names, s1, pid);
  }

  // pid returned nil, and every file is applied, in order, and recorded.
  ghost predicate Done(names: seq<string>, s: Sys, pid: int) {
    && pid in s.procs && s.procs[pid] == Returned(true)
    && s.db.effects == names && forall x :: x in s.db.recorded <==> x in names
  }

  lemma LaunchedIsDone(names: seq<string>, s: Sys, es: seq<Event>, pid: int, steps: seq<Event>)
    requires Distinct(names) && Inv(names, Run(names, s, es)) && pid !in Run(names, s, es).procs
    requires Run(names, s, es).locks == map[] && steps == OkSteps(pid, 5 * |names| + 1)
    ensures Done(names, Run(names, s, es + [Launch(pid, Ok)] + steps), pid)
  {
    var begun := es + [Launch(pid, Ok)];
    LaunchReady(names, Run(names, s, es), pid);
    RunOne(names, s, es, Launch(pid, Ok));
    ReadySteps(names, s, begun, pid, 5 * |names| + 1);
    NearestIsDone(names, Run(names, s, begun), Run(names, s, begun + steps), pid);
  }

  lemma NoLocks(s: Sys, s1: Sys, pids: seq<int>)
    requires Released(s, s1, pids) && forall name :: name in s.locks ==> s.locks[name] in pids
    ensures s1.locks == map[]
  {
    assert s1.locks.Keys == {};
  }

  ghost predicate Holders(s: Sys, pids: seq<int>) {
    forall name :: name in s.locks ==> s.locks[name] in pids
  }

  lemma RecoversFrom(names: seq<string>, s: Sys, es: seq<Event>, pids: seq<int>, pid: int)
    requires Distinct(names) && Inv(names, s) && Holders(Run(names, s, es), pids)
    requires pid in Run(names, s, es).procs ==> pid in pids
    ensures Done(names, Run(names, s, es + Crashes(pids) + [Launch(pid, Ok)] + OkSteps(pid, 5 * |names| + 1)), pid)
  {
    CrashesRelease(names, s, es, pids);
    NoLocks(Run(names, s, es), Run(names, s, es + Crashes(pids)), pids);
    LaunchedIsDone(names, s, es + Crashes(pids), pid, OkSteps(pid, 5 * |names| + 1));
  }

  // From every reachable state: once the processes with an insert open have crashed, a fresh process
  // whose commands all succeed finishes the work.
  lemma Recovers(names: seq<string>, es: seq<Event>, pids: seq<int>, pid: int)
    requires Distinct(names)
    requires var s := Run(names, Sys(Fresh, map[], map[]), es); Holders(s, pids) && (pid in s.procs ==> pid in pids)
    ensures Done(names, Run(names, Sys(Fresh, map[], map[]),
                            es + Crashes(pids) + [Launch(pid, Ok)] + OkSteps(pid, 5 * |names| + 1)), pid)
  {
    RecoversFrom(names, Sys(Fresh, map[], map[]), es, pids, pid);
  }

  // ---- The code: one process, its commands' fates given

  // A database with process 0 alone, standing at pc.
  function Solo(db: Db, locks: map<string, int>, pc: Pc): Sys {
    Sys(db, locks, map[0 := pc])
  }

  lemma SoloStep(names: seq<string>, s: Sys, es: seq<Event>, fate: Fate, db: Db, locks: map<string, int>, pc: Pc,
                 pc': Pc)
    requires Run(names, s, es) == Solo(db, locks, pc)
    requires Advance(names, Solo(db, locks, pc), 0, fate) == Move(Solo(db, locks, pc), 0, pc')
    ensures Run(names, s, es + [Step(0, fate)]) == Solo(db, locks, pc')
  {
    RunOne(names, s, es, Step(0, fate));
    assert map[0 := pc][0 := pc'] == map[0 := pc'];
  }

  lemma InsertAlone(names: seq<string>, s: Sys, es: seq<Event>, fate: Fate, db: Db, i: nat)
    requires i < |names| && names[i] !in db.recorded && Run(names, s, es) == Solo(db, map[], BodyDone(i))
    ensures Run(names, s, es + [Step(0, fate)])
            == if fate == Ok then Solo(db, map[names[i] := 0], Inserted(i)) else Solo(db, map[], Returned(false))
  {
    RunOne(names, s, es, Step(0, fate));
    assert map[0 := BodyDone(i)][0 := Inserted(i)] == map[0 := Inserted(i)];
    assert map[0 := BodyDone(i)][0 := Returned(false)] == map[0 := Returned(false)];
  }

  lemma CommitStep(names: seq<string>, fate: Fate, db: Db, i: nat)
    requires i < |names|
    ensures var after := db.(recorded := db.recorded + {names[i]}, effects := db.effects + [names[i]]);
            Advance(names, Solo(db, map[names[i] := 0], Inserted(i)), 0, fate)
            == Solo(if fate == Fail then db else after, map[], if fate == Ok then Checking(i + 1) else Returned(false))
  {
    assert map[names[i] := 0] - {names[i]} == map[];
    if fate == Ok {
      assert map[0 := Inserted(i)][0 := Checking(i + 1)] == map[0 := Checking(i + 1)];
    } else {
      assert map[0 := Inserted(i)][0 := Returned(false)] == map[0 := Returned(false)];
    }
  }

  lemma CommitAlone(names: seq<string>, s: Sys, es: seq<Event>, fate: Fate, db: Db, i: nat)
    requires i < |names| && Run(names, s, es) == Solo(db, map[names[i] := 0], Inserted(i))
    ensures var after := db.(recorded := db.recorded + {names[i]}, effects := db.effects + [names[i]]);
            Run(names, s, es + [Step(0, fate)])
            == Solo(if fate == Fail then db else after, map[], if fate == Ok then Checking(i + 1) else Returned(false))
  {
    RunOne(names, s, es, Step(0, fate));
    CommitStep(names, fate, db, i);
  }

  // A process running alone and returning nil leaves every file applied, in order.
  lemma NilMeansAll(names: seq<string>, db: Db, es: seq<Event>, after: Db)
    requires Distinct(names) && DbInv(names, db)
    requires Run(names, Sys(db, map[], map[]), es) == Solo(after, map[], Returned(true))
    ensures after.effects == names && forall x :: x in after.recorded <==> x in names
  {
    RunInv(names, Sys(db, map[], map[]), es);
    assert ProcInv(names, Solo(after, map[], Returned(true)), 0);
    assert DbInv(names, after);
  }

  // Process 0's next steps, with these fates.
  function Steps(fates: seq<Fate>): seq<Event> {
    seq(|fates|, i requires 0 <= i < |fates| => Step(0, fates[i]))
  }

  // For each of the first files, the fates of the commands sent for it, in order: a beginning of the
  // file's own fates.
  function Sent(fates: seq<seq<Fate>>, lens: seq<nat>): seq<Fate>
    requires |lens| <= |fates| && forall i :: 0 <= i < |lens| ==> lens[i] <= |fates[i]|
  {
    if lens == [] then []
    else
      var last := |lens| - 1;
      Sent(fates, lens[..last]) + fates[last][..lens[last]]
  }

  // From `before`, a process whose commands met these fates, in order and with none skipped, ended in
  // `after` and returned nil just if every command it sent had succeeded.
  ghost predicate Ended(names: seq<string>, before: Db, created: Fate, fates: seq<seq<Fate>>, lens: seq<nat>,
                        after: Db, ok: bool) {
    && |lens| <= |fates| && (forall i :: 0 <= i < |lens| ==> lens[i] <= |fates[i]|)
    && var sent := Sent(fates, lens);
       && Run(names, Sys(before, map[], map[]), [Launch(0, created)] + Steps(if ok then sent + [Ok] else sent))
          == Solo(after, map[], Returned(ok))
       && (ok <==> created == Ok && forall k :: 0 <= k < |sent| ==> sent[k] == Ok)
  }

  ghost predicate Finished(names: seq<string>, before: Db, created: Fate, fates: seq<seq<Fate>>, after: Db, ok: bool) {
    exists lens :: Ended(names, before, created, fates, lens, after, ok)
  }

  lemma StepsAppend(fates: seq<Fate>, more: seq<Fate>)
    ensures Steps(fates + more) == Steps(fates) + Steps(more)
  {
  }

  lemma SentAppend(fates: seq<seq<Fate>>, lens: seq<nat>, n: nat)
    requires |lens| < |fates| && (forall i :: 0 <= i < |lens| ==> lens[i] <= |fates[i]|) && n <= |fates[|lens|]|
    ensures Sent(fates, lens + [n]) == Sent(fates, lens) + fates[|lens|][..n]
  {
    assert (lens + [n])[..|lens|] == lens;
  }

  // One command more.
  lemma OneStep(es: seq<Event>, fates: seq<Fate>, n: nat)
    requires n < |fates|
    ensures es + Steps(fates[..n]) + [Step(0, fates[n])] == es + Steps(fates[..n + 1])
  {
    assert fates[..n + 1] == fates[..n] + [fates[n]];
    StepsAppend(fates[..n], [fates[n]]);
    assert Steps([fates[n]]) == [Step(0, fates[n])];
  }

  lemma SoloNext(names: seq<string>, s: Sys, es: seq<Event>, fates: seq<Fate>, n: nat, db: Db, pc: Pc, pc': Pc)
    requires n < |fates| && Run(names, s, es + Steps(fates[..n])) == Solo(db, map[], pc)
    requires Advance(names, Solo(db, map[], pc), 0, fates[n]) == Move(Solo(db, map[], pc), 0, pc')
    ensures Run(names, s, es + Steps(fates[..n + 1])) == Solo(db, map[], pc')
  {
    SoloStep(names, s, es + Steps(fates[..n]), fates[n], db, map[], pc, pc');
    OneStep(es, fates, n);
  }

  ghost predicate Fine(fates: seq<Fate>) {
    forall k :: 0 <= k < |fates| ==> fates[k] == Ok
  }

  // How many commands the transaction sends, and what they leave.
  function TxLength(fates: seq<Fate>): nat
    requires |fates| == 4
  {
    if fates[0] != Ok then 1 else if fates[1] != Ok then 2 else if fates[2] != Ok then 3 else 4
  }

  function TxDb(db: Db, name: string, fates: seq<Fate>): Db
    requires |fates| == 4
  {
    if fates[0] == fates[1] == fates[2] == Ok && fates[3] != Fail
    then db.(recorded := db.recorded + {name}, effects := db.effects + [name]) else db
  }

  ghost predicate TxDone(names: seq<string>, s: Sys, es: seq<Event>, fates: seq<Fate>, db: Db, i: nat)
    requires i < |names| && |fates| == 4
  {
    Run(names, s, es + Steps(fates[..TxLength(fates)]))
    == Solo(TxDb(db, names[i], fates), map[], if Fine(fates) then Checking(i + 1) else Returned(false))
  }

  // BEGIN and the file's body, then the INSERT and the COMMIT.
  lemma TxBegin(names: seq<string>, s: Sys, es: seq<Event>, fates: seq<Fate>, db: Db, i: nat)
    requires i < |names| && |fates| == 4 && Run(names, s, es) == Solo(db, map[], Beginning(i))
    ensures if fates[0] != Ok then TxDone(names, s, es, fates, db, i)
            else Run(names, s, es + Steps(fates[..1])) == Solo(db, map[], InTx(i))
  {
    assert es + Steps(fates[..0]) == es;
    SoloNext(names, s, es, fates, 0, db, Beginning(i), if fates[0] == Ok then InTx(i) else Returned(false));
  }

  lemma TxBody(names: seq<string>, s: Sys, es: seq<Event>, fates: seq<Fate>, db: Db, i: nat)
    requires i < |names| && |fates| == 4 && fates[0] == Ok
    requires Run(names, s, es + Steps(fates[..1])) == Solo(db, map[], InTx(i))
    ensures if fates[1] != Ok then TxDone(names, s, es, fates, db, i)
            else Run(names, s, es + Steps(fates[..2])) == Solo(db, map[], BodyDone(i))
  {
    SoloNext(names, s, es, fates, 1, db, InTx(i), if fates[1] == Ok then BodyDone(i) else Returned(false));
  }

  lemma TxEnds(names: seq<string>, s: Sys, es: seq<Event>, fates: seq<Fate>, db: Db, i: nat)
    requires i < |names| && names[i] !in db.recorded && |fates| == 4
    requires Run(names, s, es + Steps(fates[..2])) == Solo(db, map[], BodyDone(i))
    requires fates[0] == fates[1] == Ok
    ensures TxDone(names, s, es, fates, db, i)
  {
    InsertAlone(names, s, es + Steps(fates[..2]), fates[2], db, i);
    OneStep(es, fates, 2);
    if fates[2] == Ok {
      CommitAlone(names, s, es + Steps(fates[..3]), fates[3], db, i);
      OneStep(es, fates, 3);
    }
  }

  lemma TxRuns(names: seq<string>, s: Sys, es: seq<Event>, fates: seq<Fate>, db: Db, i: nat)
    requires i < |names| && names[i] !in db.recorded && |fates| == 4
             && Run(names, s, es) == Solo(db, map[], Beginning(i))
    ensures TxDone(names, s, es, fates, db, i)
  {
    TxBegin(names, s, es, fates, db, i);
    if fates[0] == Ok {
      TxBody(names, s, es, fates, db, i);
      if fates[1] == Ok {
        TxEnds(names, s, es, fates, db, i);
      }
    }
  }

  lemma FineAppend(fates: seq<seq<Fate>>, lens: seq<nat>, n: nat)
    requires |lens| < |fates| && (forall i :: 0 <= i < |lens| ==> lens[i] <= |fates[i]|) && n <= |fates[|lens|]|
    requires Fine(Sent(fates, lens)) && Fine(fates[|lens|][..n])
    ensures Fine(Sent(fates, lens + [n]))
  {
    SentAppend(fates, lens, n);
  }

  lemma LaunchAlone(names: seq<string>, db: Db, created: Fate)
    ensures Run(names, Sys(db, map[], map[]), [Launch(0, created)])
            == Solo(if created == Fail then db else db.(table := true), map[],
                    if created == Ok then Checking(0) else Returned(false))
  {
    var s := Sys(db, map[], map[]);
    RunOne(names, s, [], Launch(0, created));
    assert [] + [Launch(0, created)] == [Launch(0, created)];
    assert s.procs[0 := Checking(0)] == map[0 := Checking(0)];
    assert s.procs[0 := Returned(false)] == map[0 := Returned(false)];
  }

  // Standing before file i with these many commands sent for the files before it, all successful.
  ghost predicate Standing(names: seq<string>, before: Db, fates: seq<seq<Fate>>, lens: seq<nat>, db: Db, pc: Pc) {
    && |lens| <= |fates| && (forall j :: 0 <= j < |lens| ==> lens[j] <= |fates[j]|)
    && Run(names, Sys(before, map[], map[]), [Launch(0, Ok)] + Steps(Sent(fates, lens))) == Solo(db, map[], pc)
  }

  lemma Launches(names: seq<string>, before: Db, created: Fate, fates: seq<seq<Fate>>)
    ensures var db := if created == Fail then before else before.(table := true);
            if created == Ok then Standing(names, before, fates, [], db, Checking(0))
            else Finished(names, before, created, fates, db, false)
  {
    LaunchAlone(names, before, created);
    assert [Launch(0, created)] + Steps(Sent(fates, [])) == [Launch(0, created)];
    if created != Ok {
      var after := if created == Fail then before else before.(table := true);
      assert Ended(names, before, created, fates, [], after, false);
    }
  }

  lemma FirstFate(fates: seq<Fate>)
    requires fates != []
    ensures Steps(fates[..1]) == [Step(0, fates[0])]
  {
  }

  // The first n commands for the next file follow what was sent before.
  lemma FileSteps(start: seq<Event>, fates: seq<seq<Fate>>, lens: seq<nat>, n: nat)
    requires |lens| < |fates| && (forall i :: 0 <= i < |lens| ==> lens[i] <= |fates[i]|) && n <= |fates[|lens|]|
    ensures start + Steps(Sent(fates, lens)) + Steps(fates[|lens|][..n]) == start + Steps(Sent(fates, lens + [n]))
  {
    SentAppend(fates, lens, n);
    StepsAppend(Sent(fates, lens), fates[|lens|][..n]);
  }

  // The check, then n commands of Apply.
  lemma FileApplied(names: seq<string>, before: Db, fates: seq<seq<Fate>>, lens: seq<nat>, n: nat, db: Db, pc: Pc)
    requires |lens| < |fates| && (forall i :: 0 <= i < |lens| ==> lens[i] <= |fates[i]|)
    requires |fates[|lens|]| == 5 && n <= 4
    requires Run(names, Sys(before, map[], map[]),
                 [Launch(0, Ok)] + Steps(Sent(fates, lens + [1])) + Steps(fates[|lens|][1..][..n]))
             == Solo(db, map[], pc)
    ensures Standing(names, before, fates, lens + [n + 1], db, pc)
  {
    var own, start := fates[|lens|], [Launch(0, Ok)];
    assert own[..n + 1] == own[..1] + own[1..][..n];
    StepsAppend(own[..1], own[1..][..n]);
    FileSteps(start, fates, lens, 1);
    FileSteps(start, fates, lens, n + 1);
    var base := start + Steps(Sent(fates, lens));
    assert base + Steps(own[..1]) + Steps(own[1..][..n]) == base + (Steps(own[..1]) + Steps(own[1..][..n]));
    forall j | 0 <= j < |lens + [n + 1]| ensures (lens + [n + 1])[j] <= |fates[j]| {
      if j < |lens| {
        assert (lens + [n + 1])[j] == lens[j];
      }
    }
  }

  // The SELECT for the next file.
  lemma Checks(names: seq<string>, before: Db, fates: seq<seq<Fate>>, lens: seq<nat>, db: Db, i: nat)
    requires i == |lens| < |names| == |fates| && |fates[i]| == 5
             && Standing(names, before, fates, lens, db, Checking(i))
    ensures Standing(names, before, fates, lens + [1], db,
                     if fates[i][0] != Ok then Returned(false)
                     else if names[i] in db.recorded then Checking(i + 1) else Beginning(i))
  {
    var start := [Launch(0, Ok)];
    SoloStep(names, Sys(before, map[], map[]), start + Steps(Sent(fates, lens)), fates[i][0], db, map[], Checking(i),
             if fates[i][0] != Ok then Returned(false)
             else if names[i] in db.recorded then Checking(i + 1) else Beginning(i));
    FileSteps(start, fates, lens, 1);
    FirstFate(fates[i]);
  }

  lemma EndsEarly(names: seq<string>, before: Db, fates: seq<seq<Fate>>, lens: seq<nat>, n: nat, db: Db)
    requires |lens| < |fates| && 0 < n <= |fates[|lens|]| && fates[|lens|][n - 1] != Ok
    requires Standing(names, before, fates, lens + [n], db, Returned(false))
    ensures Finished(names, before, Ok, fates, db, false)
  {
    forall j | 0 <= j < |lens| ensures lens[j] <= |fates[j]| {
      assert (lens + [n])[j] == lens[j];
    }
    SentAppend(fates, lens, n);
    var sent := Sent(fates, lens + [n]);
    assert sent[|Sent(fates, lens)| + n - 1] == fates[|lens|][n - 1];
    assert Ended(names, before, Ok, fates, lens + [n], db, false);
  }

  lemma EndsWell(names: seq<string>, before: Db, fates: seq<seq<Fate>>, lens: seq<nat>, db: Db)
    requires |lens| == |names| == |fates| && Standing(names, before, fates, lens, db, Checking(|names|))
    requires Fine(Sent(fates, lens))
    ensures Finished(names, before, Ok, fates, db, true)
    ensures Distinct(names) && DbInv(names, before) ==>
              db.effects == names && forall x :: x in db.recorded <==> x in names
  {
    var start, sent := [Launch(0, Ok)], Sent(fates, lens);
    SoloStep(names, Sys(before, map[], map[]), start + Steps(sent), Ok, db, map[], Checking(|names|), Returned(true));
    StepsAppend(sent, [Ok]);
    assert start + Steps(sent) + [Step(0, Ok)] == start + Steps(sent + [Ok]);
    assert Ended(names, before, Ok, fates, lens, db, true);
    if Distinct(names) && DbInv(names, before) {
      NilMeansAll(names, before, start + Steps(sent + [Ok]), db);
    }
  }

  class Migrator {
    var db: Db

    constructor ()
      ensures db == Fresh
    {
      db := Fresh;
    }

    // The transaction for file i, whose name was not recorded: BEGIN, the body, the INSERT, COMMIT. It
    // sends its commands in order until one fails; body and name are committed together, by a COMMIT
    // that took effect.
    method Apply(names: seq<string>, i: nat, fates: seq<Fate>, ghost s0: Sys, ghost es0: seq<Event>)
      returns (ok: bool, ghost n: nat)
      requires i < |names| && names[i] !in db.recorded && |fates| == 4
      requires Run(names, s0, es0) == Solo(db, map[], Beginning(i))
      modifies this
      ensures n <= 4
      ensures Run(names, s0, es0 + Steps(fates[..n]))
              == Solo(db, map[], if ok then Checking(i + 1) else Returned(false))
      ensures ok <==> Fine(fates)
      ensures if ok then n == 4 else n > 0 && fates[n - 1] != Ok
      ensures db == if fates[0] == fates[1] == fates[2] == Ok && fates[3] != Fail
                    then old(db).(recorded := old(db).recorded + {names[i]}, effects := old(db).effects + [names[i]])
                    else old(db)
    {
      TxRuns(names, s0, es0, fates, db, i);
      if fates[0] != Ok {
        return false, 1;
      }
      if fates[1] != Ok {
        return false, 2;
      }
      if fates[2] != Ok {
        return false, 3;
      }
      if fates[3] != Fail {
        db := db.(recorded := db.recorded + {names[i]}, effects := db.effects + [names[i]]);
      }
      return fates[3] == Ok, 4;
    }

    // A run of one process. `fates` gives the fate of CREATE TABLE, then, for each file, of the check and
    // of Apply's commands. From a database that migrations left behind, a nil return means that every
    // file is applied; and nil is returned unless some command sent did not succeed.
    method Up(names: seq<string>, created: Fate, fates: seq<seq<Fate>>) returns (ok: bool)
      requires |fates| == |names| && forall i :: 0 <= i < |fates| ==> |fates[i]| == 5
      modifies this
      ensures Finished(names, old(db), created, fates, db, ok)
      ensures created == Ok && (forall i :: 0 <= i < |fates| ==> Fine(fates[i])) ==> ok
      ensures Distinct(names) && DbInv(names, old(db)) && ok ==>
                db.effects == names && forall x :: x in db.recorded <==> x in names
      ensures created == Fail ==> !ok && db == old(db)
    {
      Launches(names, db, created, fates);
      ghost var lens: seq<nat> := [];
      if created != Fail {
        db := db.(table := true);
      }
      if created != Ok {
        return false;
      }
      for i := 0 to |names|
        invariant |lens| == i && Standing(names, old(db), fates, lens, db, Checking(i))
        invariant Fine(Sent(fates, lens))
      {
        var check := fates[i][0];
        Checks(names, old(db), fates, lens, db, i);
        if check != Ok {
          EndsEarly(names, old(db), fates, lens, 1, db);
          return false;
        }
        FineAppend(fates, lens, 1);
        if names[i] in db.recorded {
          lens := lens + [1];
          continue;
        }
        var applied;
        ghost var n;
        applied, n := Apply(names, i, fates[i][1..], Sys(old(db), map[], map[]),
                            [Launch(0, Ok)] + Steps(Sent(fates, lens + [1])));
        FileApplied(names, old(db), fates, lens, n, db, if applied then Checking(i + 1) else Returned(false));
        if !applied {
          EndsEarly(names, old(db), fates, lens, n + 1, db);
          return false;
        }
        assert Fine(fates[i][..5]);
        FineAppend(fates, lens, 5);
        lens := lens + [5];
      }
      EndsWell(names, old(db), fates, lens, db);
      return true;
    }
  }
}
