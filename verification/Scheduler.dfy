/** The scheduling policy of sys/isr.c and sys/schedule.c on values: who runs, who is ready, and
    how many ticks each process has left. */
module Scheduler {
  import opened Words
  import opened Mmu

  const QUANTUM: nat := 3
  /** Timer interrupts between two scheduling ticks. */
  const INTERVAL: nat := 180

  /** current is absent until the idle process has been dispatched for the first time; ticks counts
      timer interrupts since the last scheduling tick. */
  datatype Sched<P> = Sched(idle: P, current: Option<P>, ready: seq<P>, quantum: map<P, nat>, ticks: nat)

  /** Ticks left after one more has been used up. */
  function Left<P>(s: Sched<P>, p: P): nat {
    if p in s.quantum && s.quantum[p] > 0 then s.quantum[p] - 1 else 0
  }

  /** schedule_old_process: to the head while ticks are left, else to the tail with fresh ones. */
  function Requeue<P>(s: Sched<P>, p: P): Sched<P> {
    if Left(s, p) == 0 then s.(ready := s.ready + [p], quantum := s.quantum[p := QUANTUM])
    else s.(ready := [p] + s.ready, quantum := s.quantum[p := Left(s, p)])
  }

  /** One scheduling tick: the next process leaves the queue before the old one returns to it. */
  function Tick<P>(s: Sched<P>): Sched<P> {
    if s.current.None? then s.(current := Some(s.idle))
    else if s.ready != [] then Requeue(s.(ready := s.ready[1..]), s.current.value).(current := Some(s.ready[0]))
    else
      var s1 := Requeue(s, s.current.value);
      s1.(current := Some(s.idle), quantum := s1.quantum[s.idle := QUANTUM])
  }

  /** One timer interrupt. */
  function Interrupt<P>(s: Sched<P>): Sched<P> {
    if s.ticks + 1 == INTERVAL then Tick(s.(ticks := 0)) else s.(ticks := s.ticks + 1)
  }

  function Interrupts<P>(s: Sched<P>, n: nat): Sched<P> {
    if n == 0 then s else Interrupt(Interrupts(s, n - 1))
  }

  function Ticks<P>(s: Sched<P>, n: nat): Sched<P> {
    if n == 0 then s else Tick(Ticks(s, n - 1))
  }

  /** Ticking does not look at the interrupt counter. */
  lemma {:induction false} TicksApart<P>(s: Sched<P>, n: nat, c: nat)
    ensures Ticks(s.(ticks := c), n) == Ticks(s, n).(ticks := c)
  {
    hide Tick;
    if n > 0 {
      var k: nat := n - 1;
      TicksApart(s, k, c);
      TickApart(Ticks(s, k), c);
    }
  }

  lemma TickApart<P>(s: Sched<P>, c: nat)
    ensures Tick(s.(ticks := c)) == Tick(s).(ticks := c)
  {
  }

  /** n interrupts are n / 180 scheduling ticks. */
  lemma {:induction false} InterruptsAreTicks<P>(s: Sched<P>, n: nat)
    requires s.ticks == 0
    ensures Interrupts(s, n) == Ticks(s, n / 180).(ticks := n % 180)
  {
    hide Tick;
    if n > 0 {
      var k: nat := n - 1;
      InterruptsAreTicks(s, k);
      TicksApart(s, n / INTERVAL, 0);
      TicksApart(s, k / INTERVAL, 0);
      TickApart(Ticks(s, k / INTERVAL), 0);
    }
  }

  // ---- Conservation ----

  /** The process that runs and those that are ready. */
  function All<P>(s: Sched<P>): seq<P> {
    (if s.current.Some? then [s.current.value] else []) + s.ready
  }

  ghost predicate Distinct<P>(ps: seq<P>) {
    forall i, j :: 0 <= i < j < |ps| ==> ps[i] != ps[j]
  }

  /** Once scheduling has begun: idle and every other process is there exactly once. */
  ghost predicate Conserved<P>(s: Sched<P>) {
    s.current.Some? && Distinct(All(s)) && s.idle in All(s)
  }

  lemma DistinctCounts<P>(ps: seq<P>)
    ensures Distinct(ps) <==> forall p :: p in ps ==> multiset(ps)[p] == 1
  {
    if Distinct(ps) {
      forall p | p in ps
        ensures multiset(ps)[p] == 1
      {
        CountOnce(ps, p);
      }
    } else {
      var i, j :| 0 <= i < j < |ps| && ps[i] == ps[j];
      assert ps == ps[..i] + [ps[i]] + ps[i + 1..j] + [ps[j]] + ps[j + 1..];
      assert multiset(ps)[ps[i]] >= 2;
    }
  }

  lemma {:induction false} CountOnce<P>(ps: seq<P>, p: P)
    requires Distinct(ps)
    ensures multiset(ps)[p] <= 1
    decreases |ps|
  {
    if ps != [] {
      CountOnce(ps[1..], p);
      assert ps == [ps[0]] + ps[1..];
      if ps[0] == p {
        assert p !in ps[1..];
      }
    }
  }

  /** With somebody ready, a tick only moves processes around. */
  lemma TickMoves<P>(s: Sched<P>)
    requires s.current.Some? && s.ready != []
    ensures Tick(s).current.Some? && Tick(s).ready != [] && Tick(s).idle == s.idle
    ensures multiset(All(Tick(s))) == multiset(All(s))
  {
    var c, s1 := s.current.value, s.ready[1..];
    var t := Tick(s);
    assert s.ready == [s.ready[0]] + s1;
    assert All(t) == [s.ready[0]] + (if Left(s, c) == 0 then s1 + [c] else [c] + s1);
    Moved(c, s.ready[0], s1);
  }

  lemma Moved<P>(c: P, h: P, rest: seq<P>)
    ensures multiset([c] + ([h] + rest)) == multiset([h] + (rest + [c])) == multiset([h] + ([c] + rest))
  {
  }

  /** Conservation holds over a tick exactly when somebody is ready: with an empty queue idle is
      running, and it is put on the queue while it goes on running. */
  lemma TickConserves<P>(s: Sched<P>)
    requires Conserved(s)
    ensures Conserved(Tick(s)) <==> s.ready != []
    ensures s.ready != [] ==> multiset(All(Tick(s))) == multiset(All(s)) && Tick(s).ready != []
    ensures s.ready == [] ==> All(Tick(s)) == [s.idle, s.idle]
  {
    if s.ready != [] {
      hide Tick, Distinct, All;
      var t := Tick(s);
      TickMoves(s);
      DistinctCounts(All(s));
      DistinctCounts(All(t));
      assert s.idle in multiset(All(s)) && s.idle in multiset(All(t));
    } else {
      OnlyIdle(s);
    }
  }

  lemma OnlyIdle<P>(s: Sched<P>)
    requires Conserved(s) && s.ready == []
    ensures All(Tick(s)) == [s.idle, s.idle] && !Conserved(Tick(s))
  {
    assert All(s) == [s.current.value];
    var t := Tick(s);
    assert All(t) == [s.idle, s.idle];
    assert All(t)[0] == All(t)[1];
  }

  /** Timer interrupts, and new processes appended by add_ready_process or schedule_user_process. */
  datatype Event<P> = Timer | Arrive(process: P, quantum: nat)

  function Step<P>(s: Sched<P>, e: Event<P>): Sched<P> {
    match e
    case Timer => Interrupt(s)
    case Arrive(p, q) => s.(ready := s.ready + [p], quantum := s.quantum[p := q])
  }

  function Play<P>(s: Sched<P>, es: seq<Event<P>>): Sched<P>
    decreases |es|
  {
    if es == [] then s else Play(Step(s, es[0]), es[1..])
  }

  /** The processes that arrive, in order. */
  function Arrivals<P>(es: seq<Event<P>>): seq<P>
    decreases |es|
  {
    if es == [] then []
    else (if es[0].Arrive? then [es[0].process] else []) + Arrivals(es[1..])
  }

  /** What holds in every state: before the first tick, idle waits outside the queue; afterwards it
      is among the processes that run or are ready. `known` are the processes scheduled so far. */
  ghost predicate Reachable<P>(s: Sched<P>, known: multiset<P>) {
    && s.ticks < INTERVAL
    && (forall p :: p in known ==> known[p] == 1) && s.idle !in known
    && (s.current.None? ==> multiset(s.ready) == known)
    && (s.current.Some? ==> multiset(All(s)) == known + multiset{s.idle} && s.ready != [])
  }

  /** The process that an event adds. */
  function Added<P>(e: Event<P>): multiset<P> {
    if e.Arrive? then multiset{e.process} else multiset{}
  }

  lemma ArrivalReaches<P>(s: Sched<P>, known: multiset<P>, p: P, q: nat)
    requires Reachable(s, known) && p !in known && p != s.idle
    ensures Reachable(Step(s, Arrive(p, q)), known + multiset{p})
  {
    var s' := Step(s, Arrive(p, q));
    assert All(s') == All(s) + [p];
    assert multiset(All(s')) == multiset(All(s)) + multiset{p};
    assert multiset(s'.ready) == multiset(s.ready) + multiset{p};
  }

  lemma TimerReaches<P>(s: Sched<P>, known: multiset<P>)
    requires Reachable(s, known) && (s.current.None? && s.ticks + 1 == INTERVAL ==> s.ready != [])
    ensures Reachable(Interrupt(s), known)
  {
    hide Tick;
    if s.ticks + 1 == INTERVAL {
      var s0 := s.(ticks := 0);
      assert All(s0) == All(s);
      TickTicks(s0);
      if s.current.Some? {
        TickMoves(s0);
      } else {
        FirstTick(s0);
      }
    } else {
      assert All(Interrupt(s)) == All(s);
    }
  }

  lemma TickTicks<P>(s: Sched<P>)
    ensures Tick(s).ticks == s.ticks && Tick(s).idle == s.idle && Tick(s).current.Some?
  {
  }

  lemma FirstTick<P>(s: Sched<P>)
    requires s.current.None?
    ensures Tick(s).ready == s.ready && multiset(All(Tick(s))) == multiset(s.ready) + multiset{s.idle}
  {
    assert All(Tick(s)) == [s.idle] + s.ready;
  }

  lemma StepReaches<P>(s: Sched<P>, known: multiset<P>, e: Event<P>)
    requires Reachable(s, known)
    requires e.Timer? && s.current.None? && s.ticks + 1 == INTERVAL ==> s.ready != []
    requires e.Arrive? ==> e.process !in known && e.process != s.idle
    ensures Reachable(Step(s, e), known + Added(e)) && Step(s, e).idle == s.idle
  {
    hide Reachable, Tick;
    match e
    case Arrive(p, q) => ArrivalReaches(s, known, p, q);
    case Timer =>
      TimerReaches(s, known);
      TickTicks(s.(ticks := 0));
      assert known + Added(e) == known;
  }

  /** Arrivals are new processes, and one has come before the first interrupt that schedules. */
  ghost predicate Orderly<P>(s: Sched<P>, known: multiset<P>, es: seq<Event<P>>)
    decreases |es|
  {
    es != [] ==>
      && (es[0].Timer? && s.current.None? && s.ticks + 1 == INTERVAL ==> s.ready != [])
      && (es[0].Arrive? ==> es[0].process !in known && es[0].process != s.idle)
      && Orderly(Step(s, es[0]), known + Added(es[0]), es[1..])
  }

  /** Scheduler conservation: whatever interrupts and arrivals come, once idle has been dispatched
      the running process and the ready queue together hold idle and each process scheduled so far
      exactly once, and the queue never runs empty. */
  lemma {:induction false} RunConserves<P>(s: Sched<P>, known: multiset<P>, es: seq<Event<P>>)
    requires Reachable(s, known) && Orderly(s, known, es)
    ensures var s' := Play(s, es);
            && s'.idle == s.idle && Reachable(s', known + multiset(Arrivals(es)))
            && (s'.current.Some? ==> Conserved(s') && s'.ready != [])
    decreases |es|
  {
    hide Reachable, Step, Distinct, Arrivals;
    if es == [] {
      NoArrivals(es);
      assert known + multiset{} == known;
    } else {
      StepReaches(s, known, es[0]);
      RunConserves(Step(s, es[0]), known + Added(es[0]), es[1..]);
      FirstArrival(es);
      assert known + multiset(Arrivals(es)) == known + Added(es[0]) + multiset(Arrivals(es[1..]));
    }
    ReachableConserved(Play(s, es), known + multiset(Arrivals(es)));
  }

  lemma NoArrivals<P>(es: seq<Event<P>>)
    requires es == []
    ensures multiset(Arrivals(es)) == multiset{}
  {
  }

  lemma FirstArrival<P>(es: seq<Event<P>>)
    requires es != []
    ensures multiset(Arrivals(es)) == Added(es[0]) + multiset(Arrivals(es[1..]))
  {
  }

  lemma ReachableConserved<P>(s: Sched<P>, known: multiset<P>)
    requires Reachable(s, known)
    ensures s.current.Some? ==> Conserved(s) && s.ready != []
  {
    hide Distinct, All;
    if s.current.Some? {
      DistinctCounts(All(s));
      assert s.idle in multiset(All(s));
    }
  }

  // ---- The closed form ----

  /** Every process has all of its ticks left. */
  ghost predicate Fresh<P>(s: Sched<P>) {
    forall p :: p in All(s) ==> p in s.quantum && s.quantum[p] == QUANTUM
  }

  /** Two processes or more, each once, none of which has used a tick. */
  ghost predicate Steady<P>(s: Sched<P>) {
    s.current.Some? && s.ready != [] && Distinct(All(s)) && Fresh(s)
  }

  lemma {:induction false} TicksCompose<P>(s: Sched<P>, a: nat, b: nat)
    ensures Ticks(s, a + b) == Ticks(Ticks(s, a), b)
    decreases b
  {
    hide Tick;
    if b > 0 {
      var k: nat := b - 1;
      TicksCompose(s, a, k);
    }
  }

  /** A tick that leaves the old process something goes back and forth between the two in front. */
  lemma BackAndForth<P>(s: Sched<P>, a: P, b: P, rest: seq<P>, q: nat)
    requires s.current == Some(a) && s.ready == [b] + rest && a in s.quantum && s.quantum[a] == q + 1 && q > 0
    ensures Tick(s) == s.(current := Some(b), ready := [a] + rest, quantum := s.quantum[a := q])
  {
    assert s.ready[1..] == rest;
  }

  lemma ToTheEnd<P>(s: Sched<P>, a: P, b: P, rest: seq<P>)
    requires s.current == Some(a) && s.ready == [b] + rest && a in s.quantum && s.quantum[a] == 1
    ensures Tick(s) == s.(current := Some(b), ready := rest + [a], quantum := s.quantum[a := QUANTUM])
  {
    assert s.ready[1..] == rest;
  }

  lemma NextTick<P>(s: Sched<P>, n: nat, m: nat)
    requires m == n + 1
    ensures Ticks(s, m) == Tick(Ticks(s, n))
  {
  }

  lemma SixStates<P>(s: Sched<P>, a: P, b: P, rest: seq<P>)
    requires s.current == Some(a) && s.ready == [b] + rest && a != b
    requires a in s.quantum && s.quantum[a] == QUANTUM && b in s.quantum && s.quantum[b] == QUANTUM
    requires rest != [] ==> rest[0] != a && rest[0] != b
    ensures Ticks(s, 0).current == Ticks(s, 2).current == Ticks(s, 4).current == Some(a)
    ensures Ticks(s, 1).current == Ticks(s, 3).current == Ticks(s, 5).current == Some(b)
    ensures Ticks(s, 6).current.Some? && All(Ticks(s, 6)) == rest + [a, b] && Ticks(s, 6).quantum == s.quantum
  {
    hide Tick, Ticks;
    NoTicks(s);
    BackAndForth(s, a, b, rest, 2);
    NextTick(s, 0, 1);
    var s1 := Ticks(s, 1);
    BackAndForth(s1, b, a, rest, 2);
    NextTick(s, 1, 2);
    var s2 := Ticks(s, 2);
    BackAndForth(s2, a, b, rest, 1);
    NextTick(s, 2, 3);
    var s3 := Ticks(s, 3);
    BackAndForth(s3, b, a, rest, 1);
    NextTick(s, 3, 4);
    var s4 := Ticks(s, 4);
    ToTheEnd(s4, a, b, rest);
    NextTick(s, 4, 5);
    var s5 := Ticks(s, 5);
    assert s5.ready == rest + [a] == [s5.ready[0]] + s5.ready[1..];
    ToTheEnd(s5, b, s5.ready[0], s5.ready[1..]);
    NextTick(s, 5, 6);
    var s6 := Ticks(s, 6);
    assert All(s6) == rest + [a] + [b];
    assert s6.quantum == s.quantum;
  }

  /** The two processes at the front take turns, and after three turns each go to the end. */
  lemma SixTicks<P>(s: Sched<P>)
    requires Steady(s)
    ensures var ps := All(s);
            && (forall t :: 0 <= t < 6 ==> Ticks(s, t).current == Some(ps[t % 2]))
            && Ticks(s, 6).current.Some? && All(Ticks(s, 6)) == ps[2..] + ps[..2]
            && Ticks(s, 6).quantum == s.quantum && Steady(Ticks(s, 6))
  {
    hide Tick, Ticks;
    var ps, a, b, rest := All(s), s.current.value, s.ready[0], s.ready[1..];
    assert ps[0] == a && ps[1] == b && ps[2..] == rest && ps[..2] == [a, b];
    assert rest != [] ==> ps[2] == rest[0];
    assert s.ready == [b] + rest;
    SixStates(s, a, b, rest);
    RotatedDistinct(ps, All(Ticks(s, 6)));
  }

  lemma RotatedPlaces<P>(ps: seq<P>, qs: seq<P>)
    requires |ps| >= 2 && qs == ps[2..] + ps[..2]
    ensures forall i :: 0 <= i < |ps| ==> qs[i] == ps[Place(|ps|, 2 + i)]
  {
    hide Place;
    forall i | 0 <= i < |ps|
      ensures qs[i] == ps[Place(|ps|, 2 + i)]
    {
      PlaceNear(|ps|, 2 + i);
    }
  }

  lemma RotatedDistinct<P>(ps: seq<P>, qs: seq<P>)
    requires |ps| >= 2 && qs == ps[2..] + ps[..2] && Distinct(ps)
    ensures Distinct(qs)
    ensures forall p :: p in qs ==> p in ps
  {
    forall i, j | 0 <= i < j < |qs|
      ensures qs[i] != qs[j]
    {
      var n := |ps|;
      assert qs[i] == ps[if i < n - 2 then i + 2 else i + 2 - n];
      assert qs[j] == ps[if j < n - 2 then j + 2 else j + 2 - n];
    }
  }

  // ---- Places in a cycle of n ----

  function Place(n: nat, k: nat): (i: nat)
    requires n > 0
    ensures i < n
  {
    k % n
  }

  /** Below 2 n, going round at most once. */
  lemma PlaceNear(n: nat, k: nat)
    requires 0 < n && k < 2 * n
    ensures Place(n, k) == if k < n then k else k - n
  {
    if k < n { DivModUnique(k, n, 0, k); } else { DivModUnique(k, n, 1, k - n); }
  }

  lemma PlaceNext(n: nat, k: nat)
    requires n > 0
    ensures Place(n, k + 1) == if Place(n, k) == n - 1 then 0 else Place(n, k) + 1
    ensures (k + 1) / n == k / n + if Place(n, k) == n - 1 then 1 else 0
  {
    var q, r := k / n, k % n;
    assert k == q * n + r;
    if r == n - 1 {
      assert k + 1 == (q + 1) * n by { assert (q + 1) * n == q * n + n; }
      DivModUnique(k + 1, n, q + 1, 0);
    } else {
      DivModUnique(k + 1, n, q, r + 1);
    }
  }

  lemma {:induction false} PlaceSum(n: nat, a: nat, b: nat)
    requires n > 0
    ensures Place(n, a + Place(n, b)) == Place(n, a + b)
    decreases a
  {
    hide Place;
    if a == 0 {
      PlaceNear(n, Place(n, b));
    } else {
      PlaceSum(n, a - 1, b);
      PlaceNext(n, a - 1 + Place(n, b));
      PlaceNext(n, a - 1 + b);
    }
  }

  /** After 6 j ticks the processes are rotated by 2 j places, and all is as fresh as before. */
  lemma {:induction false} Blocks<P>(s: Sched<P>, j: nat)
    requires Steady(s)
    ensures var s', ps := Ticks(s, 6 * j), All(s);
            && Steady(s') && |All(s')| == |ps|
            && forall i :: 0 <= i < |ps| ==> All(s')[i] == ps[Place(|ps|, 2 * j + i)]
  {
    hide Tick, Place, Steady, All, Ticks;
    var ps := All(s);
    Enough(s);
    if j == 0 {
      NoTicks(s);
      forall i | 0 <= i < |ps|
        ensures ps[i] == ps[Place(|ps|, i)]
      {
        PlaceNear(|ps|, i);
      }
    } else {
      var k: nat := j - 1;
      Blocks(s, k);
      TicksCompose(s, 6 * k, 6);
      var s1 := Ticks(s, 6 * k);
      SixTicks(s1);
      Enough(s1);
      RotatedPlaces(All(s1), All(Ticks(s1, 6)));
      forall i | 0 <= i < |ps|
        ensures All(Ticks(s1, 6))[i] == ps[Place(|ps|, 2 * j + i)]
      {
        PlaceSum(|ps|, 2 * k, 2 + i);
      }
    }
  }

  lemma NoTicks<P>(s: Sched<P>)
    ensures Ticks(s, 0) == s
  {
  }

  lemma Enough<P>(s: Sched<P>)
    requires Steady(s)
    ensures |All(s)| >= 2
  {
  }

  /** The place of the process that runs after t ticks. */
  function Turn(n: nat, t: nat): (i: nat)
    requires n > 0
    ensures i < n
  {
    Place(n, 2 * (t / 6) + t % 2)
  }

  /** The closed form: with n >= 2 processes P that all have three ticks left and no arrivals, the
      process running after t ticks is P[(2 (t div 6) + t mod 2) mod n]. */
  lemma ClosedForm<P>(s: Sched<P>, t: nat)
    requires Steady(s)
    ensures var n := |All(s)|; n >= 2 && Ticks(s, t).current == Some(All(s)[(2 * (t / 6) + t % 2) % n])
    ensures Ticks(s, t).current == Some(All(s)[Turn(|All(s)|, t)])
  {
    Enough(s);
    RunningAt(s, t);
  }

  lemma RunningAt<P>(s: Sched<P>, t: nat)
    requires Steady(s) && |All(s)| >= 2
    ensures Ticks(s, t).current == Some(All(s)[Turn(|All(s)|, t)])
  {
    hide Tick, Ticks, Steady, All, Place;
    var j, r := t / 6, t % 6;
    Blocks(s, j);
    TicksCompose(s, 6 * j, r);
    SixTicks(Ticks(s, 6 * j));
    assert t % 2 == r % 2;
  }

  // ---- Fairness ----

  /** How many of the first t ticks dispatch process p. */
  function Dispatches<P(==)>(s: Sched<P>, t: nat, p: P): nat {
    if t == 0 then 0 else Dispatches(s, t - 1, p) + if Ticks(s, t).current == Some(p) then 1 else 0
  }

  /** How many of the states 0 .. t - 1 have place i running. */
  function Turns(n: nat, t: nat, i: nat): nat
    requires n > 0
  {
    if t == 0 then 0 else Turns(n, t - 1, i) + if Turn(n, t - 1) == i then 1 else 0
  }

  /** What a place gets when q full cycles and m places of the next have had three turns each, and
      the pair at m has had r turns. */
  function Share(n: nat, q: nat, m: nat, r: nat, i: nat): nat {
    3 * (q + if i < m then 1 else 0)
    + (if i == m then (r + 1) / 2 else 0)
    + (if i == (if m == n - 1 then 0 else m + 1) then r / 2 else 0)
  }

  /** What place i has got when the pair that starts k places on has had r turns. */
  function Got(n: nat, k: nat, r: nat, i: nat): nat
    requires n > 0
  {
    Share(n, k / n, Place(n, k), r, i)
  }

  /** One state more, while the pair is the same. */
  lemma GotGrows(n: nat, k: nat, r: nat, i: nat)
    requires n >= 2 && r < 5
    ensures Got(n, k, r + 1, i) == Got(n, k, r, i) + if i == Place(n, k + r % 2) then 1 else 0
  {
    hide Place;
    PlaceNext(n, k);
  }

  /** The sixth state of a pair completes its share, and the next pair starts two places on. */
  lemma GotMoves(n: nat, k: nat, i: nat)
    requires n >= 2 && i < n
    ensures Got(n, k + 2, 0, i) == Got(n, k, 5, i) + if i == Place(n, k + 1) then 1 else 0
  {
    hide Place;
    PlaceNext(n, k);
    PlaceNext(n, k + 1);
  }

  /** Three turns for each full round of the pair that a place belongs to, and what the round that
      is under way has given so far. */
  lemma {:induction false} TurnsClosed(n: nat, t: nat, i: nat)
    requires n >= 2 && i < n
    ensures Turns(n, t, i) == Got(n, 2 * (t / 6), t % 6, i)
  {
    hide *;
    if t == 0 {
      NoTurns(n, i);
      Sixes(0, 0, 0);
      NoneGot(n, i);
    } else {
      var u: nat := t - 1;
      var q, r := InSixes(u);
      Sixes(u, q, r);
      TurnsClosed(n, u, i);
      OneTurnMore(n, u, q, r, i);
      if r == 5 {
        Sixes(t, q + 1, 0);
        GotMoves(n, 2 * q, i);
      } else {
        Sixes(t, q, r + 1);
        GotGrows(n, 2 * q, r, i);
      }
    }
  }

  lemma InSixes(t: nat) returns (q: nat, r: nat)
    ensures t == 6 * q + r && r < 6
  {
    q, r := t / 6, t % 6;
  }

  /** Quotient, remainder and parity of a number given in sixes. */
  lemma Sixes(t: nat, q: nat, r: nat)
    requires t == 6 * q + r && r < 6
    ensures t / 6 == q && t % 6 == r && t % 2 == r % 2
  {
    DivModUnique(t, 6, q, r);
    var h, o := Halves(r);
    DivModUnique(r, 2, h, o);
    DivModUnique(t, 2, 3 * q + h, o);
  }

  lemma Halves(k: nat) returns (h: nat, o: nat)
    ensures k == 2 * h + o && o < 2
  {
    h, o := k / 2, k % 2;
  }

  lemma NoTurns(n: nat, i: nat)
    requires n > 0
    ensures Turns(n, 0, i) == 0
  {
  }

  lemma OneTurnMore(n: nat, u: nat, q: nat, r: nat, i: nat)
    requires n > 0 && u == 6 * q + r && r < 6
    ensures Turns(n, u + 1, i) == Turns(n, u, i) + if i == Place(n, 2 * q + r % 2) then 1 else 0
  {
    hide Place;
    Sixes(u, q, r);
  }

  lemma NoneGot(n: nat, i: nat)
    requires n >= 2
    ensures Got(n, 0, 0, i) == 0
  {
    hide Place;
    PlaceNear(n, 0);
    DivModUnique(0, n, 0, 0);
  }

  /** No place is more than three turns ahead of another, and none is ahead of place 0 except by
      what the first turn, which is not a dispatch, makes up for. */
  lemma SharesFair(n: nat, q: nat, m: nat, r: nat, i: nat, j: nat)
    requires n >= 2 && m < n && r < 6 && i < n && j < n
    ensures Share(n, q, m, r, i) <= Share(n, q, m, r, j) + 3
    ensures j == 0 ==> Share(n, q, m, r, i) <= Share(n, q, m, r, j) + 2
  {
  }

  lemma GotFair(n: nat, k: nat, r: nat, i: nat, j: nat)
    requires n >= 2 && r < 6 && i < n && j < n
    ensures Got(n, k, r, i) <= Got(n, k, r, j) + 3
    ensures j == 0 ==> Got(n, k, r, i) <= Got(n, k, r, j) + 2
  {
    hide Share;
    SharesFair(n, k / n, Place(n, k), r, i, j);
  }

  lemma {:induction false} DispatchesAreTurns<P>(s: Sched<P>, t: nat, i: nat)
    requires Steady(s) && i < |All(s)|
    ensures |All(s)| >= 2
    ensures Dispatches(s, t, All(s)[i]) + (if i == 0 then 1 else 0) == Turns(|All(s)|, t + 1, i)
    decreases t
  {
    hide Tick, Ticks, Place, Fresh;
    Enough(s);
    var n := |All(s)|;
    if t == 0 {
      PlaceNear(n, 0);
      assert Turn(n, 0) == 0;
      assert Turns(n, 1, i) == Turns(n, 0, i) + if Turn(n, 0) == i then 1 else 0;
    } else {
      var u: nat := t - 1;
      DispatchesAreTurns(s, u, i);
      RunningAt(s, t);
      assert All(s)[Turn(n, t)] == All(s)[i] <==> Turn(n, t) == i;
    }
  }

  /** Fairness: at any time, the numbers of times that two processes have been dispatched differ by
      three at most. */
  lemma DispatchesFair<P>(s: Sched<P>, t: nat, p: P, q: P)
    requires Steady(s) && p in All(s) && q in All(s)
    ensures Dispatches(s, t, p) <= Dispatches(s, t, q) + 3
  {
    hide Tick, Ticks, Place, Fresh, Turns, Dispatches, Got;
    var n := |All(s)|;
    var i: nat :| i < n && All(s)[i] == p;
    var j: nat :| j < n && All(s)[j] == q;
    DispatchesAreTurns(s, t, i);
    DispatchesAreTurns(s, t, j);
    TurnsClosed(n, t + 1, i);
    TurnsClosed(n, t + 1, j);
    GotFair(n, 2 * ((t + 1) / 6), (t + 1) % 6, i, j);
  }

  // ---- Waiting ----

  /** How many of the events are interrupts that schedule. */
  function SchedulingTicks<P>(s: Sched<P>, es: seq<Event<P>>): nat
    decreases |es|
  {
    if es == [] then 0
    else (if es[0].Timer? && s.ticks + 1 == INTERVAL then 1 else 0) + SchedulingTicks(Step(s, es[0]), es[1..])
  }

  /** Whether one of these interrupts makes p the running process. */
  predicate IsDispatched<P(==)>(s: Sched<P>, es: seq<Event<P>>, p: P)
    decreases |es|
  {
    es != [] &&
    ((es[0].Timer? && s.ticks + 1 == INTERVAL && Interrupt(s).current == Some(p))
      || IsDispatched(Step(s, es[0]), es[1..], p))
  }

  /** Arrivals are processes that neither run nor wait, with three ticks at most. */
  ghost predicate Newcomers<P>(s: Sched<P>, es: seq<Event<P>>)
    decreases |es|
  {
    es != [] ==>
      && (es[0].Arrive? ==> es[0].process !in All(s) && es[0].quantum <= QUANTUM)
      && Newcomers(Step(s, es[0]), es[1..])
  }

  ghost predicate QuantaFit<P>(s: Sched<P>) {
    forall p :: p in s.quantum ==> s.quantum[p] <= QUANTUM
  }

  function QuantumOf<P(==)>(s: Sched<P>, p: P): nat {
    if p in s.quantum then s.quantum[p] else 0
  }

  /** The turns a process has left: it gets one even with no ticks left. */
  function TurnsLeft<P(==)>(s: Sched<P>, p: P): (a: nat)
    ensures a >= 1
  {
    if QuantumOf(s, p) <= 1 then 1 else QuantumOf(s, p)
  }

  /** The longest wait at place k behind a running process with a turns left, whatever quanta the
      others have. */
  function LongestWait(k: nat, a: nat): (t: nat)
    requires a >= 1
    ensures t >= 1
  {
    if k % 2 == 0 then 3 * k + 1 else 3 * (k - 1) + 2 * a
  }

  /** The wait at place k > 0 behind a running process with a turns left and a first one with b: they
      alternate until one of them goes to the end, and the other one runs on. */
  function PairWait(k: nat, a: nat, b: nat): (t: nat)
    requires k > 0 && a >= 1 && b >= 1
    ensures t >= 1
  {
    if a <= b then 2 * a - 1 + LongestWait(k - 1, b - a + 1) else 2 * b + LongestWait(k - 1, a - b)
  }

  /** How many ticks a process can have to wait at place k of the queue. */
  function Wait<P(==)>(s: Sched<P>, k: nat): nat
    requires s.current.Some? && k < |s.ready|
  {
    if k == 0 then 1 else PairWait(k, TurnsLeft(s, s.current.value), TurnsLeft(s, s.ready[0]))
  }

  /** The first process of the queue is no worse than the worst. */
  lemma PairIsNoLonger(k: nat, a: nat, b: nat)
    requires k > 0 && 1 <= a <= QUANTUM && 1 <= b <= QUANTUM
    ensures PairWait(k, a, b) <= LongestWait(k, a) <= WaitBound(k)
  {
  }

  /** 1, 6, 7, 12, 13, ...: the bound for place k. */
  function WaitBound(k: nat): nat {
    if k % 2 == 0 then 3 * k + 1 else 3 * k + 3
  }

  /** The first at place k has had its wait shortened by a tick. */
  ghost predicate Nearer<P>(s: Sched<P>, t: Sched<P>, k: nat, j: nat)
    requires s.current.Some? && t.current.Some? && k < |s.ready| && j < |t.ready|
  {
    t.ready[j] == s.ready[k] && Wait(t, j) + 1 <= Wait(s, k)
  }

  /** A running process with its last turn goes to the end, and the others move up. */
  lemma LastTurn<P>(s: Sched<P>, k: nat)
    requires s.current.Some? && 0 < k < |s.ready| && QuantaFit(s) && TurnsLeft(s, s.current.value) == 1
    requires s.current.value != s.ready[0]
    ensures var t := Tick(s); t.current.Some? && k - 1 < |t.ready| && Nearer(s, t, k, k - 1)
  {
    hide LongestWait;
    var c, h, t := s.current.value, s.ready[0], Tick(s);
    assert t.ready == s.ready[1..] + [c];
    assert t.ready[k - 1] == s.ready[k];
    assert TurnsLeft(t, h) == TurnsLeft(s, h);
    TurnsFit(s, h);
    TickFits(s);
    TurnsFit(t, t.ready[0]);
    NoWait(TurnsLeft(s, h));
    if k > 1 {
      PairIsNoLonger(k - 1, TurnsLeft(t, h), TurnsLeft(t, t.ready[0]));
    }
  }

  lemma NoWait(a: nat)
    requires a >= 1
    ensures LongestWait(0, a) == 1
  {
  }

  lemma TurnsFit<P>(s: Sched<P>, p: P)
    requires QuantaFit(s)
    ensures TurnsLeft(s, p) <= QUANTUM
  {
  }

  /** One with more turns goes back to the head. */
  lemma EarlierTurn<P>(s: Sched<P>, k: nat)
    requires s.current.Some? && 0 < k < |s.ready| && QuantaFit(s) && TurnsLeft(s, s.current.value) > 1
    requires s.current.value != s.ready[0]
    ensures var t := Tick(s); t.current.Some? && k < |t.ready| && Nearer(s, t, k, k)
  {
    hide LongestWait;
    var c, h, t := s.current.value, s.ready[0], Tick(s);
    assert t.ready == [c] + s.ready[1..];
    assert t.ready[k] == s.ready[k];
    assert TurnsLeft(t, c) == TurnsLeft(s, c) - 1 && TurnsLeft(t, h) == TurnsLeft(s, h);
  }

  /** A tick brings everybody nearer whom it does not dispatch. */
  lemma TickShortens<P>(s: Sched<P>, k: nat)
    requires s.current.Some? && 0 < k < |s.ready| && QuantaFit(s) && Distinct(All(s))
    ensures var t := Tick(s);
            && t.current.Some? && QuantaFit(t) && Distinct(All(t))
            && exists j: nat :: j < |t.ready| && Nearer(s, t, k, j)
  {
    FrontApart(s);
    hide Nearer, Wait, TurnsLeft, Distinct, All;
    TickFits(s);
    TickMoves(s);
    DistinctCounts(All(s));
    DistinctCounts(All(Tick(s)));
    assert forall p :: p in All(Tick(s)) ==> p in multiset(All(s));
    if TurnsLeft(s, s.current.value) > 1 { EarlierTurn(s, k); } else { LastTurn(s, k); }
  }

  lemma FrontApart<P>(s: Sched<P>)
    requires s.current.Some? && s.ready != [] && Distinct(All(s))
    ensures s.current.value != s.ready[0]
  {
    assert All(s)[0] == s.current.value && All(s)[1] == s.ready[0];
  }

  lemma TickFits<P>(s: Sched<P>)
    requires QuantaFit(s)
    ensures QuantaFit(Tick(s))
  {
  }

  lemma StepWaits<P>(s: Sched<P>, e: Event<P>, k: nat)
    requires s.current.Some? && k < |s.ready| && QuantaFit(s) && Distinct(All(s))
    requires e.Arrive? ==> e.process !in All(s) && e.quantum <= QUANTUM
    requires !(e.Timer? && s.ticks + 1 == INTERVAL)
    ensures var t := Step(s, e);
            && t.current.Some? && QuantaFit(t) && Distinct(All(t))
            && k < |t.ready| && t.ready[k] == s.ready[k] && Wait(t, k) == Wait(s, k)
  {
    hide PairWait;
    if e.Arrive? {
      assert All(s)[0] == s.current.value && All(s)[1] == s.ready[0];
      assert All(Step(s, e)) == All(s) + [e.process];
    } else {
      assert All(Step(s, e)) == All(s);
    }
  }

  lemma {:induction false} DispatchedInTime<P>(s: Sched<P>, es: seq<Event<P>>, k: nat)
    requires s.current.Some? && k < |s.ready| && QuantaFit(s) && Distinct(All(s)) && Newcomers(s, es)
    requires SchedulingTicks(s, es) >= Wait(s, k)
    ensures IsDispatched(s, es, s.ready[k])
    decreases |es|
  {
    hide Tick, QuantaFit, Wait, All, Distinct;
    WaitPositive(s, k);
    var s1 := Step(s, es[0]);
    if es[0].Timer? && s.ticks + 1 == INTERVAL {
      var s0 := s.(ticks := 0);
      SameWait(s, s0, k);
      if k > 0 {
        TickShortens(s0, k);
        var j: nat :| j < |s1.ready| && Nearer(s0, s1, k, j);
        DispatchedInTime(s1, es[1..], j);
      } else {
        HeadRuns(s0);
      }
    } else {
      StepWaits(s, es[0], k);
      DispatchedInTime(s1, es[1..], k);
    }
  }

  lemma WaitPositive<P>(s: Sched<P>, k: nat)
    requires s.current.Some? && k < |s.ready|
    ensures Wait(s, k) >= 1
  {
  }

  lemma WaitIsBounded<P>(s: Sched<P>, k: nat)
    requires s.current.Some? && k < |s.ready| && QuantaFit(s)
    ensures Wait(s, k) <= WaitBound(k)
  {
    hide PairWait, LongestWait;
    if k > 0 {
      TurnsFit(s, s.current.value);
      TurnsFit(s, s.ready[0]);
      PairIsNoLonger(k, TurnsLeft(s, s.current.value), TurnsLeft(s, s.ready[0]));
    }
  }

  lemma SameWait<P>(s: Sched<P>, s0: Sched<P>, k: nat)
    requires s.current.Some? && k < |s.ready| && s0 == s.(ticks := s0.ticks)
    ensures Wait(s0, k) == Wait(s, k) && (QuantaFit(s) ==> QuantaFit(s0)) && All(s0) == All(s)
  {
    hide PairWait;
  }

  lemma HeadRuns<P>(s: Sched<P>)
    requires s.current.Some? && s.ready != []
    ensures Tick(s).current == Some(s.ready[0])
  {
  }

  /** Bounded waiting: the process at place k of the queue is dispatched within 3 k + 1 scheduling ticks
      if k is even and 3 k + 3 if k is odd, whatever new processes keep arriving. */
  lemma BoundedWaiting<P>(s: Sched<P>, es: seq<Event<P>>, k: nat)
    requires s.current.Some? && k < |s.ready| && QuantaFit(s) && Distinct(All(s)) && Newcomers(s, es)
    requires SchedulingTicks(s, es) >= WaitBound(k)
    ensures IsDispatched(s, es, s.ready[k])
  {
    WaitIsBounded(s, k);
    DispatchedInTime(s, es, k);
  }

  /** The bound is met at every place: with three ticks left each, the last of k + 1 waiting processes is
      dispatched by that tick and by none before. */
  lemma WaitingIsTight<P>(s: Sched<P>, k: nat)
    requires Steady(s) && |s.ready| == k + 1
    ensures Ticks(s, WaitBound(k)).current == Some(s.ready[k])
    ensures forall t: nat :: t < WaitBound(k) ==> Ticks(s, t).current != Some(s.ready[k])
  {
    hide Tick, Ticks, Fresh, Turn, WaitBound;
    assert |All(s)| == k + 2 && All(s)[k + 1] == s.ready[k];
    RunningAt(s, WaitBound(k));
    TurnAtBound(k);
    forall t: nat | t < WaitBound(k)
      ensures Ticks(s, t).current != Some(s.ready[k])
    {
      RunningAt(s, t);
      TurnBeforeBound(k, t);
      OthersDiffer(s, k, Turn(k + 2, t));
    }
  }

  /** The bound in sixes, for k == 2 h + o. */
  lemma BoundOf(k: nat, h: nat, o: nat)
    requires k == 2 * h + o && o < 2
    ensures WaitBound(k) == if o == 0 then 6 * h + 1 else 6 * (h + 1)
  {
    DivModUnique(k, 2, h, o);
  }

  lemma TurnOf(n: nat, t: nat, q: nat, r: nat)
    requires t == 6 * q + r && r < 6 && n > 0
    ensures Turn(n, t) == Place(n, 2 * q + r % 2)
  {
    hide Place;
    Sixes(t, q, r);
  }

  lemma TurnAtBound(k: nat)
    ensures Turn(k + 2, WaitBound(k)) == k + 1
  {
    hide *;
    var h, o := Halves(k);
    BoundOf(k, h, o);
    if o == 0 {
      TurnOf(k + 2, WaitBound(k), h, 1);
    } else {
      TurnOf(k + 2, WaitBound(k), h + 1, 0);
    }
    PlaceNear(k + 2, k + 1);
  }

  lemma TurnBeforeBound(k: nat, t: nat)
    requires t < WaitBound(k)
    ensures Turn(k + 2, t) < k + 1
  {
    hide *;
    var h, o := Halves(k);
    BoundOf(k, h, o);
    var q, r := InSixes(t);
    SixesBefore(k, h, o, q, r);
    TurnOf(k + 2, t, q, r);
    PlaceNear(k + 2, 2 * q + r % 2);
  }

  lemma SixesBefore(k: nat, h: nat, o: nat, q: nat, r: nat)
    requires k == 2 * h + o && o < 2 && r < 6
    requires 6 * q + r < if o == 0 then 6 * h + 1 else 6 * (h + 1)
    ensures 2 * q + r % 2 < k + 1
  {
  }

  lemma OthersDiffer<P>(s: Sched<P>, k: nat, i: nat)
    requires Steady(s) && |s.ready| == k + 1 && i < k + 1
    ensures i < |All(s)| && All(s)[i] != s.ready[k]
  {
    hide Fresh;
    assert All(s)[k + 1] == s.ready[k];
  }

  /** Processes 0 .. n - 1, all fresh. */
  function FreshQuanta(n: nat): (m: map<nat, nat>)
    ensures forall i: nat :: i < n ==> i in m && m[i] == QUANTUM
  {
    if n == 0 then map[] else FreshQuanta(n - 1)[n - 1 := QUANTUM]
  }

  /** There is such a queue for every k. */
  lemma LongQueues(k: nat)
    ensures var s := Sched(0, Some(0), seq(k + 1, i => i + 1), FreshQuanta(k + 2), 0);
            Steady(s) && |s.ready| == k + 1
  {
    var s := Sched(0, Some(0), seq(k + 1, i => i + 1), FreshQuanta(k + 2), 0);
    assert forall i :: 0 <= i < |All(s)| ==> All(s)[i] == i;
  }
}
