/** The mutation chain of `registry.ts`: `serialize` as promises on an event loop that may
    settle whatever is ready in any order, while further mutations arrive. */
module Serialize {
  import opened Protocol

  // --- mutations -----------------------------------------------------------

  /** How one turn of an async function ends, up to its next `await`: with locals to go on
      with, or settled. */
  datatype Turn<+S, +L> = Go(state: S, locals: L) | Return(state: S) | Throw(state: S)

  /** A mutation: what it starts with and what each turn makes of the registry and its own
      locals. `size` counts down the turns it may still need. */
  datatype Job<!S, !L> = Job(what: string, start: L, turn: (S, L) -> Turn<S, L>, size: L -> (nat, nat))

  predicate Smaller(a: (nat, nat), b: (nat, nat)) { a.0 < b.0 || (a.0 == b.0 && a.1 < b.1) }

  /** Every run of it ends. */
  ghost predicate Ends<S(!new), L(!new)>(job: Job<S, L>) {
    forall s, l :: job.turn(s, l).Go? ==> Smaller(job.size(job.turn(s, l).locals), job.size(l))
  }

  datatype Ended<+S> = Ended(state: S, threw: bool)

  /** What is left of a mutation, with the registry to itself. */
  ghost function RunAlone<S(!new), L(!new)>(job: Job<S, L>, s: S, l: L): Ended<S>
    requires Ends(job)
    decreases job.size(l).0, job.size(l).1
  {
    match job.turn(s, l)
    case Return(t) => Ended(t, false)
    case Throw(t) => Ended(t, true)
    case Go(t, m) => assert Smaller(job.size(m), job.size(l)); RunAlone(job, t, m)
  }

  ghost predicate AllEnd<S(!new), L(!new)>(jobs: seq<Job<S, L>>) { forall job :: job in jobs ==> Ends(job) }

  /** The registry after these mutations one after another. */
  ghost function Sequential<S(!new), L(!new)>(s: S, jobs: seq<Job<S, L>>): S
    requires AllEnd(jobs)
    decreases |jobs|
  {
    if jobs == [] then s
    else RunAlone(jobs[|jobs| - 1], Sequential(s, jobs[..|jobs| - 1]), jobs[|jobs| - 1].start).state
  }

  // --- promises ------------------------------------------------------------

  datatype Promise<!S, !L> =
    | Fulfilled
    | Rejected
    | Then(after: nat, job: Job<S, L>)           // queue.then(run): not started
    | Running(job: Job<S, L>, locals: L)
    | Swallow(after: nat)                        // result.then(ignore, ignore)

  /** `queue` is the promise the next mutation chains on; `submitted` is every mutation so far. */
  datatype Chain<!S, !L> = Chain(shared: S, promises: seq<Promise<S, L>>, queue: nat, waiting: seq<string>,
                                 submitted: seq<Job<S, L>>)

  ghost function Idle<S, L>(s: S): Chain<S, L> { Chain(s, [Fulfilled], 0, [], []) }

  /** `serialize`: chain the mutation on the tail, then make the swallowed result the tail. */
  ghost function Arrive<S, L>(c: Chain<S, L>, job: Job<S, L>): Chain<S, L> {
    var result := |c.promises|;
    c.(promises := c.promises + [Then(c.queue, job), Swallow(result)], queue := result + 1,
       waiting := c.waiting + [job.what], submitted := c.submitted + [job])
  }

  function Shift(waiting: seq<string>): seq<string> { if waiting == [] then [] else waiting[1..] }

  /** Let the event loop pick promise `p`; a promise that is not ready stays as it is. */
  ghost function Turned<S, L>(c: Chain<S, L>, p: nat): Chain<S, L> {
    if p >= |c.promises| then c else
      match c.promises[p]
      case Fulfilled => c
      case Rejected => c
      case Then(after, job) =>
        if after >= |c.promises| then c
        else if c.promises[after].Fulfilled? then c.(promises := c.promises[p := Running(job, job.start)])
        else if c.promises[after].Rejected? then c.(promises := c.promises[p := Rejected])
        else c
      case Running(job, l) => (
        match job.turn(c.shared, l)
        case Go(t, m) => c.(shared := t, promises := c.promises[p := Running(job, m)])
        case Return(t) => c.(shared := t, promises := c.promises[p := Fulfilled], waiting := Shift(c.waiting))
        case Throw(t) => c.(shared := t, promises := c.promises[p := Rejected], waiting := Shift(c.waiting)))
      case Swallow(after) =>
        if after < |c.promises| && (c.promises[after].Fulfilled? || c.promises[after].Rejected?)
        then c.(promises := c.promises[p := Fulfilled]) else c
  }

  datatype Event<!S, !L> = Submit(job: Job<S, L>) | Pick(promise: nat)

  ghost function Step<S, L>(c: Chain<S, L>, e: Event<S, L>): Chain<S, L> {
    match e
    case Submit(job) => Arrive(c, job)
    case Pick(p) => Turned(c, p)
  }

  ghost function Run<S, L>(c: Chain<S, L>, schedule: seq<Event<S, L>>): Chain<S, L>
    decreases |schedule|
  {
    if schedule == [] then c else Step(Run(c, schedule[..|schedule| - 1]), schedule[|schedule| - 1])
  }

  // --- the invariant -------------------------------------------------------

  /** The caller's promise of mutation `i`, and the tail it left behind. */
  function ResultOf(i: nat): nat { 2 * i + 1 }
  function TailOf(i: nat): nat { 2 * i + 2 }

  function Names<S, L>(jobs: seq<Job<S, L>>): seq<string> { seq(|jobs|, i requires 0 <= i < |jobs| => jobs[i].what) }

  /** Mutation `i` settled as it would have on its own, after those before it. */
  ghost predicate SettledRight<S(!new), L(!new)>(c: Chain<S, L>, s: S, i: nat)
    requires i < |c.submitted| && ResultOf(i) < |c.promises| && AllEnd(c.submitted)
  {
    c.promises[ResultOf(i)] ==
      if RunAlone(c.submitted[i], Sequential(s, c.submitted[..i]), c.submitted[i].start).threw then Rejected
      else Fulfilled
  }

  /** The mutation at the head of those unfinished: waiting its turn, or the one running. */
  ghost predicate HeadRight<S(!new), L(!new)>(c: Chain<S, L>, s: S, done: nat)
    requires done < |c.submitted| && |c.promises| == 2 * |c.submitted| + 1 && AllEnd(c.submitted)
  {
    var job, before := c.submitted[done], Sequential(s, c.submitted[..done]);
    || (c.promises[ResultOf(done)] == Then(2 * done, job) && c.shared == before)
    || (&& c.promises[ResultOf(done)].Running? && c.promises[ResultOf(done)].job == job
        && c.promises[2 * done] == Fulfilled
        && RunAlone(job, c.shared, c.promises[ResultOf(done)].locals) == RunAlone(job, before, job.start))
  }

  /** `done` mutations have settled, in submission order; the next may be running; the rest
      have not started. */
  ghost predicate InOrder<S(!new), L(!new)>(c: Chain<S, L>, s: S, done: nat) {
    && AllEnd(c.submitted) && done <= |c.submitted| && |c.promises| == 2 * |c.submitted| + 1
    && c.queue == 2 * |c.submitted| && c.waiting == Names(c.submitted[done..])
    && c.promises[0] == Fulfilled
    && (forall i :: 0 <= i < done ==> SettledRight(c, s, i))
    && (forall i :: 0 <= i < done ==>
          c.promises[TailOf(i)] == Fulfilled || (i == done - 1 && c.promises[TailOf(i)] == Swallow(ResultOf(i))))
    && (forall i :: done <= i < |c.submitted| ==> c.promises[TailOf(i)] == Swallow(ResultOf(i)))
    && (forall i :: done < i < |c.submitted| ==> c.promises[ResultOf(i)] == Then(2 * i, c.submitted[i]))
    && (if done == |c.submitted| then c.shared == Sequential(s, c.submitted) else HeadRight(c, s, done))
  }

  lemma SettledStill<S(!new), L(!new)>(c: Chain<S, L>, s: S, i: nat, job: Job<S, L>)
    requires AllEnd(c.submitted) && Ends(job) && i < |c.submitted| && |c.promises| == 2 * |c.submitted| + 1
             && SettledRight(c, s, i)
    ensures AllEnd(Arrive(c, job).submitted) && SettledRight(Arrive(c, job), s, i)
  {
    assert Arrive(c, job).submitted[..i] == c.submitted[..i];
  }

  lemma HeadStill<S(!new), L(!new)>(c: Chain<S, L>, s: S, done: nat, job: Job<S, L>)
    requires AllEnd(c.submitted) && Ends(job) && done < |c.submitted| && |c.promises| == 2 * |c.submitted| + 1
             && HeadRight(c, s, done)
    ensures AllEnd(Arrive(c, job).submitted) && HeadRight(Arrive(c, job), s, done)
  {
    assert Arrive(c, job).submitted[..done] == c.submitted[..done];
  }

  lemma NewHead<S(!new), L(!new)>(c: Chain<S, L>, s: S, job: Job<S, L>)
    requires AllEnd(c.submitted) && Ends(job) && |c.promises| == 2 * |c.submitted| + 1 && c.queue == 2 * |c.submitted|
    requires c.shared == Sequential(s, c.submitted)
    ensures AllEnd(Arrive(c, job).submitted) && HeadRight(Arrive(c, job), s, |c.submitted|)
  {
    assert Arrive(c, job).submitted[..|c.submitted|] == c.submitted;
  }

  lemma ArriveInOrder<S(!new), L(!new)>(c: Chain<S, L>, s: S, done: nat, job: Job<S, L>)
    requires InOrder(c, s, done) && Ends(job)
    ensures InOrder(Arrive(c, job), s, done)
  {
    var d := Arrive(c, job);
    assert d.submitted[done..] == c.submitted[done..] + [job];
    forall i | 0 <= i < done ensures SettledRight(d, s, i) { SettledStill(c, s, i, job); }
    if done == |c.submitted| { NewHead(c, s, job); } else { HeadStill(c, s, done, job); }
  }

  lemma NamesTail<S(!new), L(!new)>(jobs: seq<Job<S, L>>, i: nat)
    requires i < |jobs|
    ensures Shift(Names(jobs[i..])) == Names(jobs[i + 1..])
  {
    assert jobs[i..] == [jobs[i]] + jobs[i + 1..];
  }

  lemma SettledKept<S(!new), L(!new)>(c: Chain<S, L>, d: Chain<S, L>, s: S, i: nat)
    requires AllEnd(c.submitted) && i < |c.submitted| && ResultOf(i) < |c.promises| && SettledRight(c, s, i)
    requires d.submitted == c.submitted && |d.promises| == |c.promises|
             && d.promises[ResultOf(i)] == c.promises[ResultOf(i)]
    ensures SettledRight(d, s, i)
  {
  }

  lemma HeadShared<S(!new), L(!new)>(d: Chain<S, L>, s: S, done: nat)
    requires AllEnd(d.submitted) && done < |d.submitted| && |d.promises| == 2 * |d.submitted| + 1
    requires d.shared == RunAlone(d.submitted[done], Sequential(s, d.submitted[..done]), d.submitted[done].start).state
    requires done + 1 < |d.submitted| ==> d.promises[ResultOf(done + 1)] == Then(2 * done + 2, d.submitted[done + 1])
    ensures if done + 1 == |d.submitted| then d.shared == Sequential(s, d.submitted) else HeadRight(d, s, done + 1)
  {
    assert d.submitted[..done + 1][..done] == d.submitted[..done];
    if done + 1 == |d.submitted| { assert d.submitted[..done + 1] == d.submitted; }
  }

  /** Settling the head moves it behind `done`. */
  lemma HeadSettles<S(!new), L(!new)>(c: Chain<S, L>, d: Chain<S, L>, s: S, done: nat)
    requires InOrder(c, s, done) && done < |c.submitted| && c.promises[ResultOf(done)].Running?
    requires d.submitted == c.submitted && d.queue == c.queue && d.waiting == Shift(c.waiting)
    requires var end := RunAlone(c.submitted[done], Sequential(s, c.submitted[..done]), c.submitted[done].start);
             && d.promises == c.promises[ResultOf(done) := if end.threw then Rejected else Fulfilled]
             && d.shared == end.state
    ensures InOrder(d, s, done + 1)
  {
    NamesTail(c.submitted, done);
    HeadShared(d, s, done);
    forall i | 0 <= i < done + 1 ensures SettledRight(d, s, i) {
      if i < done { SettledKept(c, d, s, i); }
    }
  }

  lemma HeadRuns<S(!new), L(!new)>(c: Chain<S, L>, s: S, done: nat)
    requires InOrder(c, s, done) && done < |c.submitted| && c.promises[ResultOf(done)].Running?
    ensures InOrder(Turned(c, ResultOf(done)), s, done) || InOrder(Turned(c, ResultOf(done)), s, done + 1)
  {
    var p := ResultOf(done);
    var d := Turned(c, p);
    if c.promises[p].job.turn(c.shared, c.promises[p].locals).Go? {
      assert forall i :: 0 <= i < done ==> SettledRight(c, s, i) ==> SettledRight(d, s, i);
    } else {
      HeadSettles(c, d, s, done);
    }
  }

  /** Only the tail behind the head, the head itself, and nothing else, can move. */
  lemma TurnInOrder<S(!new), L(!new)>(c: Chain<S, L>, s: S, done: nat, p: nat)
    requires InOrder(c, s, done)
    ensures InOrder(Turned(c, p), s, done) || InOrder(Turned(c, p), s, done + 1)
  {
    var d := Turned(c, p);
    if p < |c.promises| && d != c {
      Movable(c, s, done, p);
      if p == ResultOf(done) {
        if c.promises[p].Running? {
          HeadRuns(c, s, done);
        } else {
          assert forall i :: 0 <= i < done ==> SettledRight(c, s, i) ==> SettledRight(d, s, i);
        }
      } else {
        assert forall i :: 0 <= i < done ==> SettledRight(c, s, i) ==> SettledRight(d, s, i);
      }
    }
  }

  predicate HasSettled<S(!new), L(!new)>(p: Promise<S, L>) { p.Fulfilled? || p.Rejected? }

  /** Every promise of the chain, by position. */
  lemma Shape<S(!new), L(!new)>(c: Chain<S, L>, s: S, done: nat)
    requires InOrder(c, s, done)
    ensures forall i :: 0 <= i < done ==> HasSettled(c.promises[ResultOf(i)])
    ensures forall i :: done < i < |c.submitted| ==> c.promises[ResultOf(i)].Then?
    ensures done < |c.submitted| ==> c.promises[ResultOf(done)].Then? || c.promises[ResultOf(done)].Running?
  {
    forall i | 0 <= i < done ensures HasSettled(c.promises[ResultOf(i)]) { assert SettledRight(c, s, i); }
  }

  lemma Movable<S(!new), L(!new)>(c: Chain<S, L>, s: S, done: nat, p: nat)
    requires InOrder(c, s, done) && p < |c.promises| && Turned(c, p) != c
    ensures (p == ResultOf(done) && done < |c.submitted|)
            || (p == 2 * done && done > 0 && c.promises[p] == Swallow(2 * done - 1))
    ensures c.promises[p].Then? ==> c.promises[2 * done] == Fulfilled
  {
    Shape(c, s, done);
    if p % 2 == 1 {
      var i: nat := (p - 1) / 2;
      assert p == ResultOf(i) && !HasSettled(c.promises[p]);
      assert i > 0 ==> 2 * i == TailOf(i - 1);
    } else if p > 0 {
      var i: nat := p / 2 - 1;
      assert p == TailOf(i);
    }
  }

  /** The chain is in order, with some number of mutations done. */
  ghost predicate Ordered<S(!new), L(!new)>(c: Chain<S, L>, s: S) { exists done: nat :: InOrder(c, s, done) }

  lemma IdleOrdered<S(!new), L(!new)>(s: S)
    ensures Ordered(Idle<S, L>(s), s)
  {
    assert InOrder(Idle<S, L>(s), s, 0);
  }

  lemma StepOrdered<S(!new), L(!new)>(c: Chain<S, L>, s: S, e: Event<S, L>)
    requires Ordered(c, s) && (e.Submit? ==> Ends(e.job))
    ensures Ordered(Step(c, e), s)
  {
    var done: nat :| InOrder(c, s, done);
    match e
    case Submit(job) => ArriveInOrder(c, s, done, job);
    case Pick(p) => TurnInOrder(c, s, done, p);
  }

  /** Every mutation of the schedule is on the chain's record. */
  lemma {:induction false} AllRecorded<S(!new), L(!new)>(c: Chain<S, L>, schedule: seq<Event<S, L>>)
    ensures forall e :: e in schedule && e.Submit? ==> e.job in Run(c, schedule).submitted
    decreases |schedule|
  {
    if schedule != [] {
      var init, last := schedule[..|schedule| - 1], schedule[|schedule| - 1];
      assert schedule == init + [last];
      AllRecorded(c, init);
      TurnRecords(Run(c, init), last);
    }
  }

  lemma TurnRecords<S(!new), L(!new)>(c: Chain<S, L>, e: Event<S, L>)
    ensures Step(c, e).submitted == c.submitted + if e.Submit? then [e.job] else []
  {
    assert c.submitted + [] == c.submitted;
  }

  /** Every mutation of the schedule ends. */
  ghost predicate Finite<S(!new), L(!new)>(schedule: seq<Event<S, L>>) {
    forall e :: e in schedule && e.Submit? ==> Ends(e.job)
  }

  /** Over every schedule the chain stays in order. */
  lemma {:induction false} StaysInOrder<S(!new), L(!new)>(s: S, schedule: seq<Event<S, L>>)
    requires Finite(schedule)
    ensures Ordered(Run(Idle(s), schedule), s)
    decreases |schedule|
  {
    if schedule == [] {
      IdleOrdered<S, L>(s);
    } else {
      StaysInOrder(s, schedule[..|schedule| - 1]);
      StepOrdered(Run(Idle(s), schedule[..|schedule| - 1]), s, schedule[|schedule| - 1]);
    }
  }

  // --- what it means -------------------------------------------------------

  /** One at a time, first come first served: whatever is running has every earlier mutation
      settled behind it and no later one started, and the waiting list names it first. */
  lemma OneAtATime<S(!new), L(!new)>(s: S, schedule: seq<Event<S, L>>, i: nat)
    requires Finite(schedule)
    requires var c := Run(Idle(s), schedule);
             i < |c.submitted| && ResultOf(i) < |c.promises| && c.promises[ResultOf(i)].Running?
    ensures var c := Run(Idle(s), schedule);
            && |c.promises| == 2 * |c.submitted| + 1
            && (forall j :: 0 <= j < i ==> HasSettled(c.promises[ResultOf(j)]))
            && (forall j :: i < j < |c.submitted| ==> c.promises[ResultOf(j)].Then?)
            && c.waiting == Names(c.submitted[i..])
  {
    var c := Run(Idle(s), schedule);
    StaysInOrder(s, schedule);
    var done: nat :| InOrder(c, s, done);
    Shape(c, s, done);
    assert i == done;
  }

  /** Nobody is ever stuck behind a rejection: until every caller has an answer, something
      can move. */
  lemma SomethingMoves<S(!new), L(!new)>(s: S, schedule: seq<Event<S, L>>, i: nat)
    requires Finite(schedule)
    requires var c := Run(Idle(s), schedule);
             i < |c.submitted| && ResultOf(i) < |c.promises| && !HasSettled(c.promises[ResultOf(i)])
    ensures exists p: nat :: Turned(Run(Idle(s), schedule), p) != Run(Idle(s), schedule)
  {
    var c := Run(Idle(s), schedule);
    StaysInOrder(s, schedule);
    var done: nat :| InOrder(c, s, done);
    HeadCanMove(c, s, done, i);
  }

  lemma HeadCanMove<S(!new), L(!new)>(c: Chain<S, L>, s: S, done: nat, i: nat)
    requires InOrder(c, s, done) && i < |c.submitted| && !HasSettled(c.promises[ResultOf(i)])
    ensures exists p: nat :: Turned(c, p) != c
  {
    Shape(c, s, done);
    assert done <= i;
    if c.promises[2 * done] == Fulfilled {
      MovesOn(c, s, done);
    } else {
      assert 2 * done == TailOf(done - 1) && HasSettled(c.promises[ResultOf(done - 1)]);
      assert c.promises[2 * done] != Turned(c, 2 * done).promises[2 * done];
    }
  }

  lemma MovesOn<S(!new), L(!new)>(c: Chain<S, L>, s: S, done: nat)
    requires InOrder(c, s, done) && done < |c.submitted| && c.promises[2 * done] == Fulfilled
    ensures c.promises[ResultOf(done)] != Turned(c, ResultOf(done)).promises[ResultOf(done)]
  {
    var p := c.promises[ResultOf(done)];
    if p.Running? && p.job.turn(c.shared, p.locals).Go? {
      assert Ends(p.job);
      assert p.job.turn(c.shared, p.locals).locals != p.locals;
    }
  }

  /** Once every caller has its answer, the registry is what the mutations would have made of
      it one after another in submission order, and each caller was rejected exactly when its
      own mutation threw there. */
  lemma SameAsSequential<S(!new), L(!new)>(s: S, schedule: seq<Event<S, L>>)
    requires Finite(schedule)
    requires var c := Run(Idle(s), schedule);
             forall i :: 0 <= i < |c.submitted| ==> ResultOf(i) < |c.promises| && HasSettled(c.promises[ResultOf(i)])
    ensures var c := Run(Idle(s), schedule);
            && AllEnd(c.submitted) && c.shared == Sequential(s, c.submitted) && c.waiting == []
            && forall i :: 0 <= i < |c.submitted| ==> SettledRight(c, s, i)
  {
    var c := Run(Idle(s), schedule);
    StaysInOrder(s, schedule);
    var done: nat :| InOrder(c, s, done);
    Shape(c, s, done);
    assert done == |c.submitted|;
    assert c.submitted[done..] == [];
  }
}
