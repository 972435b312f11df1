/** The actor runtime as a machine of single atomic steps, taken by any number of threads in any order. */
module Actors {
  import opened Bits

  /** Where a thread is inside a call. */
  datatype Pc =
    | Idle
    | CountingUp                              // `new`, before the count of live actors
    | Restoring(actor: nat)                   // `release` of an actor that had no handles
    | CheckingHandles(actor: nat)             // `try_destroy`, before the load of the reference count
    | CheckingContexts(actor: nat)            // `try_destroy`, before the load of the active contexts
    | Destroying(actor: nat)                  // `try_destroy`, before the destruction
    | CountingDown                            // `try_destroy`, before the count of live actors
    | Entering(actor: nat, mode: nat)         // `enter`, before there is memory for the context
    | Waiting(actor: nat, mode: nat, shared: bool) // `enter`, before the lock is taken
    | Leaving(actor: nat)                     // `leave`, after the lock is given back

  /** A context: whose it is, the mode it was asked for with, and which lock it holds. */
  datatype Context = Context(actor: nat, mode: nat, shared: bool)

  /** A thread: the handles it holds, and its open contexts. */
  datatype Thread = Thread(pc: Pc, handles: multiset<nat>, contexts: seq<Context>)

  datatype Actor = Actor(refcount: nat, active: nat, readers: nat, writer: bool, destroyed: nat)

  /** The hosted runtime has a reader/writer lock, and may run out of memory for a context before it waits for
      the lock; the freestanding one has an exclusive spin lock. */
  datatype State = State(hosted: bool, threads: seq<Thread>, actors: seq<Actor>, live: int)

  datatype Event =
    | New(t: nat)
    | CountUp(t: nat)
    | Clone(t: nat, actor: nat)
    | Give(t: nat, actor: nat, to: nat)
    | Release(t: nat, actor: nat)
    | Restore(t: nat)
    | LoadRefcount(t: nat)
    | LoadActive(t: nat)
    | Destroy(t: nat)
    | CountDown(t: nat)
    | EnterStart(t: nat, actor: nat, mode: nat)
    | EnterFail(t: nat)
    | MakeContext(t: nat)
    | Acquire(t: nat)
    | Unlock(t: nat, ctx: nat)
    | LeaveEnd(t: nat)

  const TOP: nat := 0xFFFF_FFFF_FFFF_FFFF

  /** What an atomic `fetch_sub(1)` leaves. */
  function Minus(n: nat): nat { if n == 0 then TOP else n - 1 }

  predicate HasActor(pc: Pc) { !pc.Idle? && !pc.CountingUp? && !pc.CountingDown? }

  // ---- Steps -----------------------------------------------------------------------------

  /** Which step a thread can take: at the start of a call, or the next one of its call. Counters are not
      counted past 64 bits. */
  predicate Enabled(s: State, e: Event) {
    e.t < |s.threads| &&
    var th := s.threads[e.t];
    (HasActor(th.pc) ==> th.pc.actor < |s.actors|) &&
    match e
    case New(_) => th.pc.Idle?
    case CountUp(_) => th.pc.CountingUp?
    case Clone(_, a) => th.pc.Idle? && a < |s.actors| && s.actors[a].refcount < TOP
    case Give(t, a, to) => th.pc.Idle? && to < |s.threads| && to != t && th.handles[a] > 0
    case Release(_, a) => th.pc.Idle? && a < |s.actors|
    case Restore(_) => th.pc.Restoring?
    case LoadRefcount(_) => th.pc.CheckingHandles?
    case LoadActive(_) => th.pc.CheckingContexts?
    case Destroy(_) => th.pc.Destroying?
    case CountDown(_) => th.pc.CountingDown?
    case EnterStart(_, a, _) => th.pc.Idle? && a < |s.actors| && s.actors[a].active < TOP
    case EnterFail(_) => th.pc.Entering?
    case MakeContext(_) => th.pc.Entering?
    case Acquire(_) =>
      th.pc.Waiting? && !s.actors[th.pc.actor].writer && (th.pc.shared || s.actors[th.pc.actor].readers == 0)
    case Unlock(_, i) => th.pc.Idle? && i < |th.contexts| && th.contexts[i].actor < |s.actors|
    case LeaveEnd(_) => th.pc.Leaving?
  }

  function Moved(s: State, t: nat, th: Thread): State
    requires t < |s.threads|
  {
    s.(threads := s.threads[t := th])
  }

  function Both(s: State, t: nat, th: Thread, a: nat, x: Actor): State
    requires t < |s.threads| && a < |s.actors|
  {
    s.(threads := s.threads[t := th], actors := s.actors[a := x])
  }

  function EnterPc(s: State, a: nat, mode: nat): Pc { if s.hosted then Entering(a, mode) else Waiting(a, mode, false) }

  function Without(cs: seq<Context>, i: nat): seq<Context>
    requires i < |cs|
  {
    cs[..i] + cs[i + 1..]
  }

  function Apply(s: State, e: Event): State
    requires Enabled(s, e)
  {
    var t, th := e.t, s.threads[e.t];
    match e
    case New(_) =>
      var born := s.(actors := s.actors + [Actor(1, 0, 0, false, 0)]);
      Moved(born, t, th.(pc := CountingUp, handles := th.handles + multiset{|s.actors|}))
    case CountUp(_) => Moved(s, t, th.(pc := Idle)).(live := s.live + 1)
    case Clone(_, a) =>
      Both(s, t, th.(handles := th.handles + multiset{a}), a, s.actors[a].(refcount := s.actors[a].refcount + 1))
    case Give(_, a, to) =>
      var given := Moved(s, t, th.(handles := th.handles - multiset{a}));
      Moved(given, to, s.threads[to].(handles := s.threads[to].handles + multiset{a}))
    case Release(_, a) =>
      var x := s.actors[a];
      var pc := if x.refcount == 0 then Restoring(a) else if x.refcount == 1 then CheckingHandles(a) else Idle;
      Both(s, t, th.(pc := pc, handles := th.handles - multiset{a}), a, x.(refcount := Minus(x.refcount)))
    case Restore(_) => Both(s, t, th.(pc := Idle), th.pc.actor, s.actors[th.pc.actor].(refcount := 0))
    case LoadRefcount(_) =>
      Moved(s, t, th.(pc := if s.actors[th.pc.actor].refcount != 0 then Idle else CheckingContexts(th.pc.actor)))
    case LoadActive(_) =>
      Moved(s, t, th.(pc := if s.actors[th.pc.actor].active != 0 then Idle else Destroying(th.pc.actor)))
    case Destroy(_) =>
      var x := s.actors[th.pc.actor];
      Both(s, t, th.(pc := CountingDown), th.pc.actor, x.(destroyed := x.destroyed + 1))
    case CountDown(_) => Moved(s, t, th.(pc := Idle)).(live := s.live - 1)
    case EnterStart(_, a, mode) =>
      var x := s.actors[a];
      Both(s, t, th.(pc := EnterPc(s, a, mode)), a, x.(active := x.active + 1))
    case EnterFail(_) =>
      var x := s.actors[th.pc.actor];
      Both(s, t, th.(pc := Idle), th.pc.actor, x.(active := Minus(x.active)))
    case MakeContext(_) => Moved(s, t, th.(pc := Waiting(th.pc.actor, th.pc.mode, th.pc.mode == 1)))
    case Acquire(_) =>
      var a, x := th.pc.actor, s.actors[th.pc.actor];
      Both(s, t, th.(pc := Idle, contexts := th.contexts + [Context(a, th.pc.mode, th.pc.shared)]), a,
           if th.pc.shared then x.(readers := x.readers + 1) else x.(writer := true))
    case Unlock(_, i) =>
      var c := th.contexts[i];
      var x := s.actors[c.actor];
      Both(s, t, th.(pc := Leaving(c.actor), contexts := Without(th.contexts, i)), c.actor,
           if c.shared then x.(readers := if x.readers == 0 then 0 else x.readers - 1) else x.(writer := false))
    case LeaveEnd(_) =>
      var a, x := th.pc.actor, s.actors[th.pc.actor];
      Both(s, t, th.(pc := if x.active == 1 then CheckingHandles(a) else Idle), a, x.(active := Minus(x.active)))
  }

  // ---- What callers promise --------------------------------------------------------------

  /** How many contexts hold a lock of the actor, shared or exclusively. */
  function Count(cs: seq<Context>, a: nat, shared: bool): nat {
    if cs == [] then 0
    else Count(cs[..|cs| - 1], a, shared) + if Has(cs[|cs| - 1], a, shared) then 1 else 0
  }

  predicate Has(c: Context, a: nat, shared: bool) { c.actor == a && c.shared == shared }

  function Reads(th: Thread, a: nat): nat { Count(th.contexts, a, true) }
  function Writes(th: Thread, a: nat): nat { Count(th.contexts, a, false) }

  lemma CountMore(cs: seq<Context>, c: Context)
    ensures forall a, shared :: Count(cs + [c], a, shared) == Count(cs, a, shared) + if Has(c, a, shared) then 1 else 0
  {
    assert (cs + [c])[..|cs|] == cs;
  }

  lemma {:induction false} CountLess(cs: seq<Context>, i: nat, a: nat, shared: bool)
    requires i < |cs|
    ensures Count(cs, a, shared) == Count(Without(cs, i), a, shared) + if Has(cs[i], a, shared) then 1 else 0
    decreases |cs|
  {
    var n := |cs| - 1;
    if i < n {
      CountLess(cs[..n], i, a, shared);
      assert Without(cs, i)[..n - 1] == Without(cs[..n], i);
    } else {
      assert Without(cs, i) == cs[..n];
    }
  }

  lemma CountsLess(cs: seq<Context>, i: nat)
    requires i < |cs|
    ensures forall a, shared :: Count(Without(cs, i), a, shared) == Count(cs, a, shared) - if Has(cs[i], a, shared) then 1 else 0
  {
    forall a: nat, shared: bool
      ensures Count(Without(cs, i), a, shared) == Count(cs, a, shared) - if Has(cs[i], a, shared) then 1 else 0
    {
      CountLess(cs, i, a, shared);
    }
  }

  /** A lock is held by some context. */
  lemma {:induction false} FindContext(cs: seq<Context>, a: nat, shared: bool) returns (i: nat)
    requires Count(cs, a, shared) > 0
    ensures i < |cs| && Has(cs[i], a, shared)
    decreases |cs|
  {
    i := |cs| - 1;
    if !Has(cs[i], a, shared) {
      i := FindContext(cs[..i], a, shared);
    }
  }

  /** The thread is between the increment and the decrement of the active contexts, once per context. */
  function InsideOf(th: Thread, a: nat): nat {
    Reads(th, a) + Writes(th, a) +
    if (th.pc.Entering? || th.pc.Waiting? || th.pc.Leaving?) && th.pc.actor == a then 1 else 0
  }

  /** The thread is on its way to destroy the actor, and no context of its own will stop it. */
  predicate InTail(th: Thread, a: nat) {
    (th.pc.CheckingHandles? || th.pc.CheckingContexts? || th.pc.Destroying?) && th.pc.actor == a && InsideOf(th, a) == 0
  }

  /** A thread keeps another from the lock it waits for. */
  predicate InTheWay(th: Thread, pc: Pc) {
    pc.Waiting? && (Writes(th, pc.actor) > 0 || (!pc.shared && Reads(th, pc.actor) > 0))
  }

  /** Threads that wait for locks held among themselves or by thread `x`; one of them is in a context of `a`. */
  ghost predicate Jam(ts: seq<Thread>, a: nat, x: nat, K: set<nat>) {
    && x < |ts| && x !in K
    && (exists u :: u in K && u < |ts| && InsideOf(ts[u], a) > 0)
    && forall u :: u in K ==> u < |ts| && Stuck(ts, ts[u].pc, x, K)
  }

  ghost predicate Stuck(ts: seq<Thread>, pc: Pc, x: nat, K: set<nat>) {
    exists v: nat :: v < |ts| && (v in K || v == x) && InTheWay(ts[v], pc)
  }

  /** As long as thread `x` does not go on, actor `a` keeps an active context. */
  ghost predicate Held(ts: seq<Thread>, a: nat, x: nat) { exists K: set<nat> :: Jam(ts, a, x, K) }

  /** Giving up a handle now does no harm: it is not the last one; or there are no contexts of the actor and no
      other thread is at the end of leaving one; or there are, and whoever will then be on the way to destroy
      the actor, with no context of its own, holds up one of them as long as it is on the way. */
  ghost predicate Harmless(s: State, t: nat, a: nat)
    requires t < |s.threads| && a < |s.actors|
  {
    s.actors[a].refcount > 1 ||
    if s.actors[a].active == 0 then forall u :: 0 <= u < |s.threads| && u != t ==> !InTail(s.threads[u], a)
    else forall u :: 0 <= u < |s.threads| && Heading(s, t, a, u) ==> Held(s.threads, a, u)
  }

  /** Once thread `t` has given up the last handle, thread `u` is on the way to destroy the actor. */
  predicate Heading(s: State, t: nat, a: nat, u: nat)
    requires u < |s.threads|
  {
    if u == t then InsideOf(s.threads[u], a) == 0 else InTail(s.threads[u], a)
  }

  /** Calls that take a handle are made with one the thread holds, and none is given up where that does harm. */
  ghost predicate Obeys(s: State, e: Event)
    requires Enabled(s, e)
  {
    var th := s.threads[e.t];
    match e
    case Clone(_, a) => th.handles[a] > 0
    case EnterStart(_, a, _) => th.handles[a] > 0
    case Release(t, a) => th.handles[a] > 0 && Harmless(s, t, a)
    case _ => true
  }

  // ---- Sums over the threads -------------------------------------------------------------

  datatype Measure =
    | Handles(a: nat) | Inside(a: nat) | Reading(a: nat) | Writing(a: nat) | Tail(a: nat) | Past(a: nat) | Doomed(a: nat)
    | Rising | Falling | Weight

  /** The thread found no handle left, or neither a handle nor a context. */
  predicate IsPast(th: Thread, a: nat) { (th.pc.CheckingContexts? || th.pc.Destroying?) && th.pc.actor == a }
  predicate IsDoomed(th: Thread, a: nat) { th.pc.Destroying? && th.pc.actor == a }

  /** How far a call under way is from its end. */
  function Rank(pc: Pc): nat {
    match pc
    case Idle => 0
    case Waiting(_, _, _) => 11
    case Leaving(_) => 5
    case CheckingHandles(_) => 4
    case CheckingContexts(_) => 3
    case Destroying(_) => 2
    case _ => 1
  }

  function Of(th: Thread, m: Measure): nat {
    match m
    case Handles(a) => th.handles[a]
    case Inside(a) => InsideOf(th, a)
    case Reading(a) => Reads(th, a)
    case Writing(a) => Writes(th, a)
    case Tail(a) => if InTail(th, a) then 1 else 0
    case Past(a) => if IsPast(th, a) then 1 else 0
    case Doomed(a) => if IsDoomed(th, a) then 1 else 0
    case Rising => if th.pc.CountingUp? then 1 else 0
    case Falling => if th.pc.CountingDown? then 1 else 0
    case Weight => 10 * |th.contexts| + Rank(th.pc)
  }

  function Sum(ts: seq<Thread>, m: Measure): nat {
    if ts == [] then 0 else Sum(ts[..|ts| - 1], m) + Of(ts[|ts| - 1], m)
  }

  lemma {:induction false} SumUpdate(ts: seq<Thread>, t: nat, th: Thread, m: Measure)
    requires t < |ts|
    ensures Sum(ts, m) >= Of(ts[t], m)
    ensures Sum(ts[t := th], m) == Sum(ts, m) - Of(ts[t], m) + Of(th, m)
    decreases |ts|
  {
    hide Of;
    var before := ts[..|ts| - 1];
    if t < |ts| - 1 {
      SumUpdate(before, t, th, m);
      assert ts[t := th][..|ts| - 1] == before[t := th];
    } else {
      assert ts[t := th][..|ts| - 1] == before;
    }
  }

  lemma {:induction false} SumZero(ts: seq<Thread>, m: Measure)
    ensures Sum(ts, m) == 0 <==> forall t :: 0 <= t < |ts| ==> Of(ts[t], m) == 0
    decreases |ts|
  {
    hide Of;
    if ts != [] {
      SumZero(ts[..|ts| - 1], m);
      assert forall t :: 0 <= t < |ts| - 1 ==> ts[..|ts| - 1][t] == ts[t];
    }
  }

  function Left(x: Actor): nat { if x.destroyed == 0 then 1 else 0 }

  function Undestroyed(actors: seq<Actor>): nat {
    if actors == [] then 0
    else Undestroyed(actors[..|actors| - 1]) + Left(actors[|actors| - 1])
  }

  lemma {:induction false} UndestroyedUpdate(actors: seq<Actor>, a: nat, x: Actor)
    requires a < |actors|
    ensures Undestroyed(actors[a := x]) == Undestroyed(actors) - Left(actors[a]) + Left(x)
    ensures Undestroyed(actors) >= Left(actors[a])
    decreases |actors|
  {
    var before := actors[..|actors| - 1];
    if a < |actors| - 1 {
      UndestroyedUpdate(before, a, x);
      assert actors[a := x][..|actors| - 1] == before[a := x];
    } else {
      assert actors[a := x][..|actors| - 1] == before;
    }
  }

  // ---- The invariant ---------------------------------------------------------------------

  /** The counts and the lock of an actor agree with what the threads hold. */
  predicate Counts(x: Actor, a: nat, ts: seq<Thread>) {
    && x.refcount == Sum(ts, Handles(a))
    && x.active == Sum(ts, Inside(a))
    && x.readers == Sum(ts, Reading(a))
    && (if x.writer then 1 else 0) == Sum(ts, Writing(a))
    && !(x.writer && x.readers > 0)
  }

  predicate ActorInv(x: Actor, a: nat, ts: seq<Thread>) {
    && Counts(x, a, ts)
    && (x.refcount > 0 ==> x.destroyed == 0 && Sum(ts, Past(a)) == 0 && Sum(ts, Doomed(a)) == 0)
    && (x.active > 0 ==> Sum(ts, Doomed(a)) == 0)
    && (x.refcount == 0 ==> if x.active == 0 then Sum(ts, Tail(a)) + x.destroyed == 1 else x.destroyed == 0)
  }

  /** As long as there are contexts of an actor without handles, each thread that is on the way to destroy it
      holds up one of them. */
  ghost predicate JamInv(x: Actor, a: nat, ts: seq<Thread>) {
    x.refcount == 0 && x.active > 0 ==> forall u :: 0 <= u < |ts| && InTail(ts[u], a) ==> Held(ts, a, u)
  }

  predicate PcInv(th: Thread, actors: nat) {
    && (HasActor(th.pc) ==> th.pc.actor < actors)
    && !th.pc.Restoring?
    && (th.pc.Entering? || th.pc.Waiting? ==> th.handles[th.pc.actor] > 0)
  }

  ghost predicate ThreadInv(th: Thread, actors: nat) {
    PcInv(th, actors) && forall a: nat :: th.handles[a] > 0 || InsideOf(th, a) > 0 ==> a < actors
  }

  /** What holds even after a handle was given up where that does harm. */
  ghost predicate Sound(s: State) {
    && (forall a :: 0 <= a < |s.actors| ==> Counts(s.actors[a], a, s.threads))
    && forall t :: 0 <= t < |s.threads| ==> ThreadInv(s.threads[t], |s.actors|)
  }

  ghost predicate Inv(s: State) {
    && (forall a :: 0 <= a < |s.actors| ==> ActorInv(s.actors[a], a, s.threads) && JamInv(s.actors[a], a, s.threads))
    && (forall t :: 0 <= t < |s.threads| ==> ThreadInv(s.threads[t], |s.actors|))
    && s.live + Sum(s.threads, Rising) == Undestroyed(s.actors) + Sum(s.threads, Falling)
  }

  // ---- Every step keeps the invariant ----------------------------------------------------

  /** Two states of a thread are the same as far as an actor is concerned. */
  predicate SameFor(u: Thread, v: Thread, a: nat) {
    && u.handles[a] == v.handles[a] && Reads(u, a) == Reads(v, a) && Writes(u, a) == Writes(v, a)
    && InsideOf(u, a) == InsideOf(v, a)
    && InTail(u, a) == InTail(v, a) && IsPast(u, a) == IsPast(v, a) && IsDoomed(u, a) == IsDoomed(v, a)
  }

  /** How the sums about an actor change when a thread does. */
  ghost predicate SumsMove(ts: seq<Thread>, t: nat, th: Thread, a: nat)
    requires t < |ts|
  {
    var us := ts[t := th];
    && Sum(us, Handles(a)) == Sum(ts, Handles(a)) - ts[t].handles[a] + th.handles[a]
    && Sum(us, Inside(a)) == Sum(ts, Inside(a)) - InsideOf(ts[t], a) + InsideOf(th, a)
    && Sum(us, Reading(a)) == Sum(ts, Reading(a)) - Reads(ts[t], a) + Reads(th, a)
    && Sum(us, Writing(a)) == Sum(ts, Writing(a)) - Writes(ts[t], a) + Writes(th, a)
    && Sum(us, Tail(a)) == Sum(ts, Tail(a)) - (if InTail(ts[t], a) then 1 else 0) + (if InTail(th, a) then 1 else 0)
    && Sum(us, Past(a)) == Sum(ts, Past(a)) - (if IsPast(ts[t], a) then 1 else 0) + (if IsPast(th, a) then 1 else 0)
    && Sum(us, Doomed(a)) == Sum(ts, Doomed(a)) - (if IsDoomed(ts[t], a) then 1 else 0) + (if IsDoomed(th, a) then 1 else 0)
  }

  /** Each thread is part of the sums. */
  ghost predicate Counted(ts: seq<Thread>, t: nat, a: nat)
    requires t < |ts|
  {
    && Sum(ts, Handles(a)) >= ts[t].handles[a] && Sum(ts, Inside(a)) >= InsideOf(ts[t], a)
    && Sum(ts, Reading(a)) >= Reads(ts[t], a) && Sum(ts, Writing(a)) >= Writes(ts[t], a)
    && Sum(ts, Tail(a)) >= (if InTail(ts[t], a) then 1 else 0)
    && Sum(ts, Past(a)) >= (if IsPast(ts[t], a) then 1 else 0)
    && Sum(ts, Doomed(a)) >= if IsDoomed(ts[t], a) then 1 else 0
  }

  lemma Sums(ts: seq<Thread>, t: nat, th: Thread, a: nat)
    requires t < |ts|
    ensures SumsMove(ts, t, th, a) && Counted(ts, t, a)
  {
    hide Sum, InsideOf, InTail, IsPast, IsDoomed, Rank;
    SumUpdate(ts, t, th, Handles(a));
    SumUpdate(ts, t, th, Inside(a));
    SumUpdate(ts, t, th, Reading(a));
    SumUpdate(ts, t, th, Writing(a));
    SumUpdate(ts, t, th, Tail(a));
    SumUpdate(ts, t, th, Past(a));
    SumUpdate(ts, t, th, Doomed(a));
  }

  lemma ActorKept(x: Actor, a: nat, ts: seq<Thread>, t: nat, th: Thread)
    requires t < |ts| && ActorInv(x, a, ts) && SameFor(ts[t], th, a)
    ensures ActorInv(x, a, ts[t := th])
  {
    hide Sum, InsideOf, InTail, IsPast, IsDoomed;
    Sums(ts, t, th, a);
  }

  /** No thread keeps this one from a lock. */
  predicate Unhindered(ts: seq<Thread>, t: nat)
    requires t < |ts|
  {
    forall v :: 0 <= v < |ts| ==> !InTheWay(ts[v], ts[t].pc)
  }

  /** Threads that wait for one another go on waiting when another one takes a step. */
  lemma HeldKept(ts: seq<Thread>, us: seq<Thread>, a: nat, x: nat, t: nat)
    requires Held(ts, a, x) && t < |ts| == |us| && Unhindered(ts, t)
    requires forall v :: 0 <= v < |ts| && v != t ==>
               us[v].pc == ts[v].pc && us[v].contexts == ts[v].contexts
    requires x == t ==> us[t].contexts == ts[t].contexts
    ensures Held(us, a, x)
  {
    var K: set<nat> :| Jam(ts, a, x, K);
    assert t in K ==> Stuck(ts, ts[t].pc, x, K);
    assert t !in K;
    forall u | u in K
      ensures u < |us| && Stuck(us, us[u].pc, x, K)
    {
      assert Stuck(ts, ts[u].pc, x, K);
      var v: nat :| v < |ts| && (v in K || v == x) && InTheWay(ts[v], ts[u].pc);
      assert InTheWay(us[v], us[u].pc);
    }
    var u :| u in K && u < |ts| && InsideOf(ts[u], a) > 0;
    assert InsideOf(us[u], a) > 0;
    assert Jam(us, a, x, K);
  }

  lemma JamKept(x: Actor, x': Actor, a: nat, ts: seq<Thread>, t: nat, th: Thread)
    requires JamInv(x, a, ts) && t < |ts| && Unhindered(ts, t)
    requires x'.refcount == 0 && x'.active > 0 ==> x.refcount == 0 && x.active > 0
    requires InTail(th, a) ==> InTail(ts[t], a) && th.contexts == ts[t].contexts
    ensures JamInv(x', a, ts[t := th])
  {
    hide Held, InTail, Unhindered;
    var us := ts[t := th];
    if x'.refcount == 0 && x'.active > 0 {
      forall u | 0 <= u < |us| && InTail(us[u], a)
        ensures Held(us, a, u)
      {
        HeldKept(ts, us, a, u, t);
      }
    }
  }

  /** A thread that can take a step does not wait in vain. */
  lemma EnabledUnhindered(s: State, e: Event)
    requires Inv(s) && Enabled(s, e)
    ensures Unhindered(s.threads, e.t)
  {
    hide Sum;
    var pc := s.threads[e.t].pc;
    if pc.Waiting? {
      var b := pc.actor;
      assert ActorInv(s.actors[b], b, s.threads);
      SumZero(s.threads, Writing(b));
      SumZero(s.threads, Reading(b));
      assert forall v :: 0 <= v < |s.threads| ==> Of(s.threads[v], Writing(b)) == 0;
      assert !pc.shared ==> forall v :: 0 <= v < |s.threads| ==> Of(s.threads[v], Reading(b)) == 0;
    }
  }

  function Live(th: Thread): int { Of(th, Falling) - Of(th, Rising) }

  lemma ThreadKept(u: Thread, th: Thread, a: nat, actors: nat)
    requires ThreadInv(u, actors) && a < actors && PcInv(th, actors)
    requires forall b: nat :: b != a ==> SameFor(u, th, b)
    ensures ThreadInv(th, actors)
  {
    hide InTail, IsPast, IsDoomed;
    forall b: nat | th.handles[b] > 0 || InsideOf(th, b) > 0
      ensures b < actors
    {
      assert b == a || SameFor(u, th, b);
    }
  }

  /** A step of one thread on one actor keeps the invariant if it keeps it for these two. */
  lemma Local(s: State, t: nat, th: Thread, a: nat, x: Actor)
    requires Inv(s) && t < |s.threads| && a < |s.actors| && Unhindered(s.threads, t)
    requires forall b: nat :: b != a ==> SameFor(s.threads[t], th, b)
    requires HasActor(s.threads[t].pc) ==> s.threads[t].pc.actor == a
    requires ActorInv(x, a, s.threads[t := th]) && PcInv(th, |s.actors|) && JamInv(x, a, s.threads[t := th])
    requires Left(x) + Live(th) == Left(s.actors[a]) + Live(s.threads[t])
    ensures Inv(Both(s, t, th, a, x))
  {
    hide Sum, SameFor, ActorInv, JamInv, ThreadInv, Undestroyed, Unhindered;
    var r := Both(s, t, th, a, x);
    ThreadKept(s.threads[t], th, a, |s.actors|);
    forall b | 0 <= b < |r.actors| ensures ActorInv(r.actors[b], b, r.threads) && JamInv(r.actors[b], b, r.threads) {
      if b != a {
        ActorKept(s.actors[b], b, s.threads, t, th);
        NoTailOf(s.threads[t], th, a, b);
        JamKept(s.actors[b], s.actors[b], b, s.threads, t, th);
      }
    }
    SumUpdate(s.threads, t, th, Rising);
    SumUpdate(s.threads, t, th, Falling);
    UndestroyedUpdate(s.actors, a, x);
  }

  lemma NoTailOf(u: Thread, th: Thread, a: nat, b: nat)
    requires (HasActor(u.pc) ==> u.pc.actor == a) && a != b && SameFor(u, th, b)
    ensures !InTail(th, b)
  {
  }

  lemma SameActor(s: State, t: nat, th: Thread, a: nat)
    requires t < |s.threads| && a < |s.actors|
    ensures Both(s, t, th, a, s.actors[a]) == Moved(s, t, th)
  {
    assert s.actors[a := s.actors[a]] == s.actors;
  }

  lemma KeepsClone(s: State, t: nat, a: nat)
    requires Inv(s) && Enabled(s, Clone(t, a)) && Obeys(s, Clone(t, a))
    ensures Inv(Apply(s, Clone(t, a)))
  {
    hide Sum;
    var th := s.threads[t].(handles := s.threads[t].handles + multiset{a});
    Sums(s.threads, t, th, a);
    EnabledUnhindered(s, Clone(t, a));
    JamKept(s.actors[a], s.actors[a].(refcount := s.actors[a].refcount + 1), a, s.threads, t, th);
    Local(s, t, th, a, s.actors[a].(refcount := s.actors[a].refcount + 1));
  }

  lemma KeepsRelease(s: State, t: nat, a: nat)
    requires Inv(s) && Enabled(s, Release(t, a)) && Obeys(s, Release(t, a))
    ensures Inv(Apply(s, Release(t, a)))
  {
    hide Sum, Held;
    var th := Apply(s, Release(t, a)).threads[t];
    Sums(s.threads, t, th, a);
    assert ActorInv(s.actors[a], a, s.threads);
    var x := s.actors[a].(refcount := s.actors[a].refcount - 1);
    SumZero(s.threads, Tail(a));
    EnabledUnhindered(s, Release(t, a));
    if s.actors[a].refcount == 1 {
      assert s.actors[a].active == 0 ==> forall u :: 0 <= u < |s.threads| ==> Of(s.threads[u], Tail(a)) == 0;
      JamStarts(s, t, a, th, x);
    }
    Local(s, t, th, a, x);
  }

  lemma JamStarts(s: State, t: nat, a: nat, th: Thread, x: Actor)
    requires t < |s.threads| && a < |s.actors| && Unhindered(s.threads, t) && s.actors[a].refcount == 1 && Harmless(s, t, a)
    requires th.contexts == s.threads[t].contexts && s.threads[t].pc.Idle?
    requires th.pc == CheckingHandles(a) && x.active == s.actors[a].active
    ensures JamInv(x, a, s.threads[t := th])
  {
    hide Held, Unhindered;
    var us := s.threads[t := th];
    if x.active > 0 {
      forall u | 0 <= u < |us| && InTail(us[u], a)
        ensures Held(us, a, u)
      {
        assert Heading(s, t, a, u);
        HeldKept(s.threads, us, a, u, t);
      }
    }
  }

  lemma KeepsLoadRefcount(s: State, t: nat)
    requires Inv(s) && Enabled(s, LoadRefcount(t))
    ensures Inv(Apply(s, LoadRefcount(t)))
  {
    hide Sum;
    var a, th := s.threads[t].pc.actor, Apply(s, LoadRefcount(t)).threads[t];
    Sums(s.threads, t, th, a);
    EnabledUnhindered(s, LoadRefcount(t));
    JamKept(s.actors[a], s.actors[a], a, s.threads, t, th);
    Local(s, t, th, a, s.actors[a]);
    SameActor(s, t, th, a);
  }

  lemma KeepsLoadActive(s: State, t: nat)
    requires Inv(s) && Enabled(s, LoadActive(t))
    ensures Inv(Apply(s, LoadActive(t)))
  {
    hide Sum;
    var a, th := s.threads[t].pc.actor, Apply(s, LoadActive(t)).threads[t];
    Sums(s.threads, t, th, a);
    EnabledUnhindered(s, LoadActive(t));
    JamKept(s.actors[a], s.actors[a], a, s.threads, t, th);
    Local(s, t, th, a, s.actors[a]);
    SameActor(s, t, th, a);
  }

  lemma KeepsDestroy(s: State, t: nat)
    requires Inv(s) && Enabled(s, Destroy(t))
    ensures Inv(Apply(s, Destroy(t)))
  {
    hide Sum;
    var a, th := s.threads[t].pc.actor, s.threads[t].(pc := CountingDown);
    Sums(s.threads, t, th, a);
    EnabledUnhindered(s, Destroy(t));
    JamKept(s.actors[a], s.actors[a].(destroyed := s.actors[a].destroyed + 1), a, s.threads, t, th);
    Local(s, t, th, a, s.actors[a].(destroyed := s.actors[a].destroyed + 1));
  }

  lemma KeepsEnterStart(s: State, t: nat, a: nat, mode: nat)
    requires Inv(s) && Enabled(s, EnterStart(t, a, mode)) && Obeys(s, EnterStart(t, a, mode))
    ensures Inv(Apply(s, EnterStart(t, a, mode)))
  {
    hide Sum;
    var th := s.threads[t].(pc := EnterPc(s, a, mode));
    Sums(s.threads, t, th, a);
    EnabledUnhindered(s, EnterStart(t, a, mode));
    JamKept(s.actors[a], s.actors[a].(active := s.actors[a].active + 1), a, s.threads, t, th);
    Local(s, t, th, a, s.actors[a].(active := s.actors[a].active + 1));
  }

  lemma KeepsEnterFail(s: State, t: nat)
    requires Inv(s) && Enabled(s, EnterFail(t))
    ensures Inv(Apply(s, EnterFail(t)))
  {
    hide Sum;
    var a, th := s.threads[t].pc.actor, s.threads[t].(pc := Idle);
    assert ThreadInv(s.threads[t], |s.actors|);
    Sums(s.threads, t, th, a);
    EnabledUnhindered(s, EnterFail(t));
    JamKept(s.actors[a], s.actors[a].(active := s.actors[a].active - 1), a, s.threads, t, th);
    Local(s, t, th, a, s.actors[a].(active := s.actors[a].active - 1));
  }

  lemma KeepsAcquire(s: State, t: nat)
    requires Inv(s) && Enabled(s, Acquire(t))
    ensures Inv(Apply(s, Acquire(t)))
  {
    hide Sum, Count;
    var a, th := s.threads[t].pc.actor, Apply(s, Acquire(t)).threads[t];
    CountMore(s.threads[t].contexts, Context(a, s.threads[t].pc.mode, s.threads[t].pc.shared));
    Sums(s.threads, t, th, a);
    EnabledUnhindered(s, Acquire(t));
    JamKept(s.actors[a], Apply(s, Acquire(t)).actors[a], a, s.threads, t, th);
    Local(s, t, th, a, Apply(s, Acquire(t)).actors[a]);
  }

  lemma KeepsUnlock(s: State, t: nat, i: nat)
    requires Inv(s) && Enabled(s, Unlock(t, i))
    ensures Inv(Apply(s, Unlock(t, i)))
  {
    hide Sum, Count;
    var a, r := s.threads[t].contexts[i].actor, Apply(s, Unlock(t, i));
    var th := r.threads[t];
    CountsLess(s.threads[t].contexts, i);
    Sums(s.threads, t, th, a);
    EnabledUnhindered(s, Unlock(t, i));
    JamKept(s.actors[a], r.actors[a], a, s.threads, t, th);
    Local(s, t, th, a, r.actors[a]);
  }

  lemma KeepsLeaveEnd(s: State, t: nat)
    requires Inv(s) && Enabled(s, LeaveEnd(t))
    ensures Inv(Apply(s, LeaveEnd(t)))
  {
    hide Sum, Held;
    var a, th := s.threads[t].pc.actor, Apply(s, LeaveEnd(t)).threads[t];
    Sums(s.threads, t, th, a);
    assert ActorInv(s.actors[a], a, s.threads);
    var x := s.actors[a].(active := s.actors[a].active - 1);
    EnabledUnhindered(s, LeaveEnd(t));
    if s.actors[a].active == 1 {
      LastLeaver(s, t, a);
    } else {
      JamKept(s.actors[a], x, a, s.threads, t, th);
    }
    Local(s, t, th, a, x);
  }

  /** When the last context of an actor without handles is left, no thread is on the way to destroy it. */
  lemma LastLeaver(s: State, t: nat, a: nat)
    requires Inv(s) && t < |s.threads| && a < |s.actors| && s.threads[t].pc == Leaving(a) && s.actors[a].active == 1
    ensures s.actors[a].refcount == 0 ==> Sum(s.threads, Tail(a)) == 0
  {
    hide Sum, InTail;
    SumZero(s.threads, Tail(a));
    assert ActorInv(s.actors[a], a, s.threads);
    if s.actors[a].refcount == 0 && Sum(s.threads, Tail(a)) != 0 {
      var u :| 0 <= u < |s.threads| && Of(s.threads[u], Tail(a)) != 0;
      assert Held(s.threads, a, u);
      var K: set<nat> :| Jam(s.threads, a, u, K);
      var v :| v in K && v < |s.threads| && InsideOf(s.threads[v], a) > 0;
      assert Stuck(s.threads, s.threads[v].pc, u, K);
      TwoInside(s.threads, t, v, a);
      assert false;
    }
  }

  lemma TwoInside(ts: seq<Thread>, t: nat, v: nat, a: nat)
    requires t < |ts| && v < |ts| && t != v && InsideOf(ts[t], a) > 0 && InsideOf(ts[v], a) > 0
    ensures Sum(ts, Inside(a)) >= 2
  {
    hide Sum;
    SumUpdate(ts, t, Fresh(), Inside(a));
    SumUpdate(ts[t := Fresh()], v, Fresh(), Inside(a));
  }

  lemma KeepsMakeContext(s: State, t: nat)
    requires Inv(s) && Enabled(s, MakeContext(t))
    ensures Inv(Apply(s, MakeContext(t)))
  {
    hide Sum, Held;
    var a, th := s.threads[t].pc.actor, Apply(s, MakeContext(t)).threads[t];
    Sums(s.threads, t, th, a);
    EnabledUnhindered(s, MakeContext(t));
    JamKept(s.actors[a], s.actors[a], a, s.threads, t, th);
    Local(s, t, th, a, s.actors[a]);
    SameActor(s, t, th, a);
  }

  lemma KeepsCount(s: State, t: nat, up: bool)
    requires Inv(s) && Enabled(s, if up then CountUp(t) else CountDown(t))
    ensures Inv(Apply(s, if up then CountUp(t) else CountDown(t)))
  {
    hide Sum, ActorInv;
    var th := s.threads[t].(pc := Idle);
    SumUpdate(s.threads, t, th, Rising);
    SumUpdate(s.threads, t, th, Falling);
    EnabledUnhindered(s, if up then CountUp(t) else CountDown(t));
    forall a | 0 <= a < |s.actors|
      ensures ActorInv(s.actors[a], a, s.threads[t := th]) && JamInv(s.actors[a], a, s.threads[t := th])
    {
      ActorKept(s.actors[a], a, s.threads, t, th);
      JamKept(s.actors[a], s.actors[a], a, s.threads, t, th);
    }
    assert ThreadInv(th, |s.actors|) by {
      assert ThreadInv(s.threads[t], |s.actors|);
      assert forall a: nat :: InsideOf(th, a) == InsideOf(s.threads[t], a);
    }
    var r := Apply(s, if up then CountUp(t) else CountDown(t));
    assert r.threads == s.threads[t := th] && r.actors == s.actors;
    assert r.live + Sum(r.threads, Rising) == Undestroyed(r.actors) + Sum(r.threads, Falling);
  }

  lemma KeepsNew(s: State, t: nat)
    requires Inv(s) && Enabled(s, New(t))
    ensures Inv(Apply(s, New(t)))
  {
    hide Sum, ActorInv, Undestroyed;
    var a := |s.actors|;
    var r := Apply(s, New(t));
    var th := r.threads[t];
    SumUpdate(s.threads, t, th, Rising);
    SumUpdate(s.threads, t, th, Falling);
    EnabledUnhindered(s, New(t));
    forall b | 0 <= b < a ensures ActorInv(r.actors[b], b, r.threads) && JamInv(r.actors[b], b, r.threads) {
      ActorKept(s.actors[b], b, s.threads, t, th);
      JamKept(s.actors[b], s.actors[b], b, s.threads, t, th);
    }
    NewActor(s, t, th);
    UndestroyedNew(s.actors, r.actors[a]);
    forall u | 0 <= u < |r.threads| ensures ThreadInv(r.threads[u], a + 1) {
      assert ThreadInv(s.threads[u], a);
    }
  }

  lemma UndestroyedNew(actors: seq<Actor>, x: Actor)
    ensures Undestroyed(actors + [x]) == Undestroyed(actors) + Left(x)
  {
    assert (actors + [x])[..|actors|] == actors;
  }

  /** An actor that is not there yet has no handles and no contexts. */
  lemma NewActor(s: State, t: nat, th: Thread)
    requires Inv(s) && t < |s.threads| && s.threads[t].pc.Idle?
    requires th == s.threads[t].(pc := CountingUp, handles := s.threads[t].handles + multiset{|s.actors|})
    ensures ActorInv(Actor(1, 0, 0, false, 0), |s.actors|, s.threads[t := th])
  {
    hide Sum;
    var a := |s.actors|;
    forall u | 0 <= u < |s.threads|
      ensures forall m :: m in [Handles(a), Inside(a), Reading(a), Writing(a), Tail(a), Past(a), Doomed(a)] ==> Of(s.threads[u], m) == 0
    {
      assert ThreadInv(s.threads[u], a) && InsideOf(s.threads[u], a) == 0;
    }
    SumZero(s.threads, Handles(a));
    SumZero(s.threads, Inside(a));
    SumZero(s.threads, Reading(a));
    SumZero(s.threads, Writing(a));
    SumZero(s.threads, Tail(a));
    SumZero(s.threads, Past(a));
    SumZero(s.threads, Doomed(a));
    Sums(s.threads, t, th, a);
  }

  lemma Given(s: State, t: nat, a: nat, to: nat)
    requires Inv(s) && Enabled(s, Give(t, a, to)) && Obeys(s, Give(t, a, to)) && a < |s.actors|
    ensures ActorInv(s.actors[a], a, Apply(s, Give(t, a, to)).threads)
    ensures ThreadInv(Apply(s, Give(t, a, to)).threads[to], |s.actors|)
  {
    hide Sum;
    var th := s.threads[t].(handles := s.threads[t].handles - multiset{a});
    var taker := s.threads[to].(handles := s.threads[to].handles + multiset{a});
    Sums(s.threads, t, th, a);
    Sums(s.threads[t := th], to, taker, a);
    Sums(s.threads, to, taker, a);
    assert ThreadInv(s.threads[to], |s.actors|) && ThreadInv(s.threads[t], |s.actors|);
    assert ActorInv(s.actors[a], a, s.threads);
  }

  lemma JamGiven(x: Actor, b: nat, ts: seq<Thread>, us: seq<Thread>, t: nat)
    requires JamInv(x, b, ts) && t < |ts| == |us| && Unhindered(ts, t)
    requires forall v :: 0 <= v < |ts| ==>
               us[v].pc == ts[v].pc && us[v].contexts == ts[v].contexts
    ensures JamInv(x, b, us)
  {
    hide Held, Unhindered;
    if x.refcount == 0 && x.active > 0 {
      forall u | 0 <= u < |us| && InTail(us[u], b)
        ensures Held(us, b, u)
      {
        HeldKept(ts, us, b, u, t);
      }
    }
  }

  lemma KeepsGive(s: State, t: nat, a: nat, to: nat)
    requires Inv(s) && Enabled(s, Give(t, a, to)) && Obeys(s, Give(t, a, to))
    ensures Inv(Apply(s, Give(t, a, to)))
  {
    hide Sum, ActorInv;
    assert ThreadInv(s.threads[t], |s.actors|);
    Given(s, t, a, to);
    var th := s.threads[t].(handles := s.threads[t].handles - multiset{a});
    var taker := s.threads[to].(handles := s.threads[to].handles + multiset{a});
    var between := s.threads[t := th];
    SumUpdate(s.threads, t, th, Rising);
    SumUpdate(s.threads, t, th, Falling);
    SumUpdate(between, to, taker, Rising);
    SumUpdate(between, to, taker, Falling);
    EnabledUnhindered(s, Give(t, a, to));
    forall b | 0 <= b < |s.actors|
      ensures ActorInv(s.actors[b], b, between[to := taker]) && JamInv(s.actors[b], b, between[to := taker])
    {
      if b != a {
        ActorKept(s.actors[b], b, s.threads, t, th);
        ActorKept(s.actors[b], b, between, to, taker);
      }
      JamGiven(s.actors[b], b, s.threads, between[to := taker], t);
    }
  }

  // ---- Main results ----------------------------------------------------------------------

  lemma Keeps(s: State, e: Event)
    requires Inv(s) && Enabled(s, e) && Obeys(s, e)
    ensures Inv(Apply(s, e))
  {
    hide Inv, Apply;
    match e
    case New(t) => KeepsNew(s, t);
    case CountUp(t) => KeepsCount(s, t, true);
    case Clone(t, a) => KeepsClone(s, t, a);
    case Give(t, a, to) => KeepsGive(s, t, a, to);
    case Release(t, a) => KeepsRelease(s, t, a);
    case Restore(t) => NeverRestores(s, t);
    case LoadRefcount(t) => KeepsLoadRefcount(s, t);
    case LoadActive(t) => KeepsLoadActive(s, t);
    case Destroy(t) => KeepsDestroy(s, t);
    case CountDown(t) => KeepsCount(s, t, false);
    case EnterStart(t, a, mode) => KeepsEnterStart(s, t, a, mode);
    case EnterFail(t) => KeepsEnterFail(s, t);
    case MakeContext(t) => KeepsMakeContext(s, t);
    case Acquire(t) => KeepsAcquire(s, t);
    case Unlock(t, i) => KeepsUnlock(s, t, i);
    case LeaveEnd(t) => KeepsLeaveEnd(s, t);
  }

  /** The branch of `release` for an actor without handles is never taken. */
  lemma NeverRestores(s: State, t: nat)
    requires Inv(s) && t < |s.threads|
    ensures !Enabled(s, Restore(t))
  {
    assert ThreadInv(s.threads[t], |s.actors|);
  }

  /** A run: a sequence of steps, each enabled and keeping the callers' promises. */
  ghost predicate Runs(s: State, es: seq<Event>, r: State)
    decreases |es|
  {
    if es == [] then s == r else Enabled(s, es[0]) && Obeys(s, es[0]) && Runs(Apply(s, es[0]), es[1..], r)
  }

  function Fresh(): Thread { Thread(Idle, multiset{}, []) }

  /** The start: any number of threads, and no actor. */
  function Start(hosted: bool, threads: nat): State { State(hosted, seq(threads, _ => Fresh()), [], 0) }

  lemma StartInv(hosted: bool, threads: nat)
    ensures Inv(Start(hosted, threads))
  {
    SumZero(Start(hosted, threads).threads, Rising);
    SumZero(Start(hosted, threads).threads, Falling);
  }

  lemma {:induction false} RunsKeep(s: State, es: seq<Event>, r: State)
    requires Inv(s) && Runs(s, es, r)
    ensures Inv(r)
    decreases |es|
  {
    hide Inv, Apply, Enabled, Obeys;
    if es != [] {
      Keeps(s, es[0]);
      RunsKeep(Apply(s, es[0]), es[1..], r);
    }
  }

  /** Whether a step works on an actor's memory. */
  predicate Touches(s: State, e: Event, a: nat)
    requires Enabled(s, e)
  {
    match e
    case New(_) => false
    case CountUp(_) => false
    case CountDown(_) => false
    case Give(_, _, _) => false
    case Clone(_, b) => a == b
    case Release(_, b) => a == b
    case EnterStart(_, b, _) => a == b
    case Unlock(_, i) => a == s.threads[e.t].contexts[i].actor
    case _ => HasActor(s.threads[e.t].pc) && s.threads[e.t].pc.actor == a
  }

  /** No step works on a destroyed actor, so none is destroyed twice. */
  lemma TouchesLive(s: State, e: Event, a: nat)
    requires Inv(s) && Enabled(s, e) && Obeys(s, e) && a < |s.actors| && Touches(s, e, a)
    ensures s.actors[a].destroyed == 0
  {
    hide Sum, Count;
    assert ThreadInv(s.threads[e.t], |s.actors|) && ActorInv(s.actors[a], a, s.threads);
    if e.Unlock? {
      CountsLess(s.threads[e.t].contexts, e.ctx);
    }
    Sums(s.threads, e.t, s.threads[e.t], a);
  }

  predicate Quiet(s: State) { forall t :: 0 <= t < |s.threads| ==> s.threads[t].pc.Idle? }

  /** What holds after every run, from any number of threads and whatever the order of their steps. */
  lemma Safety(hosted: bool, threads: nat, es: seq<Event>, s: State, a: nat)
    requires Runs(Start(hosted, threads), es, s) && a < |s.actors|
    ensures s.actors[a].refcount == Sum(s.threads, Handles(a))
    ensures s.actors[a].active == Sum(s.threads, Inside(a))
    ensures Sum(s.threads, Writing(a)) <= 1
    ensures Sum(s.threads, Writing(a)) == 1 ==> Sum(s.threads, Reading(a)) == 0
    ensures s.actors[a].destroyed <= 1
    ensures s.actors[a].destroyed == 1 ==> Sum(s.threads, Handles(a)) == 0 && Sum(s.threads, Inside(a)) == 0
  {
    StartInv(hosted, threads);
    RunsKeep(Start(hosted, threads), es, s);
    assert ActorInv(s.actors[a], a, s.threads);
  }

  /** No actor is forgotten: when no call is under way, exactly the actors with neither a handle nor a context
      are destroyed, and the count of live actors is right. */
  lemma NoneForgotten(hosted: bool, threads: nat, es: seq<Event>, s: State)
    requires Runs(Start(hosted, threads), es, s) && Quiet(s)
    ensures s.live == Undestroyed(s.actors)
    ensures forall a :: 0 <= a < |s.actors| ==>
              (s.actors[a].destroyed == 1 <==> Sum(s.threads, Handles(a)) == 0 && Sum(s.threads, Inside(a)) == 0)
  {
    hide Sum, Undestroyed, Runs;
    StartInv(hosted, threads);
    RunsKeep(Start(hosted, threads), es, s);
    SumZero(s.threads, Rising);
    SumZero(s.threads, Falling);
    forall a | 0 <= a < |s.actors|
      ensures s.actors[a].destroyed == 1 <==> Sum(s.threads, Handles(a)) == 0 && Sum(s.threads, Inside(a)) == 0
    {
      SumZero(s.threads, Tail(a));
      assert ActorInv(s.actors[a], a, s.threads);
    }
  }

  // ---- Which contexts can be open together -----------------------------------------------

  /** Locks are taken as the modes asked for say: shared only for mode 1, and only by the hosted runtime. */
  predicate ModesKept(s: State) {
    forall t :: 0 <= t < |s.threads| ==> ModesOf(s.hosted, s.threads[t])
  }

  predicate ModesOf(hosted: bool, th: Thread) {
    && (th.pc.Entering? ==> hosted)
    && (th.pc.Waiting? ==> (th.pc.shared <==> hosted && th.pc.mode == 1))
    && forall i :: 0 <= i < |th.contexts| ==> (th.contexts[i].shared <==> hosted && th.contexts[i].mode == 1)
  }

  /** Every context, open or under way, was asked for by its thread, with this mode. */
  predicate Asked(s: State, past: seq<Event>) {
    forall t: nat :: t < |s.threads| ==> AskedBy(t, s.threads[t], past)
  }

  predicate AskedBy(t: nat, th: Thread, past: seq<Event>) {
    && (th.pc.Entering? || th.pc.Waiting? ==> EnterStart(t, th.pc.actor, th.pc.mode) in past)
    && forall i :: 0 <= i < |th.contexts| ==> EnterStart(t, th.contexts[i].actor, th.contexts[i].mode) in past
  }

  lemma ModesStep(s: State, e: Event, past: seq<Event>)
    requires Enabled(s, e) && ModesKept(s) && Asked(s, past)
    ensures ModesKept(Apply(s, e)) && Asked(Apply(s, e), past + [e])
  {
    var r := Apply(s, e);
    forall t: nat | t < |r.threads| ensures ModesOf(r.hosted, r.threads[t]) && AskedBy(t, r.threads[t], past + [e]) {
      assert ModesOf(s.hosted, s.threads[t]) && AskedBy(t, s.threads[t], past);
      assert e in past + [e] && forall f :: f in past ==> f in past + [e];
    }
  }

  lemma {:induction false} ModesRun(s: State, past: seq<Event>, es: seq<Event>, r: State)
    requires ModesKept(s) && Asked(s, past) && Runs(s, es, r)
    ensures ModesKept(r) && Asked(r, past + es) && r.hosted == s.hosted
    decreases |es|
  {
    hide Enabled, Obeys, Apply, ModesKept, Asked;
    if es == [] {
      assert past + es == past;
    } else {
      ModesStep(s, es[0], past);
      SameRuntime(s, es[0]);
      ModesRun(Apply(s, es[0]), past + [es[0]], es[1..], r);
      assert past + [es[0]] + es[1..] == past + es;
    }
  }

  lemma SameRuntime(s: State, e: Event)
    requires Enabled(s, e)
    ensures Apply(s, e).hosted == s.hosted
  {
  }

  lemma ModesFromStart(hosted: bool, threads: nat, es: seq<Event>, s: State)
    requires Runs(Start(hosted, threads), es, s)
    ensures ModesKept(s) && Asked(s, es) && s.hosted == hosted
  {
    hide Runs;
    ModesRun(Start(hosted, threads), [], es, s);
    assert [] + es == es;
  }

  /** The thread's `i`-th context is one of actor `a`. */
  predicate Opens(s: State, t: nat, i: nat, a: nat) {
    t < |s.threads| && i < |s.threads[t].contexts| && s.threads[t].contexts[i].actor == a
  }

  /** A context keeps its lock counted. */
  lemma LockCounted(s: State, t: nat, i: nat, a: nat)
    requires Opens(s, t, i, a)
    ensures Sum(s.threads, if s.threads[t].contexts[i].shared then Reading(a) else Writing(a)) >= 1
  {
    hide Sum, Count;
    CountsLess(s.threads[t].contexts, i);
    Sums(s.threads, t, s.threads[t], a);
  }

  lemma LocksCounted(s: State, t: nat, i: nat, u: nat, j: nat, a: nat)
    requires Opens(s, t, i, a) && Opens(s, u, j, a) && (t != u || i != j)
    requires !s.threads[t].contexts[i].shared && !s.threads[u].contexts[j].shared
    ensures Sum(s.threads, Writing(a)) >= 2
  {
    hide Sum, Count;
    var one := s.threads[t].(contexts := Without(s.threads[t].contexts, i));
    CountsLess(s.threads[t].contexts, i);
    Sums(s.threads, t, one, a);
    var us := s.threads[t := one];
    if t == u {
      var j' := if j < i then j else j - 1;
      assert one.contexts[j'] == s.threads[t].contexts[j];
      CountsLess(one.contexts, j');
      Sums(us, t, one, a);
    } else {
      CountsLess(s.threads[u].contexts, j);
      Sums(us, u, us[u], a);
    }
  }

  /** After every run: if two contexts of an actor are open together, both were asked for with mode 1, in the
      hosted runtime. */
  lemma OnlySharedTogether(hosted: bool, threads: nat, es: seq<Event>, s: State, a: nat, t: nat, i: nat, u: nat, j: nat)
    requires Runs(Start(hosted, threads), es, s) && a < |s.actors|
    requires Opens(s, t, i, a) && Opens(s, u, j, a) && (t != u || i != j)
    ensures hosted && EnterStart(t, a, 1) in es && EnterStart(u, a, 1) in es
    ensures s.threads[t].contexts[i].mode == 1 && s.threads[u].contexts[j].mode == 1
  {
    hide Sum, Runs;
    Safety(hosted, threads, es, s, a);
    ModesFromStart(hosted, threads, es, s);
    LockCounted(s, t, i, a);
    LockCounted(s, u, j, a);
    if !s.threads[t].contexts[i].shared && !s.threads[u].contexts[j].shared {
      LocksCounted(s, t, i, u, j, a);
    }
    assert ModesOf(hosted, s.threads[t]) && ModesOf(hosted, s.threads[u]);
    assert AskedBy(t, s.threads[t], es) && AskedBy(u, s.threads[u], es);
  }

  /** And whom a waiting thread waits for: in the hosted runtime with mode 1 for contexts of other modes only,
      otherwise for all contexts of the actor. */
  lemma WaitsFor(hosted: bool, threads: nat, es: seq<Event>, s: State, t: nat)
    requires Runs(Start(hosted, threads), es, s) && t < |s.threads| && s.threads[t].pc.Waiting?
    ensures var a, mode := s.threads[t].pc.actor, s.threads[t].pc.mode;
            && EnterStart(t, a, mode) in es
            && (Enabled(s, Acquire(t)) <==>
                forall u: nat, j: nat :: Opens(s, u, j, a) ==> hosted && mode == 1 && s.threads[u].contexts[j].mode == 1)
  {
    hide Sum, Runs, Count;
    var a, mode := s.threads[t].pc.actor, s.threads[t].pc.mode;
    StartInv(hosted, threads);
    RunsKeep(Start(hosted, threads), es, s);
    ModesFromStart(hosted, threads, es, s);
    assert ThreadInv(s.threads[t], |s.actors|) && ActorInv(s.actors[a], a, s.threads);
    assert ModesOf(hosted, s.threads[t]) && AskedBy(t, s.threads[t], es);
    forall u: nat, j: nat | Opens(s, u, j, a)
      ensures ModesOf(hosted, s.threads[u])
      ensures if s.threads[u].contexts[j].shared then s.actors[a].readers > 0 else s.actors[a].writer
    {
      LockCounted(s, u, j, a);
    }
    if s.actors[a].writer {
      var u, j := Holder(s, a, false);
      assert Opens(s, u, j, a);
    } else if s.actors[a].readers > 0 {
      var u, j := Holder(s, a, true);
      assert Opens(s, u, j, a);
    }
  }

  lemma Holder(s: State, a: nat, shared: bool) returns (u: nat, j: nat)
    requires Sum(s.threads, if shared then Reading(a) else Writing(a)) > 0
    ensures Opens(s, u, j, a) && s.threads[u].contexts[j].shared == shared
  {
    hide Sum, Count;
    var m := if shared then Reading(a) else Writing(a);
    SumZero(s.threads, m);
    u :| 0 <= u < |s.threads| && Of(s.threads[u], m) != 0;
    j := FindContext(s.threads[u].contexts, a, shared);
  }

  // ---- A release that does harm ----------------------------------------------------------

  lemma RunsCons(s: State, e: Event, es: seq<Event>, r: State)
    requires Enabled(s, e) && Obeys(s, e) && Runs(Apply(s, e), es, r)
    ensures Runs(s, [e] + es, r)
  {
    hide Enabled, Obeys, Apply;
    assert ([e] + es)[1..] == es;
  }

  lemma {:induction false} RunsJoin(s: State, es: seq<Event>, m: State, fs: seq<Event>, r: State)
    requires Runs(s, es, m) && Runs(m, fs, r)
    ensures Runs(s, es + fs, r)
    decreases |es|
  {
    hide Enabled, Obeys, Apply;
    if es == [] {
      assert es + fs == fs;
    } else {
      RunsJoin(Apply(s, es[0]), es[1..], m, fs, r);
      assert (es + fs)[1..] == es[1..] + fs;
    }
  }

  lemma OneRun(s: State, e: Event)
    requires Enabled(s, e) && Obeys(s, e)
    ensures Runs(s, [e], Apply(s, e))
  {
    hide Enabled, Obeys, Apply;
    assert [e][1..] == [];
  }

  /** Steps by which threads end the calls they are in and leave their contexts. */
  predicate Leads(e: Event) {
    !e.New? && !e.Clone? && !e.Give? && !e.Release? && !e.EnterStart? && !e.MakeContext?
  }

  /** What a thread's step is about. */
  function About(s: State, e: Event): nat
    requires Enabled(s, e)
  {
    if e.Unlock? then s.threads[e.t].contexts[e.ctx].actor else if HasActor(s.threads[e.t].pc) then s.threads[e.t].pc.actor else |s.actors|
  }

  lemma CountsKept(x: Actor, a: nat, ts: seq<Thread>, t: nat, th: Thread)
    requires t < |ts| && Counts(x, a, ts) && SameFor(ts[t], th, a)
    ensures Counts(x, a, ts[t := th])
  {
    hide Sum, InsideOf, InTail, IsPast, IsDoomed;
    Sums(ts, t, th, a);
  }

  lemma SoundLocal(s: State, t: nat, th: Thread, a: nat, x: Actor)
    requires Sound(s) && t < |s.threads| && a < |s.actors|
    requires forall b: nat :: b != a ==> SameFor(s.threads[t], th, b)
    requires Counts(x, a, s.threads[t := th]) && PcInv(th, |s.actors|)
    ensures Sound(Both(s, t, th, a, x))
  {
    hide Counts, SameFor, ThreadInv;
    ThreadKept(s.threads[t], th, a, |s.actors|);
    forall b | 0 <= b < |s.actors| && b != a ensures Counts(s.actors[b], b, s.threads[t := th]) {
      CountsKept(s.actors[b], b, s.threads, t, th);
    }
  }

  /** The counts and the locks stay right in such a step, whatever the callers promised before. */
  lemma SoundStep(s: State, e: Event)
    requires Sound(s) && Enabled(s, e) && Leads(e)
    ensures Sound(Apply(s, e))
  {
    hide Sum, Sound, Counts, Apply, SameFor, PcInv;
    var t, b, r := e.t, About(s, e), Apply(s, e);
    SoundAt(s, t, b);
    if b < |s.actors| {
      CountsStep(s, e, b);
      StepShape(s, e, b);
      SoundLocal(s, t, r.threads[t], b, r.actors[b]);
      SoundSame(r, Both(s, t, r.threads[t], b, r.actors[b]));
    } else {
      CountShape(s, e);
      SoundCount(s, t, s.threads[t].(pc := Idle));
      SoundSame(r, Moved(s, t, s.threads[t].(pc := Idle)));
    }
  }

  lemma StepShape(s: State, e: Event, b: nat)
    requires Enabled(s, e) && Leads(e) && b == About(s, e) < |s.actors| && PcInv(s.threads[e.t], |s.actors|)
    ensures var r := Apply(s, e);
            && e.t < |r.threads| && b < |r.actors| && r.threads == s.threads[e.t := r.threads[e.t]]
            && r.actors == s.actors[b := r.actors[b]] && PcInv(r.threads[e.t], |s.actors|)
            && forall c: nat :: c != b ==> SameFor(s.threads[e.t], r.threads[e.t], c)
  {
    hide Count;
    var th := s.threads[e.t];
    if e.Acquire? {
      CountMore(th.contexts, Context(b, th.pc.mode, th.pc.shared));
    } else if e.Unlock? {
      CountsLess(th.contexts, e.ctx);
    }
  }

  lemma CountShape(s: State, e: Event)
    requires Enabled(s, e) && Leads(e) && About(s, e) >= |s.actors|
    ensures s.threads[e.t].pc.CountingUp? || s.threads[e.t].pc.CountingDown?
    ensures Apply(s, e).threads == s.threads[e.t := s.threads[e.t].(pc := Idle)] && Apply(s, e).actors == s.actors
  {
  }

  lemma SoundAt(s: State, t: nat, b: nat)
    requires Sound(s) && t < |s.threads|
    ensures ThreadInv(s.threads[t], |s.actors|)
    ensures b < |s.actors| ==> Counts(s.actors[b], b, s.threads)
  {
  }

  lemma SoundSame(r: State, q: State)
    requires Sound(q) && r.threads == q.threads && r.actors == q.actors
    ensures Sound(r)
  {
  }

  lemma SoundCount(s: State, t: nat, th: Thread)
    requires Sound(s) && t < |s.threads| && (s.threads[t].pc.CountingUp? || s.threads[t].pc.CountingDown?)
    requires th == s.threads[t].(pc := Idle)
    ensures Sound(Moved(s, t, th))
  {
    hide Counts;
    forall b | 0 <= b < |s.actors| ensures Counts(s.actors[b], b, s.threads[t := th]) {
      CountsKept(s.actors[b], b, s.threads, t, th);
    }
    assert ThreadInv(s.threads[t], |s.actors|);
  }

  lemma CountsStep(s: State, e: Event, b: nat)
    requires Sound(s) && Enabled(s, e) && Leads(e) && b == About(s, e) < |s.actors|
    ensures Counts(Apply(s, e).actors[b], b, Apply(s, e).threads)
  {
    hide Sum, Sound, Apply, Counts;
    match e
    case Acquire(t) => CountsAcquire(s, t, b);
    case Unlock(t, i) => CountsUnlock(s, t, b, i);
    case LeaveEnd(t) => CountsLeave(s, e, b);
    case EnterFail(t) => CountsLeave(s, e, b);
    case _ => CountsRest(s, e, b);
  }

  lemma CountsAcquire(s: State, t: nat, b: nat)
    requires Sound(s) && Enabled(s, Acquire(t)) && b == About(s, Acquire(t)) < |s.actors|
    ensures Counts(Apply(s, Acquire(t)).actors[b], b, Apply(s, Acquire(t)).threads)
  {
    hide Sum, Sound, Count;
    SoundAt(s, t, b);
    CountMore(s.threads[t].contexts, Context(b, s.threads[t].pc.mode, s.threads[t].pc.shared));
    Sums(s.threads, t, Apply(s, Acquire(t)).threads[t], b);
  }

  lemma CountsUnlock(s: State, t: nat, b: nat, i: nat)
    requires Sound(s) && Enabled(s, Unlock(t, i)) && b == About(s, Unlock(t, i)) < |s.actors|
    ensures Counts(Apply(s, Unlock(t, i)).actors[b], b, Apply(s, Unlock(t, i)).threads)
  {
    hide Sum, Sound, Count;
    SoundAt(s, t, b);
    CountsLess(s.threads[t].contexts, i);
    Sums(s.threads, t, Apply(s, Unlock(t, i)).threads[t], b);
  }

  lemma CountsLeave(s: State, e: Event, b: nat)
    requires Sound(s) && Enabled(s, e) && (e.LeaveEnd? || e.EnterFail?) && b == About(s, e) < |s.actors|
    ensures Counts(Apply(s, e).actors[b], b, Apply(s, e).threads)
  {
    hide Sum, Sound;
    SoundAt(s, e.t, b);
    Sums(s.threads, e.t, Apply(s, e).threads[e.t], b);
  }

  lemma CountsRest(s: State, e: Event, b: nat)
    requires Sound(s) && Enabled(s, e) && b == About(s, e) < |s.actors|
    requires e.LoadRefcount? || e.LoadActive? || e.Destroy? || e.Restore?
    ensures Counts(Apply(s, e).actors[b], b, Apply(s, e).threads)
  {
    hide Sum, Sound;
    SoundAt(s, e.t, b);
    Sums(s.threads, e.t, Apply(s, e).threads[e.t], b);
  }

  // ---- How the contexts of an actor without handles are left -------------------------------

  /** Nobody holds a handle of actor `a`; thread `x` is past the check for handles, and the contexts of `a` do
      not wait for it. */
  ghost predicate Draining(s: State, a: nat, x: nat) {
    && Sound(s) && a < |s.actors| && x < |s.threads|
    && s.actors[a].refcount == 0 && s.actors[a].destroyed == 0
    && s.threads[x].pc == CheckingContexts(a) && InsideOf(s.threads[x], a) == 0
    && (forall u :: 0 <= u < |s.threads| ==> s.threads[u].pc != Destroying(a))
    && !Held(s.threads, a, x)
  }

  /** The thread has a step left of its call or of leaving a context, and no other keeps it from it. */
  predicate Mobile(ts: seq<Thread>, v: nat)
    requires v < |ts|
  {
    && !(ts[v].pc.Idle? && ts[v].contexts == [])
    && Unhindered(ts, v)
  }

  /** Where none but thread `x` can go on, the contexts wait for it. */
  lemma AllStuck(ts: seq<Thread>, a: nat, x: nat, i: nat)
    requires x < |ts| && i < |ts| && InsideOf(ts[x], a) == 0 && InsideOf(ts[i], a) > 0
    requires forall u :: 0 <= u < |ts| && u != x ==> !Mobile(ts, u)
    ensures Held(ts, a, x)
  {
    var K: set<nat> := set u: nat | u < |ts| && u != x && ts[u].pc.Waiting?;
    forall u: nat | u in K ensures Stuck(ts, ts[u].pc, x, K) {
      assert !Mobile(ts, u);
      var v :| 0 <= v < |ts| && InTheWay(ts[v], ts[u].pc);
      assert v != x ==> !Mobile(ts, v) && !Unhindered(ts, v);
    }
    assert !Mobile(ts, i) && !Unhindered(ts, i);
    assert Jam(ts, a, x, K);
  }

  /** As the contexts do not wait for thread `x`, another thread can go on. */
  lemma SomeoneMobile(s: State, a: nat, x: nat) returns (v: nat)
    requires Draining(s, a, x) && s.actors[a].active > 0
    ensures v < |s.threads| && v != x && Mobile(s.threads, v)
  {
    hide Sum, Mobile, Sound, Held;
    if forall u :: 0 <= u < |s.threads| && u != x ==> !Mobile(s.threads, u) {
      var i := SomeoneInside(s, a);
      AllStuck(s.threads, a, x, i);
      assert false;
    } else {
      v :| 0 <= v < |s.threads| && v != x && Mobile(s.threads, v);
    }
  }

  lemma SomeoneInside(s: State, a: nat) returns (u: nat)
    requires Sound(s) && a < |s.actors| && s.actors[a].active > 0
    ensures u < |s.threads| && InsideOf(s.threads[u], a) > 0
  {
    hide Sum, InsideOf;
    assert Counts(s.actors[a], a, s.threads);
    SumZero(s.threads, Inside(a));
    u :| 0 <= u < |s.threads| && Of(s.threads[u], Inside(a)) != 0;
  }

  /** What such a thread does next. */
  lemma WayOut(s: State, v: nat) returns (e: Event)
    requires Sound(s) && v < |s.threads| && Mobile(s.threads, v)
    ensures e.t == v && Leads(e) && Enabled(s, e)
  {
    hide Sum;
    var th := s.threads[v];
    assert ThreadInv(th, |s.actors|);
    match th.pc
    case Idle =>
      var i := |th.contexts| - 1;
      assert InsideOf(th, th.contexts[i].actor) > 0;
      e := Unlock(v, i);
    case CountingUp => e := CountUp(v);
    case CheckingHandles(_) => e := LoadRefcount(v);
    case CheckingContexts(_) => e := LoadActive(v);
    case Destroying(_) => e := Destroy(v);
    case CountingDown => e := CountDown(v);
    case Entering(_, _) => e := EnterFail(v);
    case Waiting(b, _, _) =>
      assert Counts(s.actors[b], b, s.threads);
      SumZero(s.threads, Writing(b));
      SumZero(s.threads, Reading(b));
      assert forall u :: 0 <= u < |s.threads| ==> !InTheWay(s.threads[u], th.pc);
      e := Acquire(v);
    case Leaving(_) => e := LeaveEnd(v);
    case Restoring(_) => e := Restore(v);
  }

  /** A step of another thread brings the end nearer. */
  lemma LeadsOn(s: State, a: nat, x: nat, e: Event)
    requires Draining(s, a, x) && s.actors[a].active > 0 && Enabled(s, e) && Leads(e) && e.t != x
    ensures Sum(Apply(s, e).threads, Weight) < Sum(s.threads, Weight)
    ensures var r := Apply(s, e);
            if s.threads[e.t].pc == Leaving(a) && s.actors[a].active == 1
            then r.threads[e.t].pc == CheckingHandles(a) && r.actors[a] == s.actors[a].(active := 0)
            else Draining(r, a, x) && r.actors[a].active > 0
  {
    hide Sum, Held, Sound, Apply, Enabled, Of, InsideOf, Leads;
    var r := Apply(s, e);
    OtherThreads(s, e, x);
    SoundStep(s, e);
    NoHandles(s, e.t, a);
    OneStep(s, a, e);
    Lighter(s, e);
    SumUpdate(s.threads, e.t, r.threads[e.t], Weight);
    if Held(r.threads, a, x) {
      HeldKept(r.threads, s.threads, a, x, e.t);
    }
  }

  /** What such a step does to an actor that nobody has a handle of, or is about to destroy. */
  lemma OneStep(s: State, a: nat, e: Event)
    requires Sound(s) && a < |s.actors| && Enabled(s, e) && Leads(e)
    requires s.actors[a].refcount == 0 && s.actors[a].active > 0
    requires s.threads[e.t].pc != Destroying(a) && s.threads[e.t].handles[a] == 0
    ensures var r := Apply(s, e);
            && |r.actors| == |s.actors| && e.t < |r.threads| && r.threads == s.threads[e.t := r.threads[e.t]]
            && !r.threads[e.t].pc.Waiting? && r.threads[e.t].pc != Destroying(a) && Unhindered(r.threads, e.t)
            && if s.threads[e.t].pc == Leaving(a) && s.actors[a].active == 1
               then r.threads[e.t].pc == CheckingHandles(a) && r.actors[a] == s.actors[a].(active := 0)
               else r.actors[a].active > 0 && r.actors[a].refcount == 0 && r.actors[a].destroyed == s.actors[a].destroyed
  {
    hide Sum, Sound;
    SoundAt(s, e.t, a);
  }

  lemma Lighter(s: State, e: Event)
    requires Enabled(s, e) && Leads(e)
    ensures Of(Apply(s, e).threads[e.t], Weight) < Of(s.threads[e.t], Weight)
  {
  }

  /** An actor without handles is not being entered. */
  lemma NoHandles(s: State, t: nat, a: nat)
    requires Sound(s) && t < |s.threads| && a < |s.actors| && s.actors[a].refcount == 0
    ensures s.threads[t].handles[a] == 0
  {
    hide Sum;
    SoundAt(s, t, a);
    Sums(s.threads, t, s.threads[t], a);
  }

  /** The contexts are left, one after the other; whoever leaves last checks for handles. */
  lemma {:induction false} Drain(s: State, a: nat, x: nat) returns (es: seq<Event>, r: State, w: nat)
    requires Draining(s, a, x) && s.actors[a].active > 0
    ensures Runs(s, es, r) && a < |r.actors| && x < |r.threads| && w < |r.threads| && w != x
    ensures r.threads[x].pc == CheckingContexts(a) && r.threads[w].pc == CheckingHandles(a)
    ensures r.actors[a].refcount == 0 && r.actors[a].active == 0 && r.actors[a].destroyed == 0
    decreases Sum(s.threads, Weight)
  {
    hide Sum, InsideOf, Enabled, Obeys, Runs, Held, Sound, Mobile, Apply;
    var u := SomeoneMobile(s, a, x);
    var e := WayOut(s, u);
    LeadsOn(s, a, x, e);
    var n := Apply(s, e);
    OtherThreads(s, e, x);
    OneRun(s, e);
    if s.threads[u].pc == Leaving(a) && s.actors[a].active == 1 {
      es, r, w := [e], n, u;
    } else {
      es, r, w := Drain(n, a, x);
      RunsCons(s, e, es, r);
      es := [e] + es;
    }
  }

  lemma OtherThreads(s: State, e: Event, x: nat)
    requires Enabled(s, e) && Leads(e)
    ensures e.t < |s.threads| && Obeys(s, e) && |Apply(s, e).threads| == |s.threads| && |Apply(s, e).actors| == |s.actors|
    ensures x < |s.threads| && x != e.t ==> Apply(s, e).threads[x] == s.threads[x]
  {
  }

  /** Two threads on their way to destroy an actor without handles and contexts both get there. */
  lemma TwoTails(s: State, a: nat, x: nat, w: nat) returns (es: seq<Event>, r: State)
    requires a < |s.actors| && x < |s.threads| && w < |s.threads| && x != w
    requires s.threads[x].pc == CheckingContexts(a) && s.threads[w].pc == CheckingHandles(a)
    requires s.actors[a].refcount == 0 && s.actors[a].active == 0 && s.actors[a].destroyed == 0
    ensures Runs(s, es, r) && a < |r.actors| && r.actors[a].destroyed == 2
  {
    var s1 := Apply(s, LoadRefcount(w));
    var s2 := Apply(s1, LoadActive(x));
    var s3 := Apply(s2, LoadActive(w));
    var s4 := Apply(s3, Destroy(x));
    r := Apply(s4, Destroy(w));
    hide Runs;
    OneRun(s4, Destroy(w));
    RunsCons(s3, Destroy(x), [Destroy(w)], r);
    es := [Destroy(x)] + [Destroy(w)];
    RunsCons(s2, LoadActive(w), es, r);
    es := [LoadActive(w)] + es;
    RunsCons(s1, LoadActive(x), es, r);
    es := [LoadActive(x)] + es;
    RunsCons(s, LoadRefcount(w), es, r);
    es := [LoadRefcount(w)] + es;
  }

  /** What is known before the last handle is given up. */
  lemma BeforeLast(s: State, t: nat, a: nat, u: nat)
    requires Inv(s) && Enabled(s, Release(t, a)) && s.actors[a].refcount == 1 && u < |s.threads|
    ensures s.actors[a].destroyed == 0 && !IsPast(s.threads[u], a) && s.threads[u].pc != Destroying(a)
  {
    hide Sum;
    assert ActorInv(s.actors[a], a, s.threads);
    SumZero(s.threads, Past(a));
    assert Of(s.threads[u], Past(a)) == 0;
  }

  lemma LastHandle(s: State, t: nat, a: nat)
    requires Inv(s) && Enabled(s, Release(t, a)) && s.threads[t].handles[a] > 0 && !Harmless(s, t, a)
    ensures s.actors[a].refcount == 1
  {
    hide Sum;
    Sums(s.threads, t, s.threads[t], a);
    assert ActorInv(s.actors[a], a, s.threads);
  }

  /** Giving up the last handle where that does harm: the steps by which the actor is then destroyed twice,
      every one of them keeping the callers' promises. */
  lemma ReleaseDestroysTwice(s: State, t: nat, a: nat) returns (es: seq<Event>, r: State)
    requires Inv(s) && Enabled(s, Release(t, a)) && s.threads[t].handles[a] > 0 && !Harmless(s, t, a)
    ensures Runs(Apply(s, Release(t, a)), es, r) && a < |r.actors| && r.actors[a].destroyed == 2
  {
    hide Sum, Runs, Inv, Held;
    LastHandle(s, t, a);
    BeforeLast(s, t, a, t);
    var s1 := Apply(s, Release(t, a));
    if s.actors[a].active == 0 {
      var u :| 0 <= u < |s.threads| && u != t && InTail(s.threads[u], a);
      BeforeLast(s, t, a, u);
      var s2 := Apply(s1, LoadRefcount(t));
      es, r := TwoTails(s2, a, t, u);
      RunsCons(s1, LoadRefcount(t), es, r);
      es := [LoadRefcount(t)] + es;
    } else {
      var x :| 0 <= x < |s.threads| && Heading(s, t, a, x) && !Held(s.threads, a, x);
      StartsDraining(s, t, a, x);
      var s2 := Apply(s1, LoadRefcount(x));
      var ds, d, w := Drain(s2, a, x);
      var fs;
      fs, r := TwoTails(d, a, x, w);
      RunsJoin(s2, ds, d, fs, r);
      RunsCons(s1, LoadRefcount(x), ds + fs, r);
      es := [LoadRefcount(x)] + (ds + fs);
    }
  }

  lemma StartsDraining(s: State, t: nat, a: nat, x: nat)
    requires Inv(s) && Enabled(s, Release(t, a)) && s.threads[t].handles[a] > 0 && s.actors[a].refcount == 1
    requires x < |s.threads| && Heading(s, t, a, x) && !Held(s.threads, a, x)
    ensures var s1 := Apply(s, Release(t, a));
            && Enabled(s1, LoadRefcount(x)) && Draining(Apply(s1, LoadRefcount(x)), a, x)
            && Apply(s1, LoadRefcount(x)).actors[a].active == s.actors[a].active
  {
    hide Sum, Inv, Held, Sound;
    BeforeLast(s, t, a, x);
    var s1 := Apply(s, Release(t, a));
    SoundRelease(s, t, a);
    var s2 := Apply(s1, LoadRefcount(x));
    SoundStep(s1, LoadRefcount(x));
    if Held(s2.threads, a, x) {
      HeldKept(s2.threads, s1.threads, a, x, x);
      HeldKept(s1.threads, s.threads, a, x, t);
    }
    forall u | 0 <= u < |s2.threads| ensures s2.threads[u].pc != Destroying(a) {
      BeforeLast(s, t, a, u);
    }
  }

  lemma SoundRelease(s: State, t: nat, a: nat)
    requires Inv(s) && Enabled(s, Release(t, a)) && s.threads[t].handles[a] > 0 && s.actors[a].refcount == 1
    ensures Sound(Apply(s, Release(t, a)))
  {
    hide Sum;
    var r := Apply(s, Release(t, a));
    Sums(s.threads, t, r.threads[t], a);
    assert ActorInv(s.actors[a], a, s.threads) && ThreadInv(s.threads[t], |s.actors|);
    SoundLocal(s, t, r.threads[t], a, r.actors[a]);
  }

  /** So, after every run: giving up a handle does no harm, by the condition above, if and only if no
      continuation destroys the actor twice. */
  lemma HarmlessExactly(hosted: bool, threads: nat, before: seq<Event>, s: State, t: nat, a: nat)
    requires Runs(Start(hosted, threads), before, s)
    requires Enabled(s, Release(t, a)) && s.threads[t].handles[a] > 0
    ensures Harmless(s, t, a) <==>
              forall es: seq<Event>, r: State ::
                Runs(Apply(s, Release(t, a)), es, r) && a < |r.actors| ==> r.actors[a].destroyed <= 1
  {
    hide Harmless, Apply, Runs, ActorInv;
    StartInv(hosted, threads);
    RunsKeep(Start(hosted, threads), before, s);
    var s1 := Apply(s, Release(t, a));
    if Harmless(s, t, a) {
      Keeps(s, Release(t, a));
      forall es: seq<Event>, r: State | Runs(s1, es, r) && a < |r.actors|
        ensures r.actors[a].destroyed <= 1
      {
        RunsKeep(s1, es, r);
        OnceOnly(r, a);
      }
    } else {
      var es, r := ReleaseDestroysTwice(s, t, a);
    }
  }

  lemma OnceOnly(s: State, a: nat)
    requires Inv(s) && a < |s.actors|
    ensures s.actors[a].destroyed <= 1
  {
    assert ActorInv(s.actors[a], a, s.threads);
  }

  /** As long as no context of the actor waits for another lock, the condition is a plain one: a last handle is
      given up safely while no other thread is at the end of leaving the actor and no context of it is open,
      unless the thread has one itself. */
  lemma HarmlessPlainly(s: State, t: nat, a: nat)
    requires t < |s.threads| && a < |s.actors|
    requires forall u :: 0 <= u < |s.threads| && InsideOf(s.threads[u], a) > 0 ==> !s.threads[u].pc.Waiting?
    ensures Harmless(s, t, a) <==>
              || s.actors[a].refcount > 1
              || ((s.actors[a].active == 0 || InsideOf(s.threads[t], a) > 0) &&
                  forall u :: 0 <= u < |s.threads| && u != t ==> !InTail(s.threads[u], a))
  {
    forall u: nat ensures !Held(s.threads, a, u) {
      if Held(s.threads, a, u) {
        var K: set<nat> :| Jam(s.threads, a, u, K);
        var v :| v in K && v < |s.threads| && InsideOf(s.threads[v], a) > 0;
        NeverStuck(s.threads, v, u, K);
      }
    }
    assert Heading(s, t, a, t) <==> InsideOf(s.threads[t], a) == 0;
    assert forall u :: 0 <= u < |s.threads| && u != t ==> (Heading(s, t, a, u) <==> InTail(s.threads[u], a));
  }

  lemma NeverStuck(ts: seq<Thread>, v: nat, u: nat, K: set<nat>)
    requires v < |ts| && !ts[v].pc.Waiting?
    ensures !Stuck(ts, ts[v].pc, u, K)
  {
  }

  // ---- Such a state is reached -------------------------------------------------------------

  /** Two threads and an actor: thread 0 in a context, the only handle with thread 1. */
  function HandedOver(hosted: bool): State {
    State(hosted, [Thread(Idle, multiset{}, [Context(0, 0, false)]), Thread(Idle, multiset{0}, [])],
          [Actor(1, 1, 0, true, 0)], 1)
  }

  function Owning(pc: Pc, writing: bool): Thread {
    Thread(pc, multiset{0}, if writing then [Context(0, 0, false)] else [])
  }

  function OneActor(hosted: bool, th: Thread, x: Actor, live: int): State { State(hosted, [th, Fresh()], [x], live) }

  ghost predicate Steps(s: State, e: Event, r: State) { Enabled(s, e) && Obeys(s, e) && Apply(s, e) == r }

  /** A thread makes an actor, enters it, and gives its handle away while inside. */
  lemma HandOver(hosted: bool) returns (es: seq<Event>)
    ensures Runs(Start(hosted, 2), es, HandedOver(hosted))
  {
    var s1 := OneActor(hosted, Owning(CountingUp, false), Actor(1, 0, 0, false, 0), 0);
    var s2 := OneActor(hosted, Owning(Idle, false), Actor(1, 0, 0, false, 0), 1);
    var s3 := OneActor(hosted, Owning(Entering(0, 0), false), Actor(1, 1, 0, false, 0), 1);
    var s4 := OneActor(hosted, Owning(Waiting(0, 0, false), false), Actor(1, 1, 0, false, 0), 1);
    var s5 := OneActor(hosted, Owning(Idle, true), Actor(1, 1, 0, true, 0), 1);
    HandOverSteps(hosted, s1, s2, s3, s4, s5);
    hide Runs, Start, Enabled, Obeys, Apply;
    OneRun(s5, Give(0, 0, 1));
    RunsCons(s4, Acquire(0), [Give(0, 0, 1)], HandedOver(hosted));
    es := [Acquire(0)] + [Give(0, 0, 1)];
    if hosted {
      RunsCons(s3, MakeContext(0), es, HandedOver(hosted));
      es := [MakeContext(0)] + es;
    }
    RunsCons(s2, EnterStart(0, 0, 0), es, HandedOver(hosted));
    es := [EnterStart(0, 0, 0)] + es;
    RunsCons(s1, CountUp(0), es, HandedOver(hosted));
    es := [CountUp(0)] + es;
    RunsCons(Start(hosted, 2), New(0), es, HandedOver(hosted));
    es := [New(0)] + es;
  }

  lemma HandOverSteps(hosted: bool, s1: State, s2: State, s3: State, s4: State, s5: State)
    requires s1 == OneActor(hosted, Owning(CountingUp, false), Actor(1, 0, 0, false, 0), 0)
    requires s2 == OneActor(hosted, Owning(Idle, false), Actor(1, 0, 0, false, 0), 1)
    requires s3 == OneActor(hosted, Owning(Entering(0, 0), false), Actor(1, 1, 0, false, 0), 1)
    requires s4 == OneActor(hosted, Owning(Waiting(0, 0, false), false), Actor(1, 1, 0, false, 0), 1)
    requires s5 == OneActor(hosted, Owning(Idle, true), Actor(1, 1, 0, true, 0), 1)
    ensures Steps(Start(hosted, 2), New(0), s1) && Steps(s1, CountUp(0), s2)
    ensures Steps(s2, EnterStart(0, 0, 0), if hosted then s3 else s4) && Steps(s3, MakeContext(0), s4)
    ensures Steps(s4, Acquire(0), s5) && Steps(s5, Give(0, 0, 1), HandedOver(hosted))
  {
    hide Harmless;
    EnterSteps(hosted, s2, s3, s4, s5);
    assert multiset{} + multiset{0} == multiset{0};
    assert Apply(s5, Give(0, 0, 1)).threads == HandedOver(hosted).threads by {
      assert multiset{0} - multiset{0} == multiset{};
    }
  }

  lemma EnterSteps(hosted: bool, s2: State, s3: State, s4: State, s5: State)
    requires s2 == OneActor(hosted, Owning(Idle, false), Actor(1, 0, 0, false, 0), 1)
    requires s3 == OneActor(hosted, Owning(Entering(0, 0), false), Actor(1, 1, 0, false, 0), 1)
    requires s4 == OneActor(hosted, Owning(Waiting(0, 0, false), false), Actor(1, 1, 0, false, 0), 1)
    requires s5 == OneActor(hosted, Owning(Idle, true), Actor(1, 1, 0, true, 0), 1)
    ensures Steps(s2, EnterStart(0, 0, 0), if hosted then s3 else s4)
    ensures Steps(s3, MakeContext(0), s4) && Steps(s4, Acquire(0), s5)
  {
    hide Harmless;
    assert [] + [Context(0, 0, false)] == [Context(0, 0, false)];
    assert multiset{} + multiset{0} == multiset{0};
  }

  /** The handle given up then, the actor is destroyed twice. */
  lemma DestroyedTwice(hosted: bool) returns (before: seq<Event>, es: seq<Event>, r: State)
    ensures Runs(Start(hosted, 2), before, HandedOver(hosted))
    ensures Enabled(HandedOver(hosted), Release(1, 0)) && HandedOver(hosted).threads[1].handles[0] > 0
    ensures Runs(Apply(HandedOver(hosted), Release(1, 0)), es, r) && 0 < |r.actors| && r.actors[0].destroyed == 2
  {
    before := HandOver(hosted);
    StartInv(hosted, 2);
    RunsKeep(Start(hosted, 2), before, HandedOver(hosted));
    HarmlessPlainly(HandedOver(hosted), 1, 0);
    es, r := ReleaseDestroysTwice(HandedOver(hosted), 1, 0);
  }
}
