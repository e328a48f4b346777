/** The address locks: one mutex over a table, one mutex per address, any number of threads. */
module AddrLock {
  import opened Wrappers
  import opened Types

  // ----- the table -----

  class Mutex {
    var locked: bool

    constructor ()
      ensures !locked
    {
      locked := false;
    }
  }

  /** Look an address up in a table of numbered mutexes, numbering a new one if there is none. */
  function Binding(locks: map<Address, nat>, made: nat, a: Address): (map<Address, nat>, nat) {
    if a in locks then (locks, made) else (locks[a := made], made + 1)
  }

  class AddrLocker {
    /** Filled lazily; the nil map is the empty one. */
    var locks: map<Address, Mutex>
    /** Every mutex made, and the table as the protocol below sees it: mutexes by their numbers. */
    ghost var made: seq<Mutex>
    ghost var numbers: map<Address, nat>

    constructor ()
      ensures locks == map[] && made == [] && numbers == map[] && Valid()
    {
      locks, made, numbers := map[], [], map[];
    }

    /** No two addresses share a mutex. */
    ghost predicate Valid()
      reads this
    {
      && (forall i, j | 0 <= i < j < |made| :: made[i] != made[j])
      && numbers.Keys == locks.Keys
      && (forall a | a in locks :: numbers[a] < |made| && made[numbers[a]] == locks[a])
      && forall a, b | a in locks && b in locks && locks[a] == locks[b] :: a == b
    }

    /** The mutex of an address: the one it has always had, or a new one of its own. */
    method Lock(address: Address) returns (m: Mutex)
      requires Valid()
      modifies this
      ensures Valid() && address in locks && m == locks[address]
      ensures address in old(locks) ==> locks == old(locks)
      ensures address !in old(locks) ==> locks == old(locks)[address := m] && fresh(m) && !m.locked
      ensures (numbers, |made|) == Binding(old(numbers), old(|made|), address)
    {
      if address !in locks {
        var mutex := new Mutex();
        numbers := numbers[address := |made|];
        made := made + [mutex];
        locks := locks[address := mutex];
      }
      m := locks[address];
    }
  }

  // ----- the protocol, step by step -----

  /** A call goes through the table twice: for the mutex to lock, and again for the mutex to unlock. */
  datatype Purpose = Acquire | Release

  datatype Pc =
    | Idle
    | Enter(address: Address, purpose: Purpose)
    | Inside(address: Address, purpose: Purpose)
    | Leave(address: Address, purpose: Purpose, mutex: nat)
    | Waiting(address: Address, mutex: nat)
    | Critical(address: Address)
    | Unlocking(address: Address, mutex: nat)
    | Unguarded(address: Address)

  /** `table` is the thread that holds the table's mutex; `held` the threads that hold the others. */
  datatype State = State(table: Option<nat>, locks: map<Address, nat>, made: nat, held: map<nat, nat>, threads: seq<Pc>)

  /** SendTransaction takes the lock only when it has to choose the nonce itself. */
  datatype Action = Spawn | Send(thread: nat, from: Address, nonceGiven: bool) | Advance(thread: nat)

  const INITIAL := State(None, map[], 0, map[], [])

  predicate Enabled(s: State, action: Action) {
    match action
    case Spawn => true
    case Send(t, _, _) => t < |s.threads| && s.threads[t].Idle?
    case Advance(t) =>
      && t < |s.threads|
      && match s.threads[t]
         case Idle => false
         case Enter(_, _) => s.table.None?
         case Waiting(_, m) => m !in s.held
         case _ => true
  }

  function Bound(s: State, a: Address): State {
    var (locks, made) := Binding(s.locks, s.made, a);
    s.(locks := locks, made := made)
  }

  function At(s: State, t: nat, pc: Pc): State
    requires t < |s.threads|
  {
    s.(threads := s.threads[t := pc])
  }

  function Step(s: State, action: Action): State
    requires Enabled(s, action)
  {
    match action
    case Spawn => s.(threads := s.threads + [Idle])
    case Send(t, a, nonceGiven) => At(s, t, if nonceGiven then Unguarded(a) else Enter(a, Acquire))
    case Advance(t) =>
      match s.threads[t]
      case Enter(a, p) => At(s, t, Inside(a, p)).(table := Some(t))
      case Inside(a, p) => var s' := Bound(s, a); At(s', t, Leave(a, p, s'.locks[a]))
      case Leave(a, Acquire, m) => At(s, t, Waiting(a, m)).(table := None)
      case Leave(a, Release, m) => At(s, t, Unlocking(a, m)).(table := None)
      case Waiting(a, m) => At(s, t, Critical(a)).(held := s.held[m := t])
      case Critical(a) => At(s, t, Enter(a, Release))
      case Unlocking(a, m) => At(s, t, Idle).(held := s.held - {m})
      case Unguarded(_) => At(s, t, Idle)
  }

  /** Where an interleaving leads; None if it asks a blocked thread to move. */
  function Run(actions: seq<Action>): Option<State> {
    if actions == [] then Some(INITIAL)
    else
      match Run(actions[..|actions| - 1])
      case None => None
      case Some(s) => if Enabled(s, actions[|actions| - 1]) then Some(Step(s, actions[|actions| - 1])) else None
  }

  // ----- invariant -----

  /** Between locking the address's mutex and unlocking it. */
  predicate Holding(pc: Pc) {
    pc.Critical? || pc.Unlocking? || ((pc.Enter? || pc.Inside? || pc.Leave?) && pc.purpose.Release?)
  }

  predicate InTable(pc: Pc) {
    pc.Inside? || pc.Leave?
  }

  /** The table's mutex is held exactly while one thread is inside. */
  ghost predicate TableInv(s: State) {
    && (s.table.Some? ==> s.table.value < |s.threads|)
    && forall t | 0 <= t < |s.threads| :: InTable(s.threads[t]) <==> s.table == Some(t)
  }

  /** The mutex a thread works with is the one bound to its address. */
  predicate Knows(locks: map<Address, nat>, pc: Pc) {
    pc.Leave? || pc.Waiting? || pc.Unlocking? ==> pc.address in locks && locks[pc.address] == pc.mutex
  }

  ghost predicate Injective(locks: map<Address, nat>, made: nat) {
    && (forall a | a in locks :: locks[a] < made)
    && (forall a, b | a in locks && b in locks && locks[a] == locks[b] :: a == b)
  }

  ghost predicate BindingInv(s: State) {
    && Injective(s.locks, s.made)
    && forall t | 0 <= t < |s.threads| :: Knows(s.locks, s.threads[t])
  }

  /** A thread between locking and unlocking is the recorded holder of its address's mutex. */
  predicate Owns(locks: map<Address, nat>, held: map<nat, nat>, t: nat, pc: Pc) {
    Holding(pc) ==> pc.address in locks && locks[pc.address] in held && held[locks[pc.address]] == t
  }

  predicate Holder(s: State, m: nat, t: nat) {
    && t < |s.threads| && Holding(s.threads[t])
    && s.threads[t].address in s.locks && s.locks[s.threads[t].address] == m
  }

  ghost predicate HeldInv(s: State) {
    && (forall t | 0 <= t < |s.threads| :: Owns(s.locks, s.held, t, s.threads[t]))
    && forall m | m in s.held :: Holder(s, m, s.held[m])
  }

  ghost predicate Inv(s: State) {
    TableInv(s) && BindingInv(s) && HeldInv(s)
  }

  lemma StepKeepsTable(s: State, action: Action)
    requires TableInv(s) && Enabled(s, action)
    ensures TableInv(Step(s, action))
  {
  }

  ghost predicate Extends(locks: map<Address, nat>, locks': map<Address, nat>) {
    forall a | a in locks :: a in locks' && locks'[a] == locks[a]
  }

  lemma BoundIs(s: State, a: Address)
    requires Injective(s.locks, s.made)
    ensures
      var s' := Bound(s, a);
      && Injective(s'.locks, s'.made) && Extends(s.locks, s'.locks) && a in s'.locks
      && s' == s.(locks := s'.locks, made := s'.made)
  {
  }

  /** Everything a step does to the threads: it appends an idle one, or moves one. */
  lemma StepIs(s: State, action: Action)
    requires BindingInv(s) && Enabled(s, action)
    ensures
      var s' := Step(s, action);
      && Injective(s'.locks, s'.made) && Extends(s.locks, s'.locks)
      && match action
         case Spawn => s' == s.(threads := s.threads + [Idle])
         case Send(t, _, _) =>
           s' == s.(threads := s'.threads) && s'.threads == s.threads[t := s'.threads[t]] && !Holding(s'.threads[t])
           && Knows(s'.locks, s'.threads[t])
         case Advance(t) =>
           s'.threads == s.threads[t := s'.threads[t]] && Knows(s'.locks, s'.threads[t]) && Moves(s, s', t)
  {
    if action.Advance? && s.threads[action.thread].Inside? {
      BoundIs(s, s.threads[action.thread].address);
    }
  }

  /** A thread locks its address's free mutex, or unlocks it, or leaves the mutexes alone. */
  predicate Moves(s: State, s': State, t: nat)
    requires t < |s.threads| && t < |s'.threads|
  {
    var pc, pc' := s.threads[t], s'.threads[t];
    if pc.Waiting? then pc.mutex !in s.held && s'.held == s.held[pc.mutex := t] && pc' == Critical(pc.address)
    else if pc.Unlocking? then s'.held == s.held - {pc.mutex} && pc'.Idle?
    else s'.held == s.held && Holding(pc) == Holding(pc') && (Holding(pc) ==> pc'.address == pc.address)
  }

  lemma StepKeepsBindings(s: State, action: Action)
    requires BindingInv(s) && Enabled(s, action)
    ensures BindingInv(Step(s, action)) && Extends(s.locks, Step(s, action).locks)
  {
    var s' := Step(s, action);
    StepIs(s, action);
    forall t | 0 <= t < |s'.threads| ensures Knows(s'.locks, s'.threads[t]) {
      if t < |s.threads| {
        assert Knows(s.locks, s.threads[t]);
      }
    }
  }

  /** Locking and unlocking, and every other move, keep threads and mutexes in step. */
  lemma MoveKeepsHeld(s: State, s': State, t: nat)
    requires HeldInv(s) && t < |s.threads| && Knows(s.locks, s.threads[t]) && Extends(s.locks, s'.locks)
    requires t < |s'.threads| && s'.threads == s.threads[t := s'.threads[t]] && Moves(s, s', t)
    ensures HeldInv(s')
  {
    forall u | 0 <= u < |s'.threads| ensures Owns(s'.locks, s'.held, u, s'.threads[u]) {
      assert Owns(s.locks, s.held, u, s.threads[u]);
      assert Owns(s.locks, s.held, t, s.threads[t]);
    }
    forall m | m in s'.held ensures Holder(s', m, s'.held[m]) {
      if m in s.held {
        assert Holder(s, m, s.held[m]);
      }
    }
  }

  lemma SpawnKeepsHeld(s: State)
    requires HeldInv(s)
    ensures HeldInv(s.(threads := s.threads + [Idle]))
  {
    var s' := s.(threads := s.threads + [Idle]);
    forall m | m in s'.held ensures Holder(s', m, s'.held[m]) {
      assert Holder(s, m, s.held[m]);
    }
    forall u | 0 <= u < |s'.threads| ensures Owns(s'.locks, s'.held, u, s'.threads[u]) {
      if u < |s.threads| {
        assert Owns(s.locks, s.held, u, s.threads[u]);
      }
    }
  }

  lemma StepKeepsInv(s: State, action: Action)
    requires Inv(s) && Enabled(s, action)
    ensures Inv(Step(s, action))
  {
    StepKeepsTable(s, action);
    StepKeepsBindings(s, action);
    StepIs(s, action);
    match action {
      case Spawn => SpawnKeepsHeld(s);
      case Send(t, _, _) => MoveKeepsHeld(s, Step(s, action), t);
      case Advance(t) => MoveKeepsHeld(s, Step(s, action), t);
    }
  }

  lemma {:induction false} EveryRunKeepsInv(actions: seq<Action>)
    ensures Run(actions).Some? ==> Inv(Run(actions).value)
  {
    if actions != [] && Run(actions).Some? {
      EveryRunKeepsInv(actions[..|actions| - 1]);
      StepKeepsInv(Run(actions[..|actions| - 1]).value, actions[|actions| - 1]);
    }
  }

  // ----- what the locks promise -----

  /** Between reading the nonce and submitting, one thread per address: with the mutex in between. */
  lemma CriticalSectionsNeverOverlap(actions: seq<Action>, t: nat, u: nat)
    requires Run(actions).Some?
    requires t < |Run(actions).value.threads| && u < |Run(actions).value.threads|
    requires Holding(Run(actions).value.threads[t]) && Holding(Run(actions).value.threads[u])
    ensures Run(actions).value.threads[t].address == Run(actions).value.threads[u].address <==> t == u
  {
    var s := Run(actions).value;
    EveryRunKeepsInv(actions);
    assert Owns(s.locks, s.held, t, s.threads[t]) && Owns(s.locks, s.held, u, s.threads[u]);
  }

  /** Unlocking a mutex that is not locked would crash the process; it is always locked, by this thread. */
  lemma UnlockIsSafe(actions: seq<Action>, t: nat)
    requires Run(actions).Some? && t < |Run(actions).value.threads|
    ensures
      var s := Run(actions).value;
      var pc := s.threads[t];
      pc.Unlocking? ==> pc.address in s.locks && s.locks[pc.address] == pc.mutex && pc.mutex in s.held && s.held[pc.mutex] == t
  {
    var s := Run(actions).value;
    EveryRunKeepsInv(actions);
    assert Owns(s.locks, s.held, t, s.threads[t]) && Knows(s.locks, s.threads[t]);
  }

  /** An address is bound to one mutex for good, and to one of its own. */
  lemma {:induction false} BindingsAreForever(actions: seq<Action>, more: seq<Action>)
    requires Run(actions + more).Some?
    ensures Run(actions).Some? && Extends(Run(actions).value.locks, Run(actions + more).value.locks)
    ensures forall a, b | a in Run(actions).value.locks && b in Run(actions).value.locks ::
              Run(actions).value.locks[a] == Run(actions).value.locks[b] ==> a == b
  {
    if more == [] {
      assert actions + more == actions;
    } else {
      var last := |more| - 1;
      assert (actions + more)[..|actions + more| - 1] == actions + more[..last];
      BindingsAreForever(actions, more[..last]);
      EveryRunKeepsInv(actions + more[..last]);
      StepKeepsBindings(Run(actions + more[..last]).value, more[last]);
    }
    EveryRunKeepsInv(actions);
  }

  // ----- nobody is stuck -----

  predicate Quiet(s: State) {
    forall t | 0 <= t < |s.threads| :: s.threads[t].Idle?
  }

  predicate CanMove(s: State, t: nat) {
    Enabled(s, Advance(t))
  }

  /** A thread that waits for an address's mutex does not hold the table's, so its holder can go on. */
  lemma SomeoneCanMove(s: State, busy: nat) returns (t: nat)
    requires Inv(s) && busy < |s.threads| && !s.threads[busy].Idle?
    ensures CanMove(s, t)
  {
    if s.table.Some? {
      t := s.table.value;
      assert InTable(s.threads[t]);
    } else if CanMove(s, busy) {
      t := busy;
    } else {
      assert s.threads[busy].Waiting?;
      t := s.held[s.threads[busy].mutex];
      assert Holder(s, s.threads[busy].mutex, t);
      assert !InTable(s.threads[t]);
    }
  }

  /** The moves a thread has left before its call is over. */
  function Left(pc: Pc): nat {
    match pc
    case Idle => 0
    case Enter(_, p) => if p.Acquire? then 9 else 4
    case Inside(_, p) => if p.Acquire? then 8 else 3
    case Leave(_, p, _) => if p.Acquire? then 7 else 2
    case Waiting(_, _) => 6
    case Critical(_) => 5
    case Unlocking(_, _) => 1
    case Unguarded(_) => 1
  }

  function TotalLeft(threads: seq<Pc>): nat {
    if threads == [] then 0 else TotalLeft(threads[..|threads| - 1]) + Left(threads[|threads| - 1])
  }

  lemma {:induction false} TotalAfter(threads: seq<Pc>, t: nat, pc: Pc)
    requires t < |threads|
    ensures TotalLeft(threads[t := pc]) + Left(threads[t]) == TotalLeft(threads) + Left(pc)
  {
    var n := |threads| - 1;
    if t == n {
      assert threads[t := pc][..n] == threads[..n];
    } else {
      assert threads[t := pc][..n] == threads[..n][t := pc];
      TotalAfter(threads[..n], t, pc);
    }
  }

  lemma {:induction false} NothingLeftMeansQuiet(threads: seq<Pc>)
    ensures TotalLeft(threads) == 0 <==> forall t | 0 <= t < |threads| :: threads[t].Idle?
  {
    if threads != [] {
      var n := |threads| - 1;
      NothingLeftMeansQuiet(threads[..n]);
      assert TotalLeft(threads) == 0 <==> TotalLeft(threads[..n]) == 0 && threads[n].Idle?;
      if TotalLeft(threads) == 0 {
        forall t | 0 <= t < |threads| ensures threads[t].Idle? {
          assert t < n ==> threads[..n][t].Idle?;
        }
      }
    }
  }

  lemma MoveLowersTotal(s: State, t: nat)
    requires CanMove(s, t)
    ensures TotalLeft(Step(s, Advance(t)).threads) + 1 == TotalLeft(s.threads)
  {
    var pc' := Step(s, Advance(t)).threads[t];
    TotalAfter(s.threads, t, pc');
    assert Step(s, Advance(t)).threads == s.threads[t := pc'];
  }

  /**
   No deadlock, and no schedule can go on for ever: from any reachable state, once no new call begins,
   every schedule makes exactly the moves that are left, is never blocked before then, and ends with
   every call over and every mutex free.
   */
  lemma {:induction false} EveryScheduleFinishes(actions: seq<Action>, moves: seq<Action>)
    requires Run(actions + moves).Some? && forall m | m in moves :: m.Advance?
    ensures Run(actions).Some?
    ensures |moves| + TotalLeft(Run(actions + moves).value.threads) == TotalLeft(Run(actions).value.threads)
    ensures
      var s := Run(actions + moves).value;
      if |moves| == TotalLeft(Run(actions).value.threads) then Quiet(s) && s.table.None? && s.held == map[]
      else exists t: nat :: CanMove(s, t)
  {
    var s := Run(actions + moves).value;
    if moves == [] {
      assert actions + moves == actions;
    } else {
      var last := |moves| - 1;
      assert (actions + moves)[..|actions + moves| - 1] == actions + moves[..last];
      EveryScheduleFinishes(actions, moves[..last]);
      assert moves[last] in moves;
      MoveLowersTotal(Run(actions + moves[..last]).value, moves[last].thread);
    }
    EveryRunKeepsInv(actions + moves);
    NothingLeftMeansQuiet(s.threads);
    QuietOrMoving(s);
  }

  lemma QuietOrMoving(s: State)
    requires Inv(s)
    ensures Quiet(s) ==> s.table.None? && s.held == map[]
    ensures !Quiet(s) ==> exists t: nat :: CanMove(s, t)
  {
    if !Quiet(s) {
      var busy :| 0 <= busy < |s.threads| && !s.threads[busy].Idle?;
      var t := SomeoneCanMove(s, busy);
    }
  }
}
