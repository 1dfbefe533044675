/**
 Query embedding under concurrency: coroutines that look a key up in the process cache and
 the shared cache, queue behind one lock per key, compute, store and leave. What happens
 between two suspension points of a coroutine is one atomic action.
 */
module SingleFlight {
  import opened Text
  import opened EmbeddingCache

  datatype Outcome = Returned(embedding: Embedding) | Raised | Cancelled

  /** Where a coroutine stands; at every place others may run. */
  datatype Place =
    | Started
    | Reading
    | Taking
    | Waiting(lock: nat)
    | Entered(lock: nat)
    | ReadingInside(lock: nat)
    | Computing(lock: nat)
    | Storing(lock: nat, result: Embedding)
    | Leaving(lock: nat, outcome: Outcome)
    | Done(final: Outcome)

  datatype Caller = Caller(key: string, place: Place)

  /** What the coroutines share; `computations` counts the provider calls made for each key. */
  datatype Common = Common(
    flights: map<string, nat>,
    nextLock: nat,
    process: map<string, Embedding>,
    shared: map<string, Embedding>,
    computations: multiset<string>)

  datatype State = State(callers: map<nat, Caller>, common: Common)

  const IDLE := State(map[], Common(map[], 0, map[], map[], multiset{}))

  /** What a read of the shared cache comes back with. */
  datatype Reply = Hit | Miss | Broken

  datatype Action =
    | Check
    | Read(reply: Reply)
    | Take
    | Acquire
    | Recheck
    | ReadAgain(reply: Reply)
    | Computed(ok: bool)
    | Stored(ok: bool)
    | Leave
    | Cancel

  datatype Move =
    | Call(i: nat, key: string)
    | Act(i: nat, action: Action)
    | Evict(key: string)
    | Expire(key: string)
    | WrittenElsewhere(key: string)

  // ---------- actions ----------

  const NO_LOCK: int := -1

  /** The lock a coroutine took from the flights and has not done with, held or not. */
  function Used(p: Place): (lock: int)
    ensures lock >= NO_LOCK
  {
    match p
    case Waiting(l) => l
    case Entered(l) => l
    case ReadingInside(l) => l
    case Computing(l) => l
    case Storing(l, _) => l
    case Leaving(l, _) => l
    case _ => NO_LOCK
  }

  function Held(p: Place): (lock: int)
    ensures lock == NO_LOCK || lock == Used(p)
  {
    if p.Waiting? || p.Leaving? then NO_LOCK else Used(p)
  }

  predicate ReplyPossible(c: Common, key: string, reply: Reply) {
    reply.Hit? ==> key in c.shared
  }

  predicate Ready(c: Common, caller: Caller, action: Action) {
    match action
    case Check => caller.place.Started?
    case Read(reply) => caller.place.Reading? && ReplyPossible(c, caller.key, reply)
    case Take => caller.place.Taking?
    case Acquire => caller.place.Waiting?
    case Recheck => caller.place.Entered?
    case ReadAgain(reply) => caller.place.ReadingInside? && ReplyPossible(c, caller.key, reply)
    case Computed(_) => caller.place.Computing?
    case Stored(_) => caller.place.Storing?
    case Leave => caller.place.Leaving?
    case Cancel => Suspends(caller.place)
  }

  /**
   A coroutine is cancelled where it waits: for a cache, its lock or the provider. The guard of the
   flights is never held at such a place, so taking a flight and leaving it cannot be interrupted.
   */
  predicate Suspends(p: Place) {
    p.Reading? || p.Waiting? || p.ReadingInside? || p.Computing? || p.Storing?
  }

  datatype Effect = Effect(common: Common, place: Place)

  function Remember(c: Common, key: string, embedding: Embedding): Common {
    c.(process := c.process[key := embedding])
  }

  /** An action of a caller; `embed` is what the provider computes for a key's query. */
  function Perform(c: Common, caller: Caller, embed: string -> Embedding, action: Action): Effect
    requires Ready(c, caller, action)
  {
    var Caller(key, place) := caller;
    match action
    case Check =>
      if key in c.process then Effect(c, Done(Returned(c.process[key]))) else Effect(c, Reading)
    case Read(Hit) => Effect(Remember(c, key, c.shared[key]), Done(Returned(c.shared[key])))
    case Read(Miss) => Effect(c, Taking)
    case Read(Broken) => Effect(c, Done(Raised))
    case Take =>
      if key in c.flights then Effect(c, Waiting(c.flights[key]))
      else Effect(c.(flights := c.flights[key := c.nextLock], nextLock := c.nextLock + 1), Waiting(c.nextLock))
    case Acquire => Effect(c, Entered(place.lock))
    case Recheck =>
      if key in c.process then Effect(c, Leaving(place.lock, Returned(c.process[key])))
      else Effect(c, ReadingInside(place.lock))
    case ReadAgain(Hit) => Effect(Remember(c, key, c.shared[key]), Leaving(place.lock, Returned(c.shared[key])))
    case ReadAgain(Miss) => Effect(c.(computations := c.computations + multiset{key}), Computing(place.lock))
    case ReadAgain(Broken) => Effect(c, Leaving(place.lock, Raised))
    case Computed(ok) =>
      if ok then Effect(Remember(c, key, embed(key)), Storing(place.lock, embed(key)))
      else Effect(c, Leaving(place.lock, Raised))
    case Stored(ok) =>
      if ok then Effect(c.(shared := c.shared[key := place.result]), Leaving(place.lock, Returned(place.result)))
      else Effect(c, Leaving(place.lock, Raised))
    case Leave =>
      var gone := if key in c.flights && c.flights[key] == place.lock then c.flights - {key} else c.flights;
      Effect(c.(flights := gone), Done(place.outcome))
    case Cancel =>
      if Used(place) == NO_LOCK then Effect(c, Done(Cancelled))
      else Effect(c, Leaving(place.lock, Cancelled))
  }

  // ---------- moves ----------

  ghost predicate Enabled(s: State, m: Move) {
    match m
    case Call(i, _) => i !in s.callers
    case Act(i, action) =>
      && i in s.callers && Ready(s.common, s.callers[i], action)
      && (action.Acquire? ==> NobodyHolds(s, s.callers[i].place.lock))
    case _ => true
  }

  ghost predicate NobodyHolds(s: State, lock: int) {
    forall j :: j in s.callers ==> Held(s.callers[j].place) != lock
  }

  function Apply(s: State, embed: string -> Embedding, m: Move): State
    requires Enabled(s, m)
  {
    match m
    case Call(i, key) => s.(callers := s.callers[i := Caller(key, Started)])
    case Act(i, action) =>
      var effect := Perform(s.common, s.callers[i], embed, action);
      State(s.callers[i := s.callers[i].(place := effect.place)], effect.common)
    case Evict(key) => s.(common := s.common.(process := s.common.process - {key}))
    case Expire(key) => s.(common := s.common.(shared := s.common.shared - {key}))
    case WrittenElsewhere(key) => s.(common := s.common.(shared := s.common.shared[key := embed(key)]))
  }

  ghost predicate IsRun(embed: string -> Embedding, states: seq<State>, moves: seq<Move>) {
    && |states| == |moves| + 1 && states[0] == IDLE
    && forall i :: 0 <= i < |moves| ==>
         Enabled(states[i], moves[i]) && states[i + 1] == Apply(states[i], embed, moves[i])
  }

  // ---------- every embedding handed out is the right one ----------

  predicate OutcomeRight(embed: string -> Embedding, key: string, o: Outcome) {
    o.Returned? ==> o.embedding == embed(key)
  }

  predicate CallerRight(embed: string -> Embedding, c: Caller) {
    match c.place
    case Storing(_, e) => e == embed(c.key)
    case Leaving(_, o) => OutcomeRight(embed, c.key, o)
    case Done(o) => OutcomeRight(embed, c.key, o)
    case _ => true
  }

  ghost predicate CachesRight(c: Common, embed: string -> Embedding) {
    && (forall key :: key in c.process ==> c.process[key] == embed(key))
    && forall key :: key in c.shared ==> c.shared[key] == embed(key)
  }

  ghost predicate AllRight(s: State, embed: string -> Embedding) {
    CachesRight(s.common, embed) && forall i :: i in s.callers ==> CallerRight(embed, s.callers[i])
  }

  lemma {:induction false} ActionKeepsRight(c: Common, caller: Caller, embed: string -> Embedding, action: Action)
    requires Ready(c, caller, action) && CachesRight(c, embed) && CallerRight(embed, caller)
    ensures var effect := Perform(c, caller, embed, action);
            CachesRight(effect.common, embed) && CallerRight(embed, caller.(place := effect.place))
  {
  }

  lemma {:induction false} AllRightKept(s: State, embed: string -> Embedding, m: Move)
    requires AllRight(s, embed) && Enabled(s, m)
    ensures AllRight(Apply(s, embed, m), embed)
  {
    if m.Act? {
      ActionKeepsRight(s.common, s.callers[m.i], embed, m.action);
    }
  }

  // ---------- locks ----------

  predicate Apart(p: Place, q: Place) {
    Held(p) == NO_LOCK || Held(p) != Held(q)
  }

  ghost predicate FlightsKnown(c: Common) {
    forall key :: key in c.flights ==> c.flights[key] < c.nextLock
  }

  /** Locks in use are known ones, and no two coroutines hold one. */
  ghost predicate LocksRight(s: State) {
    && FlightsKnown(s.common)
    && (forall i :: i in s.callers ==> Used(s.callers[i].place) < s.common.nextLock)
    && forall i, j :: i in s.callers && j in s.callers && i != j ==> Apart(s.callers[i].place, s.callers[j].place)
  }

  /** An action uses known locks, and holds none that it did not hold unless it acquires it. */
  lemma {:induction false} ActionUsesKnownLocks(c: Common, caller: Caller, embed: string -> Embedding, action: Action)
    requires Ready(c, caller, action) && FlightsKnown(c) && Used(caller.place) < c.nextLock
    ensures var effect := Perform(c, caller, embed, action);
            && FlightsKnown(effect.common) && effect.common.nextLock >= c.nextLock
            && Used(effect.place) < effect.common.nextLock
            && (action.Acquire? ==> Held(effect.place) == Used(caller.place))
            && (!action.Acquire? ==> Held(effect.place) in {NO_LOCK, Held(caller.place)})
  {
  }

  lemma {:induction false} LocksRightKept(s: State, embed: string -> Embedding, m: Move)
    requires LocksRight(s) && Enabled(s, m)
    ensures LocksRight(Apply(s, embed, m))
  {
    var t := Apply(s, embed, m);
    if m.Act? {
      ActionUsesKnownLocks(s.common, s.callers[m.i], embed, m.action);
    }
    forall i, j | i in t.callers && j in t.callers && i != j ensures Apart(t.callers[i].place, t.callers[j].place) {
      if i in s.callers && j in s.callers {
        assert Apart(s.callers[i].place, s.callers[j].place);
      }
    }
  }

  lemma {:induction false} RunKeepsRight(embed: string -> Embedding, states: seq<State>, moves: seq<Move>, n: nat)
    requires IsRun(embed, states, moves) && n < |states|
    ensures AllRight(states[n], embed) && LocksRight(states[n])
  {
    if n > 0 {
      RunKeepsRight(embed, states, moves, n - 1);
      AllRightKept(states[n - 1], embed, moves[n - 1]);
      LocksRightKept(states[n - 1], embed, moves[n - 1]);
    }
  }

  /**
   Under any interleaving, failures, cancellations and evictions included, a caller gets its own
   query's embedding.
   */
  lemma {:induction false} ReturnedEmbeddingIsRight(embed: string -> Embedding, states: seq<State>, moves: seq<Move>,
                                                    n: nat, i: nat)
    requires IsRun(embed, states, moves) && n < |states|
    requires i in states[n].callers && states[n].callers[i].place.Done? && states[n].callers[i].place.final.Returned?
    ensures states[n].callers[i].place.final.embedding == embed(states[n].callers[i].key)
  {
    RunKeepsRight(embed, states, moves, n);
    assert CallerRight(embed, states[n].callers[i]);
  }

  // ---------- every coroutine finishes ----------

  /** How many actions a coroutine has left at most. */
  function Rank(p: Place): nat {
    match p
    case Started => 9
    case Reading => 8
    case Taking => 7
    case Waiting(_) => 6
    case Entered(_) => 5
    case ReadingInside(_) => 4
    case Computing(_) => 3
    case Storing(_, _) => 2
    case Leaving(_, _) => 1
    case Done(_) => 0
  }

  lemma {:induction false} ActionsAdvance(c: Common, caller: Caller, embed: string -> Embedding, action: Action)
    requires Ready(c, caller, action)
    ensures Rank(Perform(c, caller, embed, action).place) < Rank(caller.place)
  {
  }

  function NextAction(p: Place): (a: Action)
    ensures !a.Cancel?
  {
    match p
    case Started => Check
    case Reading => Read(Miss)
    case Taking => Take
    case Waiting(_) => Acquire
    case Entered(_) => Recheck
    case ReadingInside(_) => ReadAgain(Miss)
    case Computing(_) => Computed(true)
    case Storing(_, _) => Stored(true)
    case _ => Leave
  }

  /** While some coroutine is not done, some coroutine can go on. */
  lemma {:induction false} NoDeadlock(s: State, i: nat)
    requires i in s.callers && !s.callers[i].place.Done?
    ensures exists j :: j in s.callers && Enabled(s, Act(j, NextAction(s.callers[j].place)))
  {
    var place := s.callers[i].place;
    if place.Waiting? && !NobodyHolds(s, place.lock) {
      var j :| j in s.callers && Held(s.callers[j].place) == place.lock;
      assert Enabled(s, Act(j, NextAction(s.callers[j].place)));
    } else {
      assert Enabled(s, Act(i, NextAction(place)));
    }
  }

  /** How many of the first `n` moves are actions of coroutine `i`. */
  function ActionsOf(moves: seq<Move>, i: nat, n: nat): nat
    requires n <= |moves|
  {
    if n == 0 then 0
    else ActionsOf(moves, i, n - 1) + if moves[n - 1].Act? && moves[n - 1].i == i then 1 else 0
  }

  /** In every run a coroutine takes at most nine actions, and none once it is done. */
  lemma {:induction false} AtMostNineActions(embed: string -> Embedding, states: seq<State>, moves: seq<Move>, n: nat,
                                             i: nat)
    requires IsRun(embed, states, moves) && n <= |moves|
    ensures i !in states[n].callers ==> ActionsOf(moves, i, n) == 0
    ensures i in states[n].callers ==> ActionsOf(moves, i, n) + Rank(states[n].callers[i].place) <= 9
  {
    if n > 0 {
      var s, m := states[n - 1], moves[n - 1];
      AtMostNineActions(embed, states, moves, n - 1, i);
      assert Enabled(s, m) && states[n - 1 + 1] == Apply(s, embed, m);
      if m.Act? && m.i == i {
        ActionsAdvance(s.common, s.callers[i], embed, m.action);
      }
    }
  }

  /** A run that can go no further has brought every coroutine to its end. */
  lemma {:induction false} StalledRunIsDone(embed: string -> Embedding, states: seq<State>, moves: seq<Move>)
    requires IsRun(embed, states, moves)
    requires forall j :: j in states[|moves|].callers ==>
               !Enabled(states[|moves|], Act(j, NextAction(states[|moves|].callers[j].place)))
    ensures forall i :: i in states[|moves|].callers ==> states[|moves|].callers[i].place.Done?
  {
    forall i | i in states[|moves|].callers ensures states[|moves|].callers[i].place.Done? {
      if !states[|moves|].callers[i].place.Done? {
        NoDeadlock(states[|moves|], i);
      }
    }
  }

  // ---------- flights end ----------

  /** A coroutine that uses the key's current lock. */
  predicate Serves(caller: Caller, key: string, lock: nat) {
    caller.key == key && Used(caller.place) == lock
  }

  ghost predicate Served(s: State, key: string) {
    key in s.common.flights ==> exists i :: i in s.callers && Serves(s.callers[i], key, s.common.flights[key])
  }

  /**
   A flight that an action leaves or makes: if its coroutine served it before, it still does, and a
   new one it serves.
   */
  lemma {:induction false} ActionKeepsServing(c: Common, caller: Caller, embed: string -> Embedding, action: Action,
                                              key: string)
    requires Ready(c, caller, action)
    ensures var Effect(d, place) := Perform(c, caller, embed, action);
            key in d.flights ==>
              && (key in c.flights ==> d.flights[key] == c.flights[key])
              && (key !in c.flights || Serves(caller, key, c.flights[key]) ==>
                    Serves(Caller(caller.key, place), key, d.flights[key]))
  {
  }

  lemma {:induction false} ServedKept(s: State, embed: string -> Embedding, m: Move, key: string)
    requires Served(s, key) && Enabled(s, m)
    ensures Served(Apply(s, embed, m), key)
  {
    var t := Apply(s, embed, m);
    if m.Act? {
      ActionKeepsServing(s.common, s.callers[m.i], embed, m.action, key);
    }
    if key in t.common.flights {
      if key in s.common.flights {
        var i :| i in s.callers && Serves(s.callers[i], key, s.common.flights[key]);
        assert i in t.callers && Serves(t.callers[i], key, t.common.flights[key]);
      } else {
        assert Serves(t.callers[m.i], key, t.common.flights[key]);
      }
    }
  }

  lemma {:induction false} RunServes(embed: string -> Embedding, states: seq<State>, moves: seq<Move>, n: nat,
                                     key: string)
    requires IsRun(embed, states, moves) && n < |states|
    ensures Served(states[n], key)
  {
    if n > 0 {
      RunServes(embed, states, moves, n - 1, key);
      ServedKept(states[n - 1], embed, moves[n - 1], key);
    }
  }

  /** When all coroutines are done the flights are empty, failures and cancellations included. */
  lemma {:induction false} FlightsAreEmptyAtRest(embed: string -> Embedding, states: seq<State>, moves: seq<Move>,
                                                 n: nat)
    requires IsRun(embed, states, moves) && n < |states|
    requires forall i :: i in states[n].callers ==> states[n].callers[i].place.Done?
    ensures states[n].common.flights == map[]
  {
    forall key ensures key !in states[n].common.flights {
      RunServes(embed, states, moves, n, key);
    }
  }

  // ---------- one computation per key ----------

  /** Past the last look at the process cache, with the computation ahead or under way. */
  predicate Critical(p: Place) {
    p.ReadingInside? || p.Computing?
  }

  predicate Of(s: State, i: nat, key: string) {
    i in s.callers && s.callers[i].key == key
  }

  predicate UsesFlight(c: Common, caller: Caller) {
    var lock := Used(caller.place);
    lock == NO_LOCK || (caller.key in c.flights && c.flights[caller.key] == lock)
  }

  /** A coroutine that has stored or leaves has left the key cached. */
  ghost predicate LeavesCached(s: State, key: string) {
    forall i :: Of(s, i, key) && (s.callers[i].place.Leaving? || s.callers[i].place.Storing?) ==>
      key in s.common.process
  }

  /** Before the key is cached, all its coroutines use its one flight. */
  ghost predicate FlightShared(s: State, key: string) {
    key !in s.common.process ==> forall i :: Of(s, i, key) ==> UsesFlight(s.common, s.callers[i])
  }

  /** A critical coroutine shares the flight with all others, of which none has left. */
  ghost predicate CriticalAlone(s: State, key: string) {
    forall i, j :: Of(s, i, key) && Critical(s.callers[i].place) && Of(s, j, key) ==>
      UsesFlight(s.common, s.callers[j]) && !s.callers[j].place.Leaving?
  }

  /** At most one computation, and none yet while a coroutine is about to decide on one. */
  ghost predicate OneComputation(s: State, key: string) {
    && s.common.computations[key] <= 1
    && (s.common.computations[key] == 1 ==>
         key in s.common.process || exists i :: Of(s, i, key) && s.callers[i].place.Computing?)
    && forall i :: Of(s, i, key) && s.callers[i].place.ReadingInside? ==> s.common.computations[key] == 0
  }

  ghost predicate OneFlight(s: State, key: string) {
    LeavesCached(s, key) && FlightShared(s, key) && CriticalAlone(s, key) && OneComputation(s, key)
  }

  /** What the single flight of a key does not survive. */
  predicate Disturbs(s: State, m: Move, key: string) {
    || m == Evict(key)
    || (m.Act? && Of(s, m.i, key) && Spoils(s.callers[m.i].place, m.action))
  }

  predicate Spoils(p: Place, action: Action) {
    action == Computed(false) || action == ReadAgain(Broken) || (action.Cancel? && (p.Waiting? || Critical(p)))
  }

  /** What moves of other keys' coroutines, and of the surroundings, leave of the key's coroutines. */
  ghost predicate KeyUntouched(s: State, t: State, key: string) {
    && (forall i :: Of(t, i, key) ==> t.callers[i].place.Started? || (Of(s, i, key) && t.callers[i] == s.callers[i]))
    && (forall i :: Of(s, i, key) ==> Of(t, i, key) && t.callers[i] == s.callers[i])
    && (key in s.common.process ==> key in t.common.process)
    && (key in t.common.flights <==> key in s.common.flights)
    && (key in s.common.flights ==> t.common.flights[key] == s.common.flights[key])
    && t.common.computations[key] == s.common.computations[key]
  }

  lemma {:induction false} OthersLeaveKey(s: State, embed: string -> Embedding, m: Move, key: string)
    requires Enabled(s, m) && m != Evict(key) && !(m.Act? && Of(s, m.i, key))
    ensures KeyUntouched(s, Apply(s, embed, m), key)
  {
    OthersKeepCommon(s, embed, m, key);
  }

  lemma {:induction false} UntouchedKeepsOneFlight(s: State, t: State, key: string)
    requires OneFlight(s, key) && KeyUntouched(s, t, key)
    ensures OneFlight(t, key)
  {
  }

  lemma {:induction false} OthersKeepCommon(s: State, embed: string -> Embedding, m: Move, key: string)
    requires Enabled(s, m) && m != Evict(key) && !(m.Act? && Of(s, m.i, key))
    ensures var c, d := s.common, Apply(s, embed, m).common;
            && (key in c.process ==> key in d.process)
            && (key in d.flights <==> key in c.flights) && (key in c.flights ==> d.flights[key] == c.flights[key])
            && d.computations[key] == c.computations[key]
  {
  }

  /** What an action that does not spoil the flight does to its own key. */
  lemma {:induction false} ActionOnKey(c: Common, caller: Caller, embed: string -> Embedding, action: Action)
    requires Ready(c, caller, action) && !Spoils(caller.place, action)
    ensures var Effect(d, place) := Perform(c, caller, embed, action);
            var key := caller.key;
            && (key in c.process ==> key in d.process)
            && (key in c.flights && !action.Leave? ==> key in d.flights && d.flights[key] == c.flights[key])
            && (place.Leaving? || place.Storing? ==> caller.place.Storing? || key in d.process)
            && (Critical(place) ==> Critical(caller.place) || (action.Recheck? && key !in c.process && d == c))
            && (action.Take? ==> UsesFlight(d, caller.(place := place)))
            && (Used(place) in {NO_LOCK, Used(caller.place)} || action.Take?)
            && (place.Leaving? ==> Held(caller.place) != NO_LOCK)
  {
  }

  lemma {:induction false} ActionKeepsCached(s: State, embed: string -> Embedding, i: nat, action: Action, key: string)
    requires LeavesCached(s, key) && Of(s, i, key) && Enabled(s, Act(i, action)) && !Spoils(s.callers[i].place, action)
    ensures LeavesCached(Apply(s, embed, Act(i, action)), key)
  {
    var t := Apply(s, embed, Act(i, action));
    ActionOnKey(s.common, s.callers[i], embed, action);
    assert forall j :: j != i && Of(t, j, key) ==> Of(s, j, key) && t.callers[j] == s.callers[j];
  }

  lemma {:induction false} ActionKeepsShared(s: State, embed: string -> Embedding, i: nat, action: Action, key: string)
    requires LeavesCached(s, key) && FlightShared(s, key)
    requires Of(s, i, key) && Enabled(s, Act(i, action)) && !Spoils(s.callers[i].place, action)
    ensures FlightShared(Apply(s, embed, Act(i, action)), key)
  {
    var t := Apply(s, embed, Act(i, action));
    ActionOnKey(s.common, s.callers[i], embed, action);
    if key !in t.common.process {
      forall j | Of(t, j, key) ensures UsesFlight(t.common, t.callers[j]) {
        assert UsesFlight(s.common, s.callers[j]);
      }
    }
  }

  /** Whoever holds the flight of a critical coroutine is that coroutine. */
  lemma {:induction false} CriticalHolder(s: State, i: nat, j: nat, key: string)
    requires LocksRight(s) && CriticalAlone(s, key)
    requires Of(s, i, key) && Critical(s.callers[i].place) && Of(s, j, key) && Held(s.callers[j].place) != NO_LOCK
    ensures j == i
  {
    assert UsesFlight(s.common, s.callers[i]) && UsesFlight(s.common, s.callers[j]);
    assert i != j ==> Apart(s.callers[i].place, s.callers[j].place);
  }

  lemma {:induction false} ActionKeepsAlone(s: State, embed: string -> Embedding, i: nat, action: Action, key: string)
    requires LocksRight(s) && LeavesCached(s, key) && FlightShared(s, key) && CriticalAlone(s, key)
    requires Of(s, i, key) && Enabled(s, Act(i, action)) && !Spoils(s.callers[i].place, action)
    ensures CriticalAlone(Apply(s, embed, Act(i, action)), key)
  {
    var t := Apply(s, embed, Act(i, action));
    ActionOnKey(s.common, s.callers[i], embed, action);
    forall a, j | Of(t, a, key) && Critical(t.callers[a].place) && Of(t, j, key)
      ensures UsesFlight(t.common, t.callers[j]) && !t.callers[j].place.Leaving?
    {
      if Critical(s.callers[a].place) {
        if j == i && t.callers[j].place.Leaving? {
          CriticalHolder(s, a, i, key);
        }
        assert UsesFlight(s.common, s.callers[j]) && !s.callers[i].place.Leaving?;
      } else {
        assert UsesFlight(s.common, s.callers[j]);
      }
    }
  }

  /** When an action computes, and what it then says of the key. */
  lemma {:induction false} ActionCounts(c: Common, caller: Caller, embed: string -> Embedding, action: Action)
    requires Ready(c, caller, action) && !Spoils(caller.place, action)
    ensures var Effect(d, place) := Perform(c, caller, embed, action);
            var key := caller.key;
            && d.computations[key] == c.computations[key] + (if action == ReadAgain(Miss) then 1 else 0)
            && (place.ReadingInside? ==> action.Recheck? && key !in c.process && caller.place.Entered?)
            && (place.Computing? <==> action == ReadAgain(Miss))
            && (action == ReadAgain(Miss) ==> caller.place.ReadingInside?)
            && (caller.place.Computing? ==> key in d.process)
  {
  }

  /** A caller reading inside the lock is alone there, and nothing was computed yet. */
  lemma {:induction false} ReaderIsAlone(s: State, i: nat, key: string)
    requires LocksRight(s) && OneFlight(s, key) && Of(s, i, key) && s.callers[i].place.ReadingInside?
    ensures s.common.computations[key] == 0
    ensures forall j :: Of(s, j, key) && s.callers[j].place.ReadingInside? ==> j == i
  {
    forall j | Of(s, j, key) && s.callers[j].place.ReadingInside? ensures j == i {
      CriticalHolder(s, i, j, key);
    }
  }

  lemma {:induction false} LookingFindsNone(s: State, i: nat, key: string)
    requires LocksRight(s) && OneFlight(s, key) && Of(s, i, key) && s.callers[i].place.Entered?
               && key !in s.common.process
    ensures s.common.computations[key] == 0
  {
    if s.common.computations[key] == 1 {
      var j :| Of(s, j, key) && s.callers[j].place.Computing?;
      CriticalHolder(s, j, i, key);
    }
  }

  lemma {:induction false} ActionKeepsComputations(s: State, embed: string -> Embedding, i: nat, action: Action,
                                                   key: string)
    requires LocksRight(s) && OneFlight(s, key)
    requires Of(s, i, key) && Enabled(s, Act(i, action)) && !Spoils(s.callers[i].place, action)
    ensures OneComputation(Apply(s, embed, Act(i, action)), key)
  {
    var t := Apply(s, embed, Act(i, action));
    ActionOnKey(s.common, s.callers[i], embed, action);
    ActionCounts(s.common, s.callers[i], embed, action);
    if action == ReadAgain(Miss) {
      ReaderIsAlone(s, i, key);
      assert Of(t, i, key) && t.callers[i].place.Computing?;
    } else {
      if t.callers[i].place.ReadingInside? {
        LookingFindsNone(s, i, key);
      }
      if j :| Of(s, j, key) && s.callers[j].place.Computing? && j != i {
        assert Of(t, j, key) && t.callers[j].place.Computing?;
      }
    }
    forall j | Of(t, j, key) && j != i ensures Of(s, j, key) && t.callers[j] == s.callers[j] {
    }
  }

  lemma {:induction false} OneFlightKept(s: State, embed: string -> Embedding, m: Move, key: string)
    requires LocksRight(s) && OneFlight(s, key) && Enabled(s, m) && !Disturbs(s, m, key)
    ensures OneFlight(Apply(s, embed, m), key)
  {
    if m.Act? && Of(s, m.i, key) {
      ActionKeepsCached(s, embed, m.i, m.action, key);
      ActionKeepsShared(s, embed, m.i, m.action, key);
      ActionKeepsAlone(s, embed, m.i, m.action, key);
      ActionKeepsComputations(s, embed, m.i, m.action, key);
    } else {
      OthersLeaveKey(s, embed, m, key);
      UntouchedKeepsOneFlight(s, Apply(s, embed, m), key);
    }
  }

  lemma {:induction false} RunKeepsOneFlight(embed: string -> Embedding, states: seq<State>, moves: seq<Move>, n: nat,
                                             key: string)
    requires IsRun(embed, states, moves) && n < |states|
    requires forall k :: 0 <= k < n ==> !Disturbs(states[k], moves[k], key)
    ensures OneFlight(states[n], key)
  {
    if n > 0 {
      RunKeepsOneFlight(embed, states, moves, n - 1, key);
      RunKeepsRight(embed, states, moves, n - 1);
      OneFlightKept(states[n - 1], embed, moves[n - 1], key);
    }
  }

  /**
   In an undisturbed run a key is computed at most once, however many callers there are
   and however they interleave.
   */
  lemma {:induction false} AtMostOneComputation(embed: string -> Embedding, states: seq<State>, moves: seq<Move>,
                                                n: nat, key: string)
    requires IsRun(embed, states, moves) && n < |states|
    requires forall k :: 0 <= k < n ==> !Disturbs(states[k], moves[k], key)
    ensures states[n].common.computations[key] <= 1
  {
    RunKeepsOneFlight(embed, states, moves, n, key);
  }

  // ---------- every cause of a disturbance is needed ----------

  datatype Cause = Eviction | FailedRead | FailedComputation | CancelledWaiting | CancelledReading | CancelledComputing

  /** Why a move disturbs the key, if it does. */
  function CauseOf(s: State, m: Move, key: string): (r: Option<Cause>)
    ensures r.Some? <==> Disturbs(s, m, key)
  {
    if m == Evict(key) then Some(Eviction)
    else if m.Act? && Of(s, m.i, key) then
      var place := s.callers[m.i].place;
      match m.action
      case Computed(false) => Some(FailedComputation)
      case ReadAgain(Broken) => Some(FailedRead)
      case Cancel =>
        if place.Waiting? then Some(CancelledWaiting)
        else if place.ReadingInside? then Some(CancelledReading)
        else if place.Computing? then Some(CancelledComputing)
        else None
      case _ => None
    else None
  }

  function Listed(cause: Option<Cause>): seq<Cause> {
    if cause.Some? then [cause.value] else []
  }

  /** The disturbances of the first `n` moves, in order. */
  function CausesUpTo(states: seq<State>, moves: seq<Move>, key: string, n: nat): seq<Cause>
    requires n <= |moves| && |states| == |moves| + 1
  {
    if n == 0 then []
    else CausesUpTo(states, moves, key, n - 1) + Listed(CauseOf(states[n - 1], moves[n - 1], key))
  }

  lemma {:induction false} CausesOfPrefix(states: seq<State>, moves: seq<Move>, t: State, m: Move, key: string, n: nat)
    requires n <= |moves| && |states| == |moves| + 1
    ensures CausesUpTo(states + [t], moves + [m], key, n) == CausesUpTo(states, moves, key, n)
  {
    if n > 0 {
      CausesOfPrefix(states, moves, t, m, key, n - 1);
    }
  }

  lemma {:induction false} CauseIsListed(states: seq<State>, moves: seq<Move>, key: string, n: nat, k: nat)
    requires k < n <= |moves| && |states| == |moves| + 1 && Disturbs(states[k], moves[k], key)
    ensures CauseOf(states[k], moves[k], key).value in CausesUpTo(states, moves, key, n)
  {
    if k < n - 1 {
      CauseIsListed(states, moves, key, n - 1, k);
    }
  }

  /** A run, where it ends, and what disturbed a key on the way. */
  datatype Trace = Trace(moves: seq<Move>, state: State, causes: seq<Cause>)

  const NOTHING_YET := Trace([], IDLE, [])

  ghost predicate StatesOf(embed: string -> Embedding, key: string, r: Trace, states: seq<State>) {
    && IsRun(embed, states, r.moves) && states[|r.moves|] == r.state
    && CausesUpTo(states, r.moves, key, |r.moves|) == r.causes
  }

  ghost predicate Happens(embed: string -> Embedding, key: string, r: Trace) {
    exists states :: StatesOf(embed, key, r, states)
  }

  function Then(embed: string -> Embedding, key: string, r: Trace, m: Move): Trace
    requires Enabled(r.state, m)
  {
    Trace(r.moves + [m], Apply(r.state, embed, m), r.causes + Listed(CauseOf(r.state, m, key)))
  }

  lemma {:induction false} NothingHappens(embed: string -> Embedding, key: string)
    ensures Happens(embed, key, NOTHING_YET)
  {
    assert StatesOf(embed, key, NOTHING_YET, [IDLE]);
  }

  lemma {:induction false} Next(embed: string -> Embedding, key: string, r: Trace, m: Move) returns (t: Trace)
    requires Happens(embed, key, r) && Enabled(r.state, m)
    ensures t == Then(embed, key, r, m) && Happens(embed, key, t)
  {
    t := Then(embed, key, r, m);
    var states :| StatesOf(embed, key, r, states);
    CausesOfPrefix(states, r.moves, t.state, m, key, |r.moves|);
    assert StatesOf(embed, key, t, states + [t.state]);
  }

  /** One more action of a caller of the key. */
  lemma {:induction false} Acts(embed: string -> Embedding, key: string, r: Trace, i: nat, action: Action)
    returns (t: Trace)
    requires Happens(embed, key, r) && Of(r.state, i, key) && Enabled(r.state, Act(i, action))
    ensures Happens(embed, key, t) && t.causes == r.causes + Listed(CauseOf(r.state, Act(i, action), key))
    ensures var effect := Perform(r.state.common, r.state.callers[i], embed, action);
            t.state == State(r.state.callers[i := Caller(key, effect.place)], effect.common)
  {
    t := Next(embed, key, r, Act(i, action));
  }

  lemma {:induction false} PlacedTwice(callers: map<nat, Caller>, i: nat, a: Caller, b: Caller)
    ensures callers[i := a][i := b] == callers[i := b]
  {
  }

  /** A new caller finds nothing cached. */
  lemma {:induction false} CallAndMiss(embed: string -> Embedding, r: Trace, i: nat, key: string) returns (t: Trace)
    requires Happens(embed, key, r) && i !in r.state.callers && key !in r.state.common.process
    ensures Happens(embed, key, t) && t.causes == r.causes
    ensures t.state == State(r.state.callers[i := Caller(key, Taking)], r.state.common)
  {
    t := Next(embed, key, r, Call(i, key));
    t := Acts(embed, key, t, i, Check);
    t := Acts(embed, key, t, i, Read(Miss));
    PlacedTwice(r.state.callers, i, Caller(key, Started), Caller(key, Reading));
    PlacedTwice(r.state.callers, i, Caller(key, Reading), Caller(key, Taking));
  }

  /** A new caller finds nothing cached and waits for the key's lock. */
  lemma {:induction false} CallAndWait(embed: string -> Embedding, r: Trace, i: nat, key: string) returns (t: Trace)
    requires Happens(embed, key, r) && i !in r.state.callers && key !in r.state.common.process
    ensures Happens(embed, key, t) && t.causes == r.causes
    ensures var c := r.state.common;
            var lock := if key in c.flights then c.flights[key] else c.nextLock;
            && t.state.callers == r.state.callers[i := Caller(key, Waiting(lock))]
            && t.state.common == c.(flights := c.flights[key := lock],
                                    nextLock := if key in c.flights then c.nextLock else lock + 1)
  {
    t := CallAndMiss(embed, r, i, key);
    t := Acts(embed, key, t, i, Take);
    var c := r.state.common;
    assert key in c.flights ==> c.flights[key := c.flights[key]] == c.flights;
  }

  /** A waiting caller gets its lock, finds nothing cached and goes on to read the shared cache. */
  lemma {:induction false} Enter(embed: string -> Embedding, r: Trace, i: nat, key: string) returns (t: Trace)
    requires Happens(embed, key, r) && Of(r.state, i, key) && r.state.callers[i].place.Waiting?
    requires NobodyHolds(r.state, r.state.callers[i].place.lock) && key !in r.state.common.process
    ensures Happens(embed, key, t) && t.causes == r.causes && t.state.common == r.state.common
    ensures t.state.callers == r.state.callers[i := Caller(key, ReadingInside(r.state.callers[i].place.lock))]
  {
    t := Acts(embed, key, r, i, Acquire);
    t := Acts(embed, key, t, i, Recheck);
  }

  /** It enters, misses, and starts to compute. */
  lemma {:induction false} EnterAndCompute(embed: string -> Embedding, r: Trace, i: nat, key: string) returns (t: Trace)
    requires Happens(embed, key, r) && Of(r.state, i, key) && r.state.callers[i].place.Waiting?
    requires NobodyHolds(r.state, r.state.callers[i].place.lock) && key !in r.state.common.process
    ensures Happens(embed, key, t) && t.causes == r.causes
    ensures t.state.callers == r.state.callers[i := Caller(key, Computing(r.state.callers[i].place.lock))]
    ensures t.state.common == r.state.common.(computations := r.state.common.computations + multiset{key})
  {
    t := Enter(embed, r, i, key);
    t := Acts(embed, key, t, i, ReadAgain(Miss));
  }

  /** Callers 0 and 1 wait for the key's first lock. */
  lemma {:induction false} TwoWait(embed: string -> Embedding, key: string) returns (t: Trace)
    ensures Happens(embed, key, t) && t.causes == []
    ensures t.state.callers == map[0 := Caller(key, Waiting(0)), 1 := Caller(key, Waiting(0))]
    ensures t.state.common == Common(map[key := 0], 1, map[], map[], multiset{})
  {
    NothingHappens(embed, key);
    t := CallAndWait(embed, NOTHING_YET, 0, key);
    t := CallAndWait(embed, t, 1, key);
  }

  /** The disturbing action of a caller that has got so far. */
  function Disturbance(cause: Cause): Action
    requires !cause.Eviction?
  {
    match cause
    case FailedRead => ReadAgain(Broken)
    case FailedComputation => Computed(false)
    case _ => Cancel
  }

  /** A caller has got where the cause can disturb it. */
  predicate Exposed(place: Place, cause: Cause) {
    match cause
    case Eviction => false
    case CancelledWaiting => place.Waiting?
    case FailedRead => place.ReadingInside?
    case CancelledReading => place.ReadingInside?
    case FailedComputation => place.Computing?
    case CancelledComputing => place.Computing?
  }

  function OutcomeOf(cause: Cause): Outcome {
    if cause.FailedRead? || cause.FailedComputation? then Raised else Cancelled
  }

  lemma {:induction false} Disturb(embed: string -> Embedding, r: Trace, i: nat, key: string, cause: Cause)
    returns (t: Trace)
    requires Happens(embed, key, r) && r.causes == []
    requires Of(r.state, i, key) && Exposed(r.state.callers[i].place, cause)
    ensures Happens(embed, key, t) && t.causes == [cause]
    ensures t.state ==
              State(r.state.callers[i := Caller(key, Leaving(Used(r.state.callers[i].place), OutcomeOf(cause)))],
                             r.state.common)
  {
    t := Acts(embed, key, r, i, Disturbance(cause));
  }

  /** A caller is disturbed and leaves, which drops its flight. */
  lemma {:induction false} DisturbAndLeave(embed: string -> Embedding, r: Trace, i: nat, key: string, cause: Cause)
    returns (t: Trace)
    requires Happens(embed, key, r) && r.causes == []
    requires Of(r.state, i, key) && Exposed(r.state.callers[i].place, cause)
    requires key in r.state.common.flights && r.state.common.flights[key] == Used(r.state.callers[i].place)
    ensures Happens(embed, key, t) && t.causes == [cause]
    ensures t.state.common == r.state.common.(flights := r.state.common.flights - {key})
    ensures t.state.callers == r.state.callers[i := Caller(key, Done(OutcomeOf(cause)))]
  {
    t := Disturb(embed, r, i, key, cause);
    t := Acts(embed, key, t, i, Leave);
  }

  /** A new caller takes a new lock and computes. */
  lemma {:induction false} ComputeAnew(embed: string -> Embedding, r: Trace, i: nat, key: string) returns (t: Trace)
    requires Happens(embed, key, r) && i !in r.state.callers
    requires key !in r.state.common.process && key !in r.state.common.flights
    requires NobodyHolds(r.state, r.state.common.nextLock)
    ensures Happens(embed, key, t) && t.causes == r.causes
    ensures t.state.common.computations == r.state.common.computations + multiset{key}
  {
    t := CallAndWait(embed, r, i, key);
    t := EnterAndCompute(embed, t, i, key);
  }

  /** The first caller drops the flight before it computes; the second, on the old lock, and a third compute. */
  lemma {:induction false} DroppedBefore(embed: string -> Embedding, key: string, cause: Cause) returns (t: Trace)
    requires cause.FailedRead? || cause.CancelledReading?
    ensures Happens(embed, key, t) && t.causes == [cause] && t.state.common.computations[key] == 2
  {
    t := TwoWait(embed, key);
    t := Enter(embed, t, 0, key);
    t := DisturbAndLeave(embed, t, 0, key, cause);
    t := EnterAndCompute(embed, t, 1, key);
    t := ComputeAnew(embed, t, 2, key);
  }

  /** The first caller's computation comes to nothing, and the second computes again. */
  lemma {:induction false} DroppedDuring(embed: string -> Embedding, key: string, cause: Cause) returns (t: Trace)
    requires cause.FailedComputation? || cause.CancelledComputing?
    ensures Happens(embed, key, t) && t.causes == [cause] && t.state.common.computations[key] == 2
  {
    t := TwoWait(embed, key);
    t := EnterAndCompute(embed, t, 0, key);
    t := DisturbAndLeave(embed, t, 0, key, cause);
    t := EnterAndCompute(embed, t, 1, key);
  }

  /** The first caller computes; the second, cancelled while it waits, drops the flight, and a third computes too. */
  lemma {:induction false} DroppedByWaiter(embed: string -> Embedding, key: string) returns (t: Trace)
    ensures Happens(embed, key, t) && t.causes == [CancelledWaiting] && t.state.common.computations[key] == 2
  {
    t := TwoWait(embed, key);
    t := EnterAndCompute(embed, t, 0, key);
    t := DisturbAndLeave(embed, t, 1, key, CancelledWaiting);
    t := ComputeAnew(embed, t, 2, key);
  }

  /** A computing caller succeeds: the key is in the process cache. */
  lemma {:induction false} Complete(embed: string -> Embedding, r: Trace, i: nat, key: string) returns (t: Trace)
    requires Happens(embed, key, r) && Of(r.state, i, key) && r.state.callers[i].place.Computing?
    ensures Happens(embed, key, t) && t.causes == r.causes
    ensures var c := r.state.common;
            var place := Leaving(r.state.callers[i].place.lock, Returned(embed(key)));
            && t.state.callers == r.state.callers[i := Caller(key, place)]
            && t.state.common == c.(process := c.process[key := embed(key)], shared := c.shared[key := embed(key)])
  {
    var lock := r.state.callers[i].place.lock;
    t := Acts(embed, key, r, i, Computed(true));
    t := Acts(embed, key, t, i, Stored(true));
    PlacedTwice(r.state.callers, i, Caller(key, Storing(lock, embed(key))),
      Caller(key, Leaving(lock, Returned(embed(key)))));
  }

  /** One caller computes and is done. */
  lemma {:induction false} ComputedAndDone(embed: string -> Embedding, key: string) returns (t: Trace)
    ensures Happens(embed, key, t) && t.causes == []
    ensures t.state.callers == map[0 := Caller(key, Done(Returned(embed(key))))]
    ensures t.state.common ==
            Common(map[], 1, map[key := embed(key)], map[key := embed(key)], multiset{key})
  {
    NothingHappens(embed, key);
    t := CallAndWait(embed, NOTHING_YET, 0, key);
    t := EnterAndCompute(embed, t, 0, key);
    t := Complete(embed, t, 0, key);
    t := Acts(embed, key, t, 0, Leave);
  }

  /** The first caller computes, the key is evicted, and the next caller's shared read misses. */
  lemma {:induction false} Evicted(embed: string -> Embedding, key: string) returns (t: Trace)
    ensures Happens(embed, key, t) && t.causes == [Eviction] && t.state.common.computations[key] == 2
  {
    t := ComputedAndDone(embed, key);
    t := Next(embed, key, t, Evict(key));
    t := ComputeAnew(embed, t, 1, key);
  }

  /** Each cause, as the only disturbance of a run, leads to two computations of the key. */
  lemma {:induction false} EachCauseIsNeeded(embed: string -> Embedding, key: string, cause: Cause) returns (t: Trace)
    ensures Happens(embed, key, t) && t.causes == [cause] && t.state.common.computations[key] == 2
  {
    match cause
    case Eviction => t := Evicted(embed, key);
    case CancelledWaiting => t := DroppedByWaiter(embed, key);
    case FailedRead => t := DroppedBefore(embed, key, cause);
    case CancelledReading => t := DroppedBefore(embed, key, cause);
    case FailedComputation => t := DroppedDuring(embed, key, cause);
    case CancelledComputing => t := DroppedDuring(embed, key, cause);
  }

  /** In every run that only these causes disturb, the key is computed at most once. */
  ghost predicate ComputedOnce(embed: string -> Embedding, key: string, allowed: set<Cause>) {
    forall states: seq<State>, moves: seq<Move> ::
      IsRun(embed, states, moves) && DisturbedOnlyBy(states, moves, key, allowed) ==>
      states[|moves|].common.computations[key] <= 1
  }

  ghost predicate DisturbedOnlyBy(states: seq<State>, moves: seq<Move>, key: string, allowed: set<Cause>)
    requires |states| == |moves| + 1
  {
    forall k :: 0 <= k < |moves| && Disturbs(states[k], moves[k], key) ==>
      CauseOf(states[k], moves[k], key).value in allowed
  }

  /** No cause can be allowed. */
  lemma {:induction false} ComputedOnceIffUndisturbed(embed: string -> Embedding, key: string, allowed: set<Cause>)
    ensures ComputedOnce(embed, key, allowed) <==> allowed == {}
  {
    if allowed == {} {
      forall states: seq<State>, moves: seq<Move> | IsRun(embed, states, moves)
        && DisturbedOnlyBy(states, moves, key, allowed)
        ensures states[|moves|].common.computations[key] <= 1
      {
        AtMostOneComputation(embed, states, moves, |moves|, key);
      }
    } else {
      var cause :| cause in allowed;
      var t := EachCauseIsNeeded(embed, key, cause);
      var states :| StatesOf(embed, key, t, states);
      forall k | 0 <= k < |t.moves| && Disturbs(states[k], t.moves[k], key)
        ensures CauseOf(states[k], t.moves[k], key).value in allowed
      {
        CauseIsListed(states, t.moves, key, |t.moves|, k);
      }
      assert DisturbedOnlyBy(states, t.moves, key, allowed);
    }
  }
}
