/**
 The lease that keeps synchronizations of one user apart: a key of the shared store that a
 worker sets if it is absent, renews on a timer and deletes at the end, each time only if
 the key still holds the worker's own token. Keys expire on their own.
 */
module SyncLease {
  import opened Text
  import opened Fresh

  type UserId = string

  /** A worker's token is drawn at random, so it names the worker. */
  type Token = nat

  datatype Entry = Entry(token: Token, expiry: real)

  /** Of a worker, `renewed` is when its key was last set or renewed. */
  datatype Worker = Worker(user: UserId, stage: Stage, renewed: real)

  datatype Stage = Skipped | Syncing | Releasing | Finished

  datatype State = State(now: real, keys: map<UserId, Entry>, workers: map<Token, Worker>)

  const IDLE := State(0.0, map[], map[])

  datatype Move =
    | Elapse(time: real)
    | Start(w: Token, user: UserId)
    | Renew(w: Token)
    | EndBody(w: Token)
    | Release(w: Token)
    | Abandon(w: Token)

  // ---------- the store's commands ----------

  /** The token an unexpired key holds. */
  function Holder(s: State, user: UserId): Option<Token> {
    if user in s.keys && s.now < s.keys[user].expiry then Some(s.keys[user].token) else None
  }

  /** `set key token nx ex ttl` */
  function SetIfAbsent(s: State, user: UserId, w: Token, ttl: real): map<UserId, Entry> {
    if Holder(s, user).None? then s.keys[user := Entry(w, s.now + ttl)] else s.keys
  }

  /** The renewal script. */
  function ExpireIfOwn(s: State, user: UserId, w: Token, ttl: real): map<UserId, Entry> {
    if Holder(s, user) == Some(w) then s.keys[user := Entry(w, s.now + ttl)] else s.keys
  }

  /** The release script. */
  function DeleteIfOwn(s: State, user: UserId, w: Token): map<UserId, Entry> {
    if Holder(s, user) == Some(w) then s.keys - {user} else s.keys
  }

  // ---------- moves ----------

  /** A renewal may reach the store late, when its worker is past the body; a worker may vanish without a release. */
  predicate Enabled(s: State, m: Move) {
    match m
    case Elapse(time) => time > 0.0
    case Start(w, _) => w !in s.workers
    case Renew(w) => w in s.workers && !s.workers[w].stage.Skipped?
    case EndBody(w) => w in s.workers && s.workers[w].stage.Syncing?
    case Release(w) => w in s.workers && s.workers[w].stage.Releasing?
    case Abandon(w) => w in s.workers && (s.workers[w].stage.Syncing? || s.workers[w].stage.Releasing?)
  }

  function Apply(s: State, ttl: real, m: Move): State
    requires Enabled(s, m)
  {
    match m
    case Elapse(time) => s.(now := s.now + time)
    case Start(w, user) =>
      var stage := if Holder(s, user).None? then Syncing else Skipped;
      s.(keys := SetIfAbsent(s, user, w, ttl), workers := s.workers[w := Worker(user, stage, s.now)])
    case Renew(w) =>
      var worker := s.workers[w];
      var renewed := if Holder(s, worker.user) == Some(w) then s.now else worker.renewed;
      s.(keys := ExpireIfOwn(s, worker.user, w, ttl), workers := s.workers[w := worker.(renewed := renewed)])
    case EndBody(w) => s.(workers := s.workers[w := s.workers[w].(stage := Releasing)])
    case Release(w) =>
      s.(keys := DeleteIfOwn(s, s.workers[w].user, w), workers := s.workers[w := s.workers[w].(stage := Finished)])
    case Abandon(w) => s.(workers := s.workers[w := s.workers[w].(stage := Finished)])
  }

  ghost predicate IsRun(ttl: real, states: seq<State>, moves: seq<Move>) {
    && |states| == |moves| + 1 && states[0] == IDLE
    && forall i :: 0 <= i < |moves| ==> Enabled(states[i], moves[i]) && states[i + 1] == Apply(states[i], ttl, moves[i])
  }

  predicate ActsFor(m: Move, w: Token) {
    !m.Elapse? && m.w == w
  }

  /** Whatever a worker does, it leaves the unexpired key of another as it is. */
  lemma {:induction false} OthersLeaseIsUntouched(s: State, ttl: real, m: Move, user: UserId)
    requires Enabled(s, m) && Holder(s, user).Some? && !ActsFor(m, Holder(s, user).value)
    ensures user in Apply(s, ttl, m).keys && Apply(s, ttl, m).keys[user] == s.keys[user]
  {
  }

  /** A worker that holds its key makes room by releasing it: whoever starts next, even at once, enters the body. */
  lemma {:induction false} ReleaseLetsNextIn(s: State, ttl: real, w: Token, v: Token)
    requires w in s.workers && s.workers[w].stage.Releasing?
    requires Holder(s, s.workers[w].user) == Some(w) && v !in s.workers
    ensures Enabled(s, Release(w))
    ensures var user, t := s.workers[w].user, Apply(s, ttl, Release(w));
            && t.workers[w] == s.workers[w].(stage := Finished)
            && Enabled(t, Start(v, user)) && Apply(t, ttl, Start(v, user)).workers[v] == Worker(user, Syncing, s.now)
  {
  }

  /** A worker that vanishes leaves its key behind, which keeps others out until it expires, and no longer. */
  lemma {:induction false} AbandonedKeyExpires(s: State, ttl: real, w: Token, v: Token, time: real)
    requires w in s.workers && (s.workers[w].stage.Syncing? || s.workers[w].stage.Releasing?)
    requires Holder(s, s.workers[w].user) == Some(w) && v !in s.workers && time > 0.0
    ensures Enabled(s, Abandon(w))
    ensures var user := s.workers[w].user;
            var t := Apply(Apply(s, ttl, Abandon(w)), ttl, Elapse(time));
            Apply(t, ttl, Start(v, user)).workers[v].stage.Syncing? <==> s.now + time >= s.keys[user].expiry
  {
  }

  // ---------- mutual exclusion ----------

  /** Every worker in the sync body had its key set or renewed less than `ttl` ago. */
  ghost predicate Timely(s: State, ttl: real) {
    forall w :: w in s.workers && s.workers[w].stage.Syncing? ==> s.now < s.workers[w].renewed + ttl
  }

  predicate OwnsKey(s: State, ttl: real, w: Token)
    requires w in s.workers
  {
    var Worker(user, _, renewed) := s.workers[w];
    user in s.keys && s.keys[user] == Entry(w, renewed + ttl)
  }

  ghost predicate SyncingOwnKeys(s: State, ttl: real) {
    forall w :: w in s.workers && s.workers[w].stage.Syncing? ==> OwnsKey(s, ttl, w)
  }

  lemma {:induction false} SyncingOwnKeysKept(s: State, ttl: real, m: Move)
    requires SyncingOwnKeys(s, ttl) && Timely(s, ttl) && Enabled(s, m)
    ensures SyncingOwnKeys(Apply(s, ttl, m), ttl)
  {
    var t := Apply(s, ttl, m);
    forall w | w in t.workers && t.workers[w].stage.Syncing? ensures OwnsKey(t, ttl, w) {
      if w in s.workers {
        assert OwnsKey(s, ttl, w);
      }
    }
  }

  lemma {:induction false} RunKeepsKeys(ttl: real, states: seq<State>, moves: seq<Move>, n: nat)
    requires IsRun(ttl, states, moves) && n < |states|
    requires forall i :: 0 <= i < n ==> Timely(states[i], ttl)
    ensures SyncingOwnKeys(states[n], ttl)
  {
    if n > 0 {
      RunKeepsKeys(ttl, states, moves, n - 1);
      SyncingOwnKeysKept(states[n - 1], ttl, moves[n - 1]);
    }
  }

  /** As long as renewals are timely, no two workers are in the sync body for one user. */
  lemma {:induction false} NoTwoWorkersSync(ttl: real, states: seq<State>, moves: seq<Move>, n: nat, v: Token, w: Token)
    requires IsRun(ttl, states, moves) && n < |states|
    requires forall i :: 0 <= i < n ==> Timely(states[i], ttl)
    requires v in states[n].workers && states[n].workers[v].stage.Syncing?
    requires w in states[n].workers && states[n].workers[w].stage.Syncing?
    requires states[n].workers[v].user == states[n].workers[w].user
    ensures v == w
  {
    RunKeepsKeys(ttl, states, moves, n);
    assert OwnsKey(states[n], ttl, v) && OwnsKey(states[n], ttl, w);
  }

  /**
   Beside a worker in the sync body another one enters exactly when the first one's key was
   last set or renewed a lease ago or longer.
   */
  lemma {:induction false} EntersIffLapsed(ttl: real, states: seq<State>, moves: seq<Move>, n: nat, w: Token, v: Token)
    requires IsRun(ttl, states, moves) && n < |states|
    requires forall i :: 0 <= i < n ==> Timely(states[i], ttl)
    requires w in states[n].workers && states[n].workers[w].stage.Syncing? && v !in states[n].workers
    ensures var s := states[n];
            var t := Apply(s, ttl, Start(v, s.workers[w].user));
            && t.workers[w] == s.workers[w]
            && (t.workers[v].stage.Syncing? <==> s.now >= s.workers[w].renewed + ttl)
  {
    RunKeepsKeys(ttl, states, moves, n);
    assert OwnsKey(states[n], ttl, w);
  }

  /** So from the first moment a lease lapses, two workers can be in the body for one user. */
  lemma {:induction false} LapseLetsAnotherIn(ttl: real, states: seq<State>, moves: seq<Move>, w: Token)
    returns (v: Token, after: State)
    requires IsRun(ttl, states, moves)
    requires forall i :: 0 <= i < |moves| ==> Timely(states[i], ttl)
    requires w in states[|moves|].workers && states[|moves|].workers[w].stage.Syncing?
    requires states[|moves|].now >= states[|moves|].workers[w].renewed + ttl
    ensures v != w && v in after.workers && after.workers[v].stage.Syncing?
    ensures w in after.workers && after.workers[w] == states[|moves|].workers[w]
    ensures after.workers[v].user == after.workers[w].user
    ensures IsRun(ttl, states + [after], moves + [Start(v, after.workers[w].user)])
  {
    var s := states[|moves|];
    v := BeyondAll(s.workers.Keys);
    after := Apply(s, ttl, Start(v, s.workers[w].user));
    EntersIffLapsed(ttl, states, moves, |moves|, w, v);
  }

  // ---------- the renewal timer ----------

  /** Seconds between renewals, `max(1, ttl // 3)`. */
  function Interval(ttl: nat): nat {
    if ttl / 3 >= 1 then ttl / 3 else 1
  }

  /** The interval fits into the lease three times, if the lease lasts three seconds. */
  lemma {:induction false} IntervalIsAThird(ttl: nat)
    ensures Interval(ttl) >= 1
    ensures ttl >= 3 ==> 3 * Interval(ttl) <= ttl < 3 * Interval(ttl) + 3
    ensures ttl < 3 ==> Interval(ttl) == 1
  {
  }

  /** Every renewal reaches the store at most `delay` after it falls due. */
  ghost predicate Prompt(s: State, ttl: nat, delay: real) {
    forall w :: w in s.workers && s.workers[w].stage.Syncing? ==>
      s.now <= s.workers[w].renewed + Interval(ttl) as real + delay
  }

  /** Renewals that are late by less than what the lease leaves after one interval are timely. */
  lemma {:induction false} PromptIsTimely(s: State, ttl: nat, delay: real)
    requires Prompt(s, ttl, delay) && delay < ttl as real - Interval(ttl) as real
    ensures Timely(s, ttl as real)
  {
    forall w | w in s.workers && s.workers[w].stage.Syncing? ensures s.now < s.workers[w].renewed + ttl as real {
      assert s.now <= s.workers[w].renewed + Interval(ttl) as real + delay;
    }
  }

  lemma {:induction false} PromptWorkersDoNotOverlap(ttl: nat, delay: real, states: seq<State>, moves: seq<Move>,
                                                     n: nat, v: Token, w: Token)
    requires delay < ttl as real - Interval(ttl) as real
    requires IsRun(ttl as real, states, moves) && n < |states|
    requires forall i :: 0 <= i < n ==> Prompt(states[i], ttl, delay)
    requires v in states[n].workers && states[n].workers[v].stage.Syncing?
    requires w in states[n].workers && states[n].workers[w].stage.Syncing?
    requires states[n].workers[v].user == states[n].workers[w].user
    ensures v == w
  {
    forall i | 0 <= i < n ensures Timely(states[i], ttl as real) {
      PromptIsTimely(states[i], ttl, delay);
    }
    NoTwoWorkersSync(ttl as real, states, moves, n, v, w);
  }

  /** Leases can lapse: one worker, and time. */
  lemma {:induction false} LapseCounterexample(ttl: real, user: UserId) returns (states: seq<State>, moves: seq<Move>)
    requires ttl > 0.0
    ensures IsRun(ttl, states, moves) && |moves| == 3
    ensures states[0].workers == map[] && states[1].now == 0.0 && states[2].now == ttl
    ensures states[1].workers == states[2].workers == map[0 := Worker(user, Syncing, 0.0)]
    ensures var s := states[|moves|];
            && 0 in s.workers && s.workers[0] == Worker(user, Syncing, 0.0)
            && 1 in s.workers && s.workers[1] == Worker(user, Syncing, ttl)
  {
    moves := [Start(0, user), Elapse(ttl), Start(1, user)];
    var a := Apply(IDLE, ttl, moves[0]);
    var b := Apply(a, ttl, moves[1]);
    states := [IDLE, a, b, Apply(b, ttl, moves[2])];
  }

  /** Two workers are in the sync body for one user. */
  ghost predicate Overlaps(s: State) {
    exists v, w ::
      && v in s.workers && s.workers[v].stage.Syncing?
      && w in s.workers && s.workers[w].stage.Syncing?
      && s.workers[v].user == s.workers[w].user && v != w
  }

  /** In every run that is prompt up to some state, no workers overlap in that state. */
  ghost predicate SlackSuffices(ttl: nat, delay: real) {
    forall states: seq<State>, moves: seq<Move> ::
      IsRun(ttl as real, states, moves) && (forall i :: 0 <= i < |moves| ==> Prompt(states[i], ttl, delay)) ==>
        !Overlaps(states[|moves|])
  }

  /** Of any lease, the renewals may be late by less than the lease after one interval, and by no more. */
  lemma {:induction false} SlackSufficesIff(ttl: nat, delay: real)
    requires ttl > 0
    ensures SlackSuffices(ttl, delay) <==> delay < ttl as real - Interval(ttl) as real
  {
    if delay < ttl as real - Interval(ttl) as real {
      forall states: seq<State>, moves: seq<Move> |
        IsRun(ttl as real, states, moves) && forall i :: 0 <= i < |moves| ==> Prompt(states[i], ttl, delay)
        ensures !Overlaps(states[|moves|])
      {
        if v, w :| v in states[|moves|].workers && states[|moves|].workers[v].stage.Syncing?
                   && w in states[|moves|].workers && states[|moves|].workers[w].stage.Syncing?
                   && states[|moves|].workers[v].user == states[|moves|].workers[w].user && v != w {
          PromptWorkersDoNotOverlap(ttl, delay, states, moves, |moves|, v, w);
          assert false;
        }
      }
    } else {
      var states, moves := LapseCounterexample(ttl as real, "");
      assert forall i :: 0 <= i < |moves| ==> Prompt(states[i], ttl, delay);
      assert Overlaps(states[|moves|]);
    }
  }
}
