/**
 What each coroutine of the single flight gets and leaves behind: its outcome tells what
 happened to it, a cached embedding is answered without waiting, and an answer is cached.
 */
module FlightAnswers {
  import opened Text
  import opened EmbeddingCache
  import opened SingleFlight

  // ---------- outcomes ----------

  /** A read of the shared cache, the provider or the write to the shared cache raised. */
  predicate Fails(action: Action) {
    action == Read(Broken) || action == ReadAgain(Broken) || action == Computed(false) || action == Stored(false)
  }

  ghost predicate HasFailed(moves: seq<Move>, i: nat) {
    exists j :: 0 <= j < |moves| && moves[j].Act? && moves[j].i == i && Fails(moves[j].action)
  }

  ghost predicate WasCancelled(moves: seq<Move>, i: nat) {
    exists j :: 0 <= j < |moves| && moves[j] == Act(i, Cancel)
  }

  function OutcomeOf(p: Place): Option<Outcome> {
    match p
    case Leaving(_, outcome) => Some(outcome)
    case Done(outcome) => Some(outcome)
    case _ => None
  }

  /** A coroutine has the outcome that its actions brought about, and none before they did. */
  ghost predicate OutcomeIsOwn(s: State, moves: seq<Move>, i: nat) {
    var outcome := if i in s.callers then OutcomeOf(s.callers[i].place) else None;
    && (HasFailed(moves, i) <==> outcome == Some(Raised))
    && (WasCancelled(moves, i) <==> outcome == Some(Cancelled))
  }

  lemma {:induction false} OneMoreMove(moves: seq<Move>, m: Move, i: nat)
    ensures HasFailed(moves + [m], i) <==> HasFailed(moves, i) || (m.Act? && m.i == i && Fails(m.action))
    ensures WasCancelled(moves + [m], i) <==> WasCancelled(moves, i) || m == Act(i, Cancel)
  {
    var more := moves + [m];
    assert more[|moves|] == m;
    assert forall j :: 0 <= j < |moves| ==> more[j] == moves[j];
  }

  lemma {:induction false} ActionGivesOutcome(c: Common, caller: Caller, embed: string -> Embedding, action: Action)
    requires Ready(c, caller, action)
    ensures var before, after := OutcomeOf(caller.place), OutcomeOf(Perform(c, caller, embed, action).place);
            && (Fails(action) || action.Cancel? ==> before.None?)
            && (after == Some(Raised) <==> Fails(action) || before == Some(Raised))
            && (after == Some(Cancelled) <==> action.Cancel? || before == Some(Cancelled))
  {
  }

  lemma {:induction false} OutcomeIsOwnKept(s: State, embed: string -> Embedding, moves: seq<Move>, m: Move, i: nat)
    requires Enabled(s, m) && OutcomeIsOwn(s, moves, i)
    ensures OutcomeIsOwn(Apply(s, embed, m), moves + [m], i)
  {
    OneMoreMove(moves, m, i);
    if m.Act? {
      ActionGivesOutcome(s.common, s.callers[m.i], embed, m.action);
    }
  }

  /**
   In every run a coroutine that is done raised exactly if one of its own reads, computations or
   writes did, was cancelled exactly if it was told to, and otherwise returned an embedding.
   */
  lemma {:induction false} OutcomesAreOwn(embed: string -> Embedding, states: seq<State>, moves: seq<Move>, n: nat,
                                          i: nat)
    requires IsRun(embed, states, moves) && n < |states|
    ensures OutcomeIsOwn(states[n], moves[..n], i)
  {
    if n > 0 {
      OutcomesAreOwn(embed, states, moves, n - 1, i);
      OutcomeIsOwnKept(states[n - 1], embed, moves[..n - 1], moves[n - 1], i);
      assert moves[..n] == moves[..n - 1] + [moves[n - 1]];
    }
  }

  // ---------- caches ----------

  /** A coroutine whose key is in the process cache is answered from there by its first action; no cache changes. */
  lemma {:induction false} CachedKeyIsAnswered(s: State, embed: string -> Embedding, i: nat)
    requires i in s.callers && s.callers[i].place.Started? && s.callers[i].key in s.common.process
    ensures var t := Apply(s, embed, Act(i, Check));
            && t.common == s.common
            && t.callers[i].place == Done(Returned(s.common.process[s.callers[i].key]))
  {
  }

  /**
   An action that settles on an embedding leaves it in the process cache; the provider's embedding
   goes there before it is written to the shared cache, from which it is then returned.
   */
  lemma {:induction false} AnswersAreCached(c: Common, caller: Caller, embed: string -> Embedding, action: Action)
    requires Ready(c, caller, action)
    ensures var effect := Perform(c, caller, embed, action);
            var outcome := OutcomeOf(effect.place);
            && (OutcomeOf(caller.place).None? && outcome.Some? && outcome.value.Returned? && !action.Stored? ==>
                 caller.key in effect.common.process
                 && effect.common.process[caller.key] == outcome.value.embedding)
            && (action == Computed(true) ==>
                 caller.key in effect.common.process && effect.common.process[caller.key] == embed(caller.key))
            && (action == Stored(true) ==>
                 caller.key in effect.common.shared && outcome == Some(Returned(caller.place.result))
                 && effect.common.shared[caller.key] == caller.place.result)
  {
  }

  /** Beside the lock counter an action touches what belongs to its own key only. */
  lemma {:induction false} OtherKeysAreUntouched(c: Common, caller: Caller, embed: string -> Embedding, action: Action)
    requires Ready(c, caller, action)
    ensures var after := Perform(c, caller, embed, action).common;
            && after.process - {caller.key} == c.process - {caller.key}
            && after.shared - {caller.key} == c.shared - {caller.key}
            && after.flights - {caller.key} == c.flights - {caller.key}
            && after.computations ==
               if action == ReadAgain(Miss) then c.computations + multiset{caller.key} else c.computations
  {
  }
}
