/** What backfilled_ counts: exactly the jobs started ahead of a job that arrived earlier and still waits. */
module Overtaking {
  import opened Seqs
  import opened Model
  import opened Machine
  import opened Invariant
  import opened Events
  import opened Drains
  import opened Runs

  predicate NewlyStarted(s: State, t: State, j: nat)
  {
    j < |s.jobs| && j < |t.jobs| && s.jobs[j].state == Queued && t.jobs[j].state != Queued
  }

  /** j started between s and t while the head left behind had arrived before it. */
  predicate Overtook(s: State, t: State, j: nat)
  {
    && NewlyStarted(s, t, j)
    && t.pending != [] && t.pending[0] < |t.jobs| && ArrivesBefore(t.jobs, t.pending[0], j)
  }

  ghost predicate SameOrder(s: State, t: State)
  {
    |s.jobs| == |t.jobs| && forall j :: 0 <= j < |s.jobs| ==> s.jobs[j].submitTime == t.jobs[j].submitTime
  }

  // ----- phase 1 overtakes nobody -----

  /** Whoever started since b arrived before everybody who still waits. */
  ghost predicate InTurn(b: State, t: State)
  {
    && SameOrder(b, t) && t.backfilled == b.backfilled
    && forall j: nat, i: nat :: NewlyStarted(b, t, j) && i < |t.pending| && t.pending[i] < |t.jobs|
         ==> ArrivesBefore(t.jobs, j, t.pending[i])
  }

  lemma InTurnMove(c: Config, b: State, t: State, m: Move)
    requires Inv(c, t) && Allowed(c, t, m) && m.k == 0 && InTurn(b, t)
    ensures InTurn(b, Apply(t, m))
  {
    InvShape(c, t);
    HeadStarts(t, m.n, m.cursor, m.backfilled);
    hide Inv, Allowed, Ordered, Stamped, Apply, InTurn;
    InTurnHead(b, t, Apply(t, m));
  }

  lemma HeadStarts(t: State, n: nat, cursor: nat, backfilled: nat)
    requires t.pending != [] && t.pending[0] < |t.jobs| && n < |t.nodes|
    ensures var u := Begin(t, 0, n, cursor, backfilled);
            && u.pending == t.pending[1..] && u.backfilled == backfilled
            && u.jobs == t.jobs[t.pending[0] := StartedJob(t.jobs[t.pending[0]], t.now, n)]
  {
  }

  lemma InTurnHead(b: State, t: State, u: State)
    requires InTurn(b, t) && Ordered(t.jobs, t.pending, t.now) && t.pending != [] && t.pending[0] < |t.jobs|
    requires u.pending == t.pending[1..] && u.backfilled == t.backfilled && |u.jobs| == |t.jobs|
    requires forall j :: 0 <= j < |t.jobs| ==> u.jobs[j].submitTime == t.jobs[j].submitTime
    requires forall j :: 0 <= j < |t.jobs| && j != t.pending[0] ==> u.jobs[j] == t.jobs[j]
    ensures InTurn(b, u)
  {
    forall j: nat, i: nat | NewlyStarted(b, u, j) && i < |u.pending| && u.pending[i] < |u.jobs|
      ensures ArrivesBefore(u.jobs, j, u.pending[i])
    {
      assert u.pending[i] == t.pending[i + 1];
      if j == t.pending[0] {
        BacklogOrder(t, i + 1);
      } else {
        assert NewlyStarted(b, t, j);
        assert ArrivesBefore(t.jobs, j, t.pending[i + 1]);
      }
    }
  }

  lemma BacklogOrder(t: State, i: nat)
    requires Ordered(t.jobs, t.pending, t.now) && 0 < i < |t.pending|
    ensures t.pending[0] < |t.jobs| && t.pending[i] < |t.jobs| && ArrivesBefore(t.jobs, t.pending[0], t.pending[i])
  {
  }

  // ----- phase 2 counts whom it starts -----

  /** js lists the jobs started since u; each arrived after the unchanged head; the count tells how many. */
  ghost predicate Listed(u: State, t: State, js: seq<nat>)
  {
    && SameOrder(u, t) && NoDup(js) && t.backfilled == u.backfilled + |js|
    && t.pending != [] && u.pending != [] && t.pending[0] == u.pending[0] < |t.jobs|
    && (forall j :: 0 <= j < |t.jobs| && t.jobs[j].state == Queued ==> u.jobs[j].state == Queued)
    && (forall j: nat :: j in js <==> NewlyStarted(u, t, j))
    && (forall j: nat :: j in js ==> j < |t.jobs| && ArrivesBefore(t.jobs, t.pending[0], j))
  }

  ghost predicate Counts(u: State, t: State)
  {
    exists js :: Listed(u, t, js)
  }

  lemma ListedMove(u: State, t: State, m: Move, js: seq<nat>)
    requires Listed(u, t, js)
    requires 0 < m.k < |t.pending| && t.pending[m.k] < |t.jobs| && m.n < |t.nodes|
    requires t.jobs[t.pending[m.k]].state == Queued && m.backfilled == t.backfilled + 1
    requires ArrivesBefore(t.jobs, t.pending[0], t.pending[m.k])
    ensures Listed(u, Apply(t, m), js + [t.pending[m.k]])
  {
    var id, v, ks := t.pending[m.k], Apply(t, m), js + [t.pending[m.k]];
    assert v.jobs == t.jobs[id := StartedJob(t.jobs[id], t.now, m.n)];
    assert v.pending[0] == t.pending[0] && v.backfilled == t.backfilled + 1;
    hide Apply;
    assert !NewlyStarted(u, t, id) && id !in js;
    assert NoDup(ks);
    assert SameOrder(u, v);
    forall j: nat
      ensures j in ks <==> NewlyStarted(u, v, j)
    {
      assert j in ks <==> j in js || j == id;
    }
    forall j: nat | j in ks
      ensures j < |v.jobs| && ArrivesBefore(v.jobs, v.pending[0], j)
    {
      assert j in js || j == id;
    }
  }

  lemma CountsMove(c: Config, u: State, t: State, m: Move)
    requires Inv(c, t) && Allowed(c, t, m) && m.k > 0 && Counts(u, t)
    ensures Counts(u, Apply(t, m))
  {
    hide Inv, Listed, HeadBlocked, AdmissibleAt;
    var js :| Listed(u, t, js);
    PendingFacts(c, t, m.k);
    ListedMove(u, t, m, js);
  }

  // ----- drains, steps, runs -----

  lemma InTurnIgnoresCursor(b: State, t: State, cursor: nat)
    requires InTurn(b, t)
    ensures InTurn(b, WithCursor(t, cursor))
  {
    forall j: nat | NewlyStarted(b, WithCursor(t, cursor), j)
      ensures NewlyStarted(b, t, j)
    {
    }
  }

  lemma InTurnStart(b: State)
    ensures InTurn(b, b)
  {
  }

  lemma Phase1InTurn(c: Config, b: State)
    requires Inv(c, b) && NoEnd(b.queue)
    ensures InTurn(b, Phase1(c, b))
  {
    hide Inv, NoEnd, InTurn, Phase1, HeadBlocked, AdmissibleAt;
    var P := (t: State) => InTurn(b, t);
    forall t: State, m: Move | Inv(c, t) && NoEnd(t.queue) && Allowed(c, t, m) && P(t) && m.k == 0
      ensures P(Apply(t, m))
    {
      InTurnMove(c, b, t, m);
    }
    InTurnStart(b);
    forall t: State, cursor: nat | P(t)
      ensures P(WithCursor(t, cursor))
    {
      InTurnIgnoresCursor(b, t, cursor);
    }
    Phase1Induction(c, b, P);
  }

  lemma CountsStart(c: Config, u: State)
    requires Inv(c, u) && u.pending != []
    ensures Counts(u, u)
  {
    PendingFacts(c, u, 0);
    hide Inv;
    assert Listed(u, u, []);
  }

  lemma CountsIgnoresCursor(u: State, t: State, cursor: nat)
    requires Counts(u, t)
    ensures Counts(u, WithCursor(t, cursor))
  {
    var js :| Listed(u, t, js);
    assert Listed(u, WithCursor(t, cursor), js);
  }

  lemma Phase2Counts(c: Config, u: State)
    requires Inv(c, u) && NoEnd(u.queue) && u.pending != [] && HeadBlocked(u)
    ensures Counts(u, Phase2(c, u))
  {
    hide Inv, NoEnd, Counts, Phase2, HeadBlocked, AdmissibleAt;
    var P := (t: State) => Counts(u, t);
    forall t: State, m: Move | Inv(c, t) && NoEnd(t.queue) && Allowed(c, t, m) && P(t) && m.k > 0
      ensures P(Apply(t, m))
    {
      CountsMove(c, u, t, m);
    }
    forall t: State, cursor: nat | P(t)
      ensures P(WithCursor(t, cursor))
    {
      CountsIgnoresCursor(u, t, cursor);
    }
    CountsStart(c, u);
    Phase2Induction(c, u, P);
  }

  /** js lists the overtakers between s and t once each, and they are as many as the count went up by. */
  ghost predicate ListedBetween(s: State, t: State, js: seq<nat>)
  {
    NoDup(js) && t.backfilled == s.backfilled + |js| && forall j: nat :: j in js <==> Overtook(s, t, j)
  }

  ghost predicate CountedBetween(s: State, t: State)
  {
    exists js :: ListedBetween(s, t, js)
  }

  lemma JoinPhases(b: State, u: State, t: State)
    requires InTurn(b, u) && Counts(u, t)
    requires |u.jobs| == |t.jobs| && forall j :: 0 <= j < |b.jobs| && b.jobs[j].state != Queued ==> u.jobs[j].state != Queued
    requires forall j :: 0 <= j < |u.jobs| && u.jobs[j].state != Queued ==> t.jobs[j].state != Queued
    ensures CountedBetween(b, t)
  {
    var js :| Listed(u, t, js);
    forall j: nat
      ensures j in js <==> Overtook(b, t, j)
    {
      if NewlyStarted(b, u, j) {
        assert ArrivesBefore(u.jobs, j, u.pending[0]);
      }
    }
    assert ListedBetween(b, t, js);
  }

  lemma DrainCounts(c: Config, b: State)
    requires Inv(c, b) && NoEnd(b.queue)
    ensures CountedBetween(b, Drain(c, b))
  {
    hide Inv, NoEnd, HeadBlocked, Phase1, Phase2, InTurn, Counts, CountedBetween, Follows;
    Phase1InTurn(c, b);
    PhasesFollow(c, b);
    var u := Phase1(c, b);
    FollowsStates(b, u);
    if u.pending == [] {
      InTurnCount(b, u);
      NobodyOvertook(b, u);
    } else {
      Phase2Counts(c, u);
      PhasesFollow(c, u);
      FollowsStates(u, Phase2(c, u));
      JoinPhases(b, u, Phase2(c, u));
    }
  }

  lemma FollowsStates(s: State, t: State)
    requires Follows(s, t)
    ensures |s.jobs| == |t.jobs|
    ensures forall j :: 0 <= j < |s.jobs| && s.jobs[j].state != Queued ==> t.jobs[j].state != Queued
  {
  }

  lemma NobodyOvertook(s: State, t: State)
    requires t.backfilled == s.backfilled && (t.pending == [] || forall j: nat :: !NewlyStarted(s, t, j))
    ensures CountedBetween(s, t)
  {
    assert ListedBetween(s, t, []);
  }

  lemma InTurnCount(b: State, u: State)
    requires InTurn(b, u)
    ensures u.backfilled == b.backfilled
  {
  }

  lemma SameStatesCount(b: State, t: State, s: State, v: State)
    requires CountedBetween(b, t)
    requires s.backfilled == b.backfilled && v.backfilled == t.backfilled && v.jobs == t.jobs && v.pending == t.pending
    requires |s.jobs| == |b.jobs| && forall j :: 0 <= j < |s.jobs| ==> (b.jobs[j].state == Queued <==> s.jobs[j].state == Queued)
    ensures CountedBetween(s, v)
  {
    var js :| ListedBetween(b, t, js);
    assert ListedBetween(s, v, js);
  }

  lemma StepCounts(c: Config, s: State)
    requires Between(c, s) && s.queue != []
    ensures CountedBetween(s, Step(c, s))
  {
    hide Inv, Settled, Counted, Drain, BeforeDrain, NoEnd, CountedBetween;
    if NextEvent(s).payload.SimEnd? {
      StepEnd(c, s);
      NobodyOvertook(s, Step(c, s));
    } else {
      BeforeDrainInv(c, s);
      BeforeDrainStates(c, s);
      DrainCounts(c, BeforeDrain(s));
      SameStatesCount(BeforeDrain(s), Drain(c, BeforeDrain(s)), s, Step(c, s));
    }
  }

  lemma BeforeDrainStates(c: Config, s: State)
    requires Inv(c, s) && s.queue != [] && !NextEvent(s).payload.SimEnd?
    ensures |BeforeDrain(s).jobs| == |s.jobs| && BeforeDrain(s).backfilled == s.backfilled
    ensures forall j :: 0 <= j < |s.jobs| ==> (BeforeDrain(s).jobs[j].state == Queued <==> s.jobs[j].state == Queued)
  {
    hide Inv;
    if NextEvent(s).payload.JobFinish? {
      FinishIsExpected(c, s, NextEvent(s).payload.job, NextEvent(s).payload.node);
    }
  }

  /**
   * At every event the backfill count grows by exactly the number of jobs started while a job that
   * arrived before them was left waiting.
   */
  lemma {:induction false} BackfilledCountsOvertakers(c: Config, n: nat)
    requires WellFormed(c) && n < Length(c)
    ensures CountedBetween(At(c, n), At(c, n + 1))
  {
    hide Step, Between;
    RunInvariant(c, n);
    LengthIsExact(c, n);
    StepCounts(c, At(c, n));
  }

  // ----- the whole run -----

  /** j started ahead of a waiting earlier arrival in one of the first n events. */
  ghost predicate OvertookWithin(c: Config, n: nat, j: nat)
  {
    exists m: nat :: m < n && Overtook(At(c, m), At(c, m + 1), j)
  }

  ghost predicate ListsOvertakers(c: Config, n: nat, js: seq<nat>)
  {
    NoDup(js) && |js| == At(c, n).backfilled && forall j: nat :: j in js <==> OvertookWithin(c, n, j)
  }

  /** A job overtakes once: having started it does not start again. */
  lemma OvertakesOnce(c: Config, m: nat, n: nat, j: nat)
    requires WellFormed(c) && m < n && Overtook(At(c, m), At(c, m + 1), j)
    ensures !Overtook(At(c, n), At(c, n + 1), j)
  {
    hide At;
    RunAdvances(c, m + 1, n);
  }

  lemma ListGrows(c: Config, n: nat, js: seq<nat>, ks: seq<nat>)
    requires WellFormed(c) && ListsOvertakers(c, n, js)
    requires ListedBetween(At(c, n), At(c, n + 1), ks)
    ensures ListsOvertakers(c, n + 1, js + ks)
  {
    hide At, Overtook;
    forall j: nat | j in js
      ensures j !in ks
    {
      var m: nat :| m < n && Overtook(At(c, m), At(c, m + 1), j);
      OvertakesOnce(c, m, n, j);
    }
    NoDupTogether(js, ks);
    forall j: nat
      ensures j in js + ks <==> OvertookWithin(c, n + 1, j)
    {
      WithinGrows(c, n, j);
    }
  }

  lemma NoDupTogether(js: seq<nat>, ks: seq<nat>)
    requires NoDup(js) && NoDup(ks) && forall j :: j in js ==> j !in ks
    ensures NoDup(js + ks)
  {
    forall i, k | 0 <= i < k < |js + ks|
      ensures (js + ks)[i] != (js + ks)[k]
    {
      if i < |js| <= k { assert js[i] in js && ks[k - |js|] in ks; }
    }
  }

  lemma WithinGrows(c: Config, n: nat, j: nat)
    ensures OvertookWithin(c, n + 1, j) <==> OvertookWithin(c, n, j) || Overtook(At(c, n), At(c, n + 1), j)
  {
    hide At, Overtook;
    if OvertookWithin(c, n + 1, j) {
      var m: nat :| m < n + 1 && Overtook(At(c, m), At(c, m + 1), j);
    }
  }

  lemma NobodyYet(c: Config)
    ensures ListsOvertakers(c, 0, [])
  {
  }

  lemma {:induction false} OvertakersUpTo(c: Config, n: nat) returns (js: seq<nat>)
    requires WellFormed(c) && n <= Length(c)
    ensures ListsOvertakers(c, n, js)
  {
    hide At, Overtook, Length, ListsOvertakers, WellFormed;
    if n == 0 {
      js := [];
      NobodyYet(c);
    } else {
      var m := n - 1;
      js := OvertakersUpTo(c, m);
      BackfilledCountsOvertakers(c, m);
      var ks :| ListedBetween(At(c, m), At(c, m + 1), ks);
      ListGrows(c, m, js, ks);
      js := js + ks;
    }
  }

  /**
   * Over a whole run the backfill count is the number of different jobs that started, at any event,
   * while a job that had arrived before them was left waiting.
   */
  lemma {:induction false} BackfilledIsTheNumberOfOvertakers(c: Config)
    requires WellFormed(c)
    ensures exists js: seq<nat> ::
              && NoDup(js) && |js| == Final(c).backfilled
              && forall j: nat :: j in js <==> exists n: nat :: n < Length(c) && Overtook(At(c, n), At(c, n + 1), j)
  {
    hide At, Overtook;
    var js := OvertakersUpTo(c, Length(c));
    LengthIsExact(c, Length(c));
    assert forall j: nat :: j in js <==> OvertookWithin(c, Length(c), j);
  }
}
