/*
 * The administrator side of the giveaway cog: fake fills (a plan row, a
 * background run that inserts synthetic entries one at a time and a resume
 * sweep over the plans), forced winners and cancellation. The cog's own
 * state is the registry of running fills; the tables are the giveaway
 * store's.
 */
module GiveawayAdmin {
  import opened Common
  import opened GiveawayCore

  const MinFakeReactions: int := 1
  const MaxFakeReactions: int := 1000
  const MinFakeMinutes: int := 1
  const MaxFakeMinutes: int := 10080

  // ---------------------------------------------------------------------
  // Synthetic entries
  // ---------------------------------------------------------------------

  /** The user id of the n-th synthetic entry made from a member. */
  function FakeId(member: string, n: nat): string
  {
    member + "_fake_" + NatToString(n)
  }

  /** For a member id made of digits, the entries list recovers the member from the synthetic id. */
  lemma FakeIdOriginal(member: string, n: nat)
    requires AllDigits(member)
    ensures OriginalId(FakeId(member, n)) == member
  {
    var f := FakeId(member, n);
    assert f[..|member|] == member;
    assert f[|member|..|member| + 6] == "_fake_";
    assert OccursAt(f, "_fake_", |member|);
    assert Contains(f, "_fake_");
    var i := Find(f, "_fake_");
    assert i <= |member|;
    assert f[i] == '_';
    assert i >= |member|;
    assert f[..i] == member;
  }

  /** A fake row of this giveaway that carries a non-empty original user id. */
  predicate MarksMember(r: Participant, msgId: string)
  {
    r.messageId == msgId && r.isFake && r.originalUserId.Some? && r.originalUserId.value != ""
  }

  /** `used_ids`: the original user ids already used by fake rows. */
  function UsedOriginals(rows: seq<Participant>, msgId: string): set<string>
  {
    set i | 0 <= i < |rows| && MarksMember(rows[i], msgId) :: rows[i].originalUserId.value
  }

  /** `available`: the members not used yet, or every member when none is left. */
  function Available(members: seq<string>, used: set<string>): (a: seq<string>)
    ensures forall u :: u in a ==> u in members
    ensures |a| == 0 <==> |members| == 0
    ensures (exists u :: u in members && u !in used) ==> forall u :: u in a <==> u in members && u !in used
    ensures (forall u :: u in members ==> u in used) ==> a == members
  {
    var unused := Filter(members, u => u !in used);
    assert unused != [] ==> unused[0] in unused;
    if unused == [] then members else unused
  }

  /** The member `random.choice` picks is a member, and an unused one while any is left. */
  lemma FakeMemberChoice(members: seq<string>, used: set<string>, pick: nat)
    requires members != []
    ensures Choice(Available(members, used), pick) in members
    ensures (exists u :: u in members && u !in used) ==> Choice(Available(members, used), pick) !in used
  {
  }

  /** Every member the rule allows can be the one picked. */
  lemma FakeMemberReachable(members: seq<string>, used: set<string>, u: string)
    requires u in members
    requires u !in used || forall v :: v in members ==> v in used
    ensures exists pick: nat :: Choice(Available(members, used), pick) == u
  {
    var a := Available(members, used);
    assert u in a;
    var i :| 0 <= i < |a| && a[i] == u;
    ChoiceComplete(a, i);
  }

  // ---------------------------------------------------------------------
  // The fill run
  // ---------------------------------------------------------------------

  /**
   * What one pass of the fill loop meets: the clock, whether the fill task was
   * cancelled while it slept, the index `random.choice` takes, whether the
   * message edit raised, and whether the random delay overshoots the end.
   */
  datatype FillStep = FillStep(now: int, cancelled: bool, pick: nat, editError: Option<string>, overrun: bool)

  /**
   * The environment of one fill run: whether the giveaway system is up,
   * whether fetching the channel or message raised, the passes, and the
   * clock when the final update is written.
   */
  datatype FillEnv = FillEnv(systemUp: bool, startError: Option<string>, step: nat -> FillStep, finishedAt: int)

  datatype FillEnd = FillNotRun | FillNoGiveaway | FillCompleted | FillCancelled | FillFailed(message: string)

  /** The participants table, the remaining counter and the way the loop ended. */
  datatype FillRun = FillRun(rows: seq<Participant>, remaining: nat, end: FillEnd)

  /** The message of the IndexError `random.choice([])` raises. */
  const EmptyChoice: string := "Cannot choose from an empty sequence"

  /** The row a pass inserts for the picked member, unless a row with that key exists. */
  function PassRows(rows: seq<Participant>, msgId: string, u: string, k: nat, now: int): (r: seq<Participant>)
    ensures r == rows || r == rows + [Participant(msgId, FakeId(u, k), now, false, true, Some(u))]
    ensures UniqueKeys(rows) ==> UniqueKeys(r)
  {
    var f := FakeId(u, k);
    if HasAnyRow(rows, msgId, f) then rows
    else
      var row := Participant(msgId, f, now, false, true, Some(u));
      assert forall i :: 0 <= i < |rows| ==> rows[i].messageId != row.messageId || rows[i].userId != row.userId;
      rows + [row]
  }

  /** `f` reads `<member>_fake_<n>` with the serial n written in digits and below `total`. */
  predicate FakeOf(f: string, member: string, total: nat)
  {
    var m := |member| + 6;
    m < |f| && f[..m] == member + "_fake_" && AllDigits(f[m..]) && DigitsValue(f[m..]) < total
  }

  lemma FakeIdFakeOf(member: string, n: nat, total: nat)
    requires n < total
    ensures FakeOf(FakeId(member, n), member, total)
  {
    var f := FakeId(member, n);
    var m := |member| + 6;
    assert f[m..] == NatToString(n);
    assert f[..m] == member + "_fake_";
    NatToStringRoundTrip(n);
  }

  /** A row one fill run may add: a fake entry `<member>_fake_<n>` for a member, with n below the total. */
  predicate FillRow(r: Participant, msgId: string, members: seq<string>, total: nat)
  {
    r.messageId == msgId && r.isFake && !r.isForced &&
    r.originalUserId.Some? && r.originalUserId.value in members &&
    FakeOf(r.userId, r.originalUserId.value, total)
  }

  lemma AppendKeys(rows: seq<Participant>, row: Participant)
    requires UniqueKeys(rows) && !HasAnyRow(rows, row.messageId, row.userId)
    ensures UniqueKeys(rows + [row])
  {
    assert forall i :: 0 <= i < |rows| ==> rows[i].messageId != row.messageId || rows[i].userId != row.userId;
  }

  /** One pass of the loop that goes on to the next pass. */
  predicate Continues(st: FillStep, endTime: int, active: bool, members: seq<string>)
  {
    !st.cancelled && st.now < endTime && active && members != []
  }

  /** The synthetic entry of pass k for one of the members. */
  predicate PassRow(r: Participant, msgId: string, members: seq<string>, k: nat)
  {
    r.messageId == msgId && r.isFake && !r.isForced &&
    r.originalUserId.Some? && r.originalUserId.value in members && r.userId == FakeId(r.originalUserId.value, k)
  }

  /** The rows after the pass with index k: at most one synthetic entry more. */
  function NextRows(rows: seq<Participant>, msgId: string, members: seq<string>, k: nat, st: FillStep): (r: seq<Participant>)
    requires members != []
    ensures r == rows || (|r| == |rows| + 1 && r[..|rows|] == rows && PassRow(r[|rows|], msgId, members, k))
  {
    var u := Choice(Available(members, UsedOriginals(rows, msgId)), st.pick);
    var r := PassRows(rows, msgId, u, k, st.now);
    assert r != rows ==> r[..|rows|] == rows;
    r
  }

  lemma NextRowsKeys(rows: seq<Participant>, msgId: string, members: seq<string>, k: nat, st: FillStep)
    requires members != []
    ensures UniqueKeys(rows) ==> UniqueKeys(NextRows(rows, msgId, members, k, st))
  {
  }

  /**
   * `after` is `rows` followed by at most `n` rows, each a synthetic entry
   * of a run for these members with a pass index below `total`.
   */
  ghost predicate Extends(rows: seq<Participant>, after: seq<Participant>, n: nat,
                          msgId: string, members: seq<string>, total: nat)
  {
    |rows| <= |after| <= |rows| + n && after[..|rows|] == rows &&
    forall i :: |rows| <= i < |after| ==> FillRow(after[i], msgId, members, total)
  }

  lemma ExtendsTrans(a: seq<Participant>, b: seq<Participant>, c: seq<Participant>, n: nat, m: nat,
                     msgId: string, members: seq<string>, total: nat)
    requires Extends(a, b, n, msgId, members, total) && Extends(b, c, m, msgId, members, total)
    ensures Extends(a, c, n + m, msgId, members, total)
  {
    assert c[..|a|] == c[..|b|][..|a|];
  }

  lemma ExtendsStep(rows: seq<Participant>, msgId: string, members: seq<string>, k: nat, st: FillStep, total: nat)
    requires members != [] && k < total
    ensures Extends(rows, NextRows(rows, msgId, members, k, st), 1, msgId, members, total)
  {
    var r := NextRows(rows, msgId, members, k, st);
    if r != rows {
      FakeIdFakeOf(r[|rows|].originalUserId.value, k, total);
    }
  }

  /**
   * How a run ends, counted without the table: the remaining counter and
   * the ending, from whether the giveaway is active, whether there are
   * members to pick from, and the passes.
   */
  function Outcome(active: bool, hasMembers: bool, total: nat, endTime: int, step: nat -> FillStep,
                   remaining: nat): (o: (nat, FillEnd))
    requires remaining <= total
    ensures o.0 <= remaining
    ensures o.1 == FillCompleted || o.1 == FillCancelled || o.1.FillFailed?
    decreases remaining
  {
    if remaining == 0 then (0, FillCompleted)
    else
      var st := step(total - remaining);
      if st.cancelled then (remaining, FillCancelled)
      else if st.now >= endTime || !active then (remaining, FillCompleted)
      else if !hasMembers then (remaining, FillFailed(EmptyChoice))
      else if st.editError.Some? then (remaining - 1, FillFailed(st.editError.value))
      else if st.overrun then (remaining - 1, FillCompleted)
      else Outcome(active, hasMembers, total, endTime, step, remaining - 1)
  }

  /**
   * The fill loop from a given remaining count on. The fallback list is
   * empty only when the member list is, and then `random.choice` raises.
   * The table never changes how the loop ends.
   */
  function FillLoop(rows: seq<Participant>, msgId: string, active: bool, members: seq<string>,
                    total: nat, endTime: int, step: nat -> FillStep, remaining: nat): (run: FillRun)
    requires remaining <= total
    ensures (run.remaining, run.end) == Outcome(active, members != [], total, endTime, step, remaining)
    ensures !active ==> run.rows == rows
    ensures Extends(rows, run.rows, remaining - run.remaining, msgId, members, total)
    ensures UniqueKeys(rows) ==> UniqueKeys(run.rows)
    decreases remaining
  {
    if remaining == 0 then FillRun(rows, 0, FillCompleted)
    else
      var k := total - remaining;
      var st := step(k);
      if st.cancelled then FillRun(rows, remaining, FillCancelled)
      else if st.now >= endTime || !active then FillRun(rows, remaining, FillCompleted)
      else if members == [] then FillRun(rows, remaining, FillFailed(EmptyChoice))
      else
        var rows' := NextRows(rows, msgId, members, k, st);
        ExtendsStep(rows, msgId, members, k, st, total);
        NextRowsKeys(rows, msgId, members, k, st);
        if st.editError.Some? then FillRun(rows', remaining - 1, FillFailed(st.editError.value))
        else if st.overrun then FillRun(rows', remaining - 1, FillCompleted)
        else
          var run := FillLoop(rows', msgId, active, members, total, endTime, step, remaining - 1);
          ExtendsTrans(rows, rows', run.rows, 1, remaining - 1 - run.remaining, msgId, members, total);
          run
  }

  /** A pass that stops before inserting leaves the rows and the counter as they were. */
  lemma FillLoopStops(rows: seq<Participant>, msgId: string, active: bool, members: seq<string>,
                      total: nat, endTime: int, step: nat -> FillStep, remaining: nat, st: FillStep)
    requires 0 < remaining <= total && st == step(total - remaining)
    requires !Continues(st, endTime, active, members)
    ensures FillLoop(rows, msgId, active, members, total, endTime, step, remaining) ==
            FillRun(rows, remaining,
                    if st.cancelled then FillCancelled
                    else if st.now >= endTime || !active then FillCompleted
                    else FillFailed(EmptyChoice))
  {
  }

  /** A pass that inserts and then fails to edit or would overshoot the end is the last one. */
  lemma FillLoopLastPass(rows: seq<Participant>, msgId: string, active: bool, members: seq<string>,
                         total: nat, endTime: int, step: nat -> FillStep, remaining: nat, st: FillStep)
    requires 0 < remaining <= total && st == step(total - remaining)
    requires Continues(st, endTime, active, members) && (st.editError.Some? || st.overrun)
    ensures FillLoop(rows, msgId, active, members, total, endTime, step, remaining) ==
            FillRun(NextRows(rows, msgId, members, total - remaining, st), remaining - 1,
                    if st.editError.Some? then FillFailed(st.editError.value) else FillCompleted)
  {
  }

  /** A smooth pass hands the grown rows to the next pass. */
  lemma FillLoopGoesOn(rows: seq<Participant>, msgId: string, active: bool, members: seq<string>,
                       total: nat, endTime: int, step: nat -> FillStep, remaining: nat, st: FillStep)
    requires 0 < remaining <= total && st == step(total - remaining)
    requires Continues(st, endTime, active, members) && st.editError.None? && !st.overrun
    ensures FillLoop(rows, msgId, active, members, total, endTime, step, remaining) ==
            FillLoop(NextRows(rows, msgId, members, total - remaining, st), msgId, active, members,
                     total, endTime, step, remaining - 1)
  {
  }

  /** A pass that goes on to the next one: no cancel, before the end, no edit error, no overrun. */
  predicate Smooth(st: FillStep, endTime: int)
  {
    !st.cancelled && st.now < endTime && st.editError.None? && !st.overrun
  }

  lemma {:induction false} OutcomeRunsOut(total: nat, endTime: int, step: nat -> FillStep, remaining: nat)
    requires remaining <= total
    requires forall k: nat :: k < total ==> Smooth(step(k), endTime)
    ensures Outcome(true, true, total, endTime, step, remaining) == (0, FillCompleted)
    decreases remaining
  {
    if remaining > 0 {
      assert Smooth(step(total - remaining), endTime);
      OutcomeRunsOut(total, endTime, step, remaining - 1);
    }
  }

  /** A run that is never interrupted goes through all its passes and completes with nothing left. */
  lemma FillLoopRunsOut(rows: seq<Participant>, msgId: string, members: seq<string>,
                        total: nat, endTime: int, step: nat -> FillStep, remaining: nat)
    requires remaining <= total && members != []
    requires forall k: nat :: k < total ==> Smooth(step(k), endTime)
    ensures var run := FillLoop(rows, msgId, true, members, total, endTime, step, remaining);
            run.end == FillCompleted && run.remaining == 0
  {
    OutcomeRunsOut(total, endTime, step, remaining);
  }

  /** `fake_list`: the user ids of the giveaway's fake rows, in table order. */
  function FakeRowIds(rows: seq<Participant>, msgId: string): (r: seq<string>)
    ensures forall u :: u in r <==> HasRow(rows, msgId, u, true)
  {
    if rows == [] then []
    else
      var r := FakeRowIds(rows[1..], msgId);
      assert forall u :: HasRow(rows[1..], msgId, u, true) ==> HasRow(rows, msgId, u, true) by {
        forall u | HasRow(rows[1..], msgId, u, true) ensures HasRow(rows, msgId, u, true) {
          var i :| 0 <= i < |rows[1..]| && rows[1..][i].messageId == msgId && rows[1..][i].userId == u && rows[1..][i].isFake;
          assert rows[i + 1] == rows[1..][i];
        }
      }
      assert forall u :: HasRow(rows, msgId, u, true) ==> (u == rows[0].userId && rows[0].messageId == msgId && rows[0].isFake) || HasRow(rows[1..], msgId, u, true) by {
        forall u | HasRow(rows, msgId, u, true) ensures (u == rows[0].userId && rows[0].messageId == msgId && rows[0].isFake) || HasRow(rows[1..], msgId, u, true) {
          var i :| 0 <= i < |rows| && rows[i].messageId == msgId && rows[i].userId == u && rows[i].isFake;
          if i > 0 { assert rows[1..][i - 1] == rows[i]; }
        }
      }
      (if rows[0].messageId == msgId && rows[0].isFake then [rows[0].userId] else []) + r
  }

  /** The plan row with the counter the run persisted after its last pass (none when no pass ran). */
  function Counted(p: FakePlan, total: nat, remaining: nat): FakePlan
  {
    if remaining < total then p.(remainingReactions := remaining) else p
  }

  /** The final status update of a run. */
  function Finish(p: FakePlan, end: FillEnd, at: int, fakeIds: seq<string>): FakePlan
  {
    match end
    case FillCompleted =>
      p.(status := PlanCompleted, completedAt := Some(at), remainingReactions := 0, fakeParticipants := fakeIds)
    case FillCancelled => p.(status := PlanCancelled, cancelledAt := Some(at))
    case FillFailed(e) => p.(status := PlanError, error := Some(e))
    case _ => p
  }

  /** The plan row after a run: the persisted counter, then the final status update. */
  function PlanAfter(p: FakePlan, total: nat, run: FillRun, at: int, fakeIds: seq<string>): FakePlan
  {
    Finish(Counted(p, total, run.remaining), run.end, at, fakeIds)
  }

  /** Persisting one more pass's counter over the previous pass's counter. */
  lemma CountedStep(plans: map<string, FakePlan>, msgId: string, total: nat, r: nat)
    requires r < total
    ensures UpdatePlan(UpdatePlan(plans, msgId, (p: FakePlan) => Counted(p, total, r + 1)), msgId,
                       (p: FakePlan) => p.(remainingReactions := r)) ==
            UpdatePlan(plans, msgId, (p: FakePlan) => Counted(p, total, r))
  {
  }

  /** An UPDATE ... WHERE message_id = ? on the plans table: nothing happens without a row. */
  function UpdatePlan(plans: map<string, FakePlan>, msgId: string, f: FakePlan -> FakePlan): (r: map<string, FakePlan>)
    ensures r.Keys == plans.Keys
    ensures forall m :: m in plans && m != msgId ==> r[m] == plans[m]
    ensures msgId in plans ==> r[msgId] == f(plans[msgId])
  {
    if msgId in plans then plans[msgId := f(plans[msgId])] else plans
  }

  // ---------------------------------------------------------------------
  // Resuming a plan
  // ---------------------------------------------------------------------

  /** The total the resume sweep passes to the run, as written: the plan's total_reactions. */
  function ResumeTotalAsWritten(p: FakePlan): nat
  {
    p.totalReactions
  }

  /** The total a resumed run should be given: what the plan still has to add. */
  function ResumeTotal(p: FakePlan): nat
  {
    p.remainingReactions
  }

  function ResumeRows(): seq<Participant>
  {
    [Participant("m", FakeId("a", 0), 0, false, true, Some("a"))]
  }

  function ResumeStep(k: nat): FillStep
  {
    FillStep(0, false, 0, None, false)
  }

  lemma ResumeUsedFirst()
    ensures UsedOriginals(ResumeRows(), "m") == {"a"}
  {
    assert MarksMember(ResumeRows()[0], "m");
  }

  lemma ResumeAvailableFirst()
    ensures Available(["a", "b"], {"a"}) == ["b"]
  {
    var keep := (u: string) => u !in {"a"};
    assert ["a", "b"][1..] == ["b"];
    assert ["b"][1..] == [];
    assert Filter(["b"], keep) == ["b"];
    assert Filter(["a", "b"], keep) == ["b"];
  }

  lemma FakeIdsDiffer()
    ensures FakeId("b", 0) != FakeId("a", 0)
    ensures FakeId("a", 1) != FakeId("a", 0) && FakeId("a", 1) != FakeId("b", 0)
  {
    assert FakeId("b", 0)[0] == 'b' && FakeId("a", 0)[0] == 'a';
    assert NatToString(1) == "1" && NatToString(0) == "0";
    assert FakeId("a", 1)[7] == '1' && FakeId("a", 0)[7] == '0';
    assert FakeId("a", 1)[0] == 'a' && FakeId("b", 0)[0] == 'b';
  }

  function ResumeRowsAfterFirst(): seq<Participant>
  {
    ResumeRows() + [Participant("m", FakeId("b", 0), 0, false, true, Some("b"))]
  }

  lemma ResumeFirstPass()
    ensures FillLoop(ResumeRows(), "m", true, ["a", "b"], 2, 100, ResumeStep, 2)
            == FillLoop(ResumeRowsAfterFirst(), "m", true, ["a", "b"], 2, 100, ResumeStep, 1)
  {
    ResumeUsedFirst();
    ResumeAvailableFirst();
    FakeIdsDiffer();
    assert Choice(["b"], 0) == "b";
    assert !HasAnyRow(ResumeRows(), "m", FakeId("b", 0));
  }

  lemma ResumeUsedSecond()
    ensures UsedOriginals(ResumeRowsAfterFirst(), "m") == {"a", "b"}
  {
    var rows := ResumeRowsAfterFirst();
    assert MarksMember(rows[0], "m") && MarksMember(rows[1], "m");
    assert rows[0].originalUserId.value == "a" && rows[1].originalUserId.value == "b";
  }

  lemma ResumeAvailableSecond()
    ensures Available(["a", "b"], {"a", "b"}) == ["a", "b"]
  {
  }

  function ResumeRowsAfterSecond(): seq<Participant>
  {
    ResumeRowsAfterFirst() + [Participant("m", FakeId("a", 1), 0, false, true, Some("a"))]
  }

  lemma ResumeSecondPass()
    ensures FillLoop(ResumeRowsAfterFirst(), "m", true, ["a", "b"], 2, 100, ResumeStep, 1)
            == FillRun(ResumeRowsAfterSecond(), 0, FillCompleted)
  {
    ResumeUsedSecond();
    ResumeAvailableSecond();
    FakeIdsDiffer();
    assert Choice(["a", "b"], 0) == "a";
    assert !HasAnyRow(ResumeRowsAfterFirst(), "m", FakeId("a", 1));
  }

  lemma ResumeFakeCount()
    ensures FakeCount(ResumeRowsAfterSecond(), "m") == 3
  {
    var rows := ResumeRowsAfterSecond();
    assert rows[1..][1..][1..] == [];
  }

  /**
   * As written: a plan for 2 reactions with 1 left and one synthetic entry
   * already in the table is resumed with 2 passes, and the giveaway ends up
   * with 3 fake entries.
   */
  lemma ResumeAsWrittenOvershoots()
    ensures var p := FakePlan(1, 2, 1, 100, 1, 0, PlanActive, None, None, None, []);
            var run := FillLoop(ResumeRows(), "m", true, ["a", "b"], ResumeTotalAsWritten(p), 100, ResumeStep, ResumeTotalAsWritten(p));
            FakeCount(ResumeRows(), "m") + p.remainingReactions == p.totalReactions &&
            FakeCount(run.rows, "m") > p.totalReactions
  {
    ResumeFirstPass();
    ResumeSecondPass();
    ResumeFakeCount();
    assert FakeCount(ResumeRows(), "m") == 1 by {
      assert ResumeRows()[1..] == [];
    }
  }

  lemma {:induction false} FakeCountAppend(rows: seq<Participant>, extra: seq<Participant>, msgId: string)
    requires forall i :: 0 <= i < |extra| ==> extra[i].messageId == msgId && extra[i].isFake
    ensures FakeCount(rows + extra, msgId) == FakeCount(rows, msgId) + |extra|
    decreases |rows|
  {
    if rows == [] {
      assert rows + extra == extra;
      FakeCountAll(extra, msgId);
    } else {
      assert (rows + extra)[1..] == rows[1..] + extra;
      FakeCountAppend(rows[1..], extra, msgId);
    }
  }

  lemma {:induction false} FakeCountAll(rows: seq<Participant>, msgId: string)
    requires forall i :: 0 <= i < |rows| ==> rows[i].messageId == msgId && rows[i].isFake
    ensures FakeCount(rows, msgId) == |rows|
  {
    if rows != [] {
      FakeCountAll(rows[1..], msgId);
    }
  }

  /**
   * Corrected: a plan whose fake entries and remaining count add up to at
   * most its total keeps its entries within the total when resumed with
   * what it has left.
   */
  lemma ResumeWithinTotal(rows: seq<Participant>, msgId: string, active: bool, members: seq<string>,
                          p: FakePlan, step: nat -> FillStep)
    requires UniqueKeys(rows)
    requires FakeCount(rows, msgId) + p.remainingReactions <= p.totalReactions
    ensures var run := FillLoop(rows, msgId, active, members, ResumeTotal(p), p.endTime, step, ResumeTotal(p));
            FakeCount(run.rows, msgId) <= p.totalReactions
  {
    var t := ResumeTotal(p);
    var run := FillLoop(rows, msgId, active, members, t, p.endTime, step, t);
    assert Extends(rows, run.rows, t - run.remaining, msgId, members, t);
    var extra := run.rows[|rows|..];
    assert run.rows == run.rows[..|rows|] + extra;
    forall i | 0 <= i < |extra| ensures extra[i].messageId == msgId && extra[i].isFake {
      assert extra[i] == run.rows[|rows| + i];
      assert FillRow(run.rows[|rows| + i], msgId, members, t);
    }
    FakeCountAppend(rows, extra, msgId);
  }

  // ---------------------------------------------------------------------
  // Forced winners
  // ---------------------------------------------------------------------

  /** The length of a `<@digits>` or `<@!digits>` match at the start of `s`, or 0. */
  function MentionLen(s: string): (n: nat)
    ensures n <= |s|
    ensures n > 0 ==> n >= 4 && StartsWith(s, "<@") && s[n - 1] == '>'
  {
    if StartsWith(s, "<@") then
      var j := if |s| > 2 && s[2] == '!' then 3 else 2;
      var d := DigitRun(s[j..]);
      if d > 0 && j + d < |s| && s[j + d] == '>' then j + d + 1 else 0
    else 0
  }

  /** The digits of the mention at the start of `s`. */
  function MentionDigits(s: string): (d: string)
    requires MentionLen(s) > 0
    ensures IsDigitString(d)
  {
    var j := if s[2] == '!' then 3 else 2;
    s[j..MentionLen(s) - 1]
  }

  /**
   * `re.findall(r"<@!?(\d+)>", s)` and `re.sub(r"<@!?(\d+)>", "", s)` in
   * one left-to-right scan: the ids of the mentions and the text around them.
   */
  function ScanMentions(s: string): (r: (seq<string>, string))
    ensures forall k :: 0 <= k < |r.0| ==> IsDigitString(r.0[k])
    ensures |r.1| <= |s|
    decreases |s|
  {
    if s == [] then ([], [])
    else
      var n := MentionLen(s);
      if n > 0 then
        var rest := ScanMentions(s[n..]);
        ([MentionDigits(s)] + rest.0, rest.1)
      else
        var rest := ScanMentions(s[1..]);
        (rest.0, [s[0]] + rest.1)
  }

  /** The stripped comma-separated pieces that are digit strings. */
  function DigitTokens(parts: seq<string>): (r: seq<string>)
    ensures forall k :: 0 <= k < |r| ==> IsDigitString(r[k])
  {
    if parts == [] then []
    else
      var t := Strip(parts[0]);
      (if IsDigitString(t) then [t] else []) + DigitTokens(parts[1..])
  }

  /** The mention ids and the plain ids of the users argument. */
  function NamedIds(users: string): (ids: seq<string>)
    ensures forall k :: 0 <= k < |ids| ==> IsDigitString(ids[k])
  {
    var scan := ScanMentions(users);
    scan.0 + DigitTokens(SplitOn(scan.1, ','))
  }

  /**
   * `list({*mention_ids, *plain_ids})`: every named id once; the order of
   * the set is the environment's, given by `order`.
   */
  function ForcedIds(users: string, order: seq<string>): (ids: seq<string>)
    ensures NoDup(ids)
    ensures forall u :: u in ids <==> u in NamedIds(users)
  {
    ArrangeNoDup(NamedIds(users), order);
    ArrangeMembers(NamedIds(users), order);
    Arrange(NamedIds(users), order)
  }

  /** Every forced id is a digit string. */
  lemma ForcedIdsDigits(users: string, order: seq<string>)
    ensures forall k :: 0 <= k < |ForcedIds(users, order)| ==> IsDigitString(ForcedIds(users, order)[k])
  {
    DigitsAmong(ForcedIds(users, order), NamedIds(users));
  }

  lemma DigitsAmong(ids: seq<string>, named: seq<string>)
    requires forall u :: u in ids ==> u in named
    requires forall k :: 0 <= k < |named| ==> IsDigitString(named[k])
    ensures forall k :: 0 <= k < |ids| ==> IsDigitString(ids[k])
  {
    forall k | 0 <= k < |ids| ensures IsDigitString(ids[k]) {
      assert ids[k] in named;
      var j :| 0 <= j < |named| && named[j] == ids[k];
    }
  }

  /** The elements of `s` once each, in the order `order` gives them, then the others in their own order. */
  function Arrange(s: seq<string>, order: seq<string>): seq<string>
  {
    Dedup(Within(order, s)) + Dedup(Without(s, order))
  }

  lemma ArrangeNoDup(s: seq<string>, order: seq<string>)
    ensures NoDup(Arrange(s, order))
  {
    var a := Dedup(Within(order, s));
    var b := Dedup(Without(s, order));
    assert forall x :: x in a ==> x !in b by {
      forall x | x in a ensures x !in b {
        assert x in Within(order, s);
      }
    }
    NoDupConcat(a, b);
  }

  lemma ArrangeMembers(s: seq<string>, order: seq<string>)
    ensures forall x :: x in Arrange(s, order) <==> x in s
  {
    var a := Dedup(Within(order, s));
    var b := Dedup(Without(s, order));
    forall x ensures x in a + b <==> x in s {
      assert x in a <==> x in Within(order, s);
      assert x in b <==> x in Without(s, order);
    }
  }

  /** Any order of the named ids is one `list(set)` can produce. */
  lemma ArrangeComplete(s: seq<string>, order: seq<string>)
    requires NoDup(order) && forall x :: x in order <==> x in s
    ensures Arrange(s, order) == order
  {
    WithinAll(order, s);
    DedupNoDup(order);
    WithoutAll(s, order);
    assert Dedup(Without(s, order)) == [];
    assert Arrange(s, order) == order + [];
  }

  /** The text of an `<@id>` mention, as the confirmation writes it. */
  function Mention(id: string): string { "<@" + id + ">" }

  function Mentions(ids: seq<string>): (r: seq<string>)
    ensures |r| == |ids|
  {
    if ids == [] then [] else [Mention(ids[0])] + Mentions(ids[1..])
  }

  lemma MentionScan(d: string, rest: string)
    requires IsDigitString(d)
    ensures ScanMentions(Mention(d) + rest) == ([d] + ScanMentions(rest).0, ScanMentions(rest).1)
  {
    var s := Mention(d) + rest;
    assert s[..2] == "<@";
    assert s[2] == d[0];
    assert s[2..] == d + ">" + rest;
    var n := DigitRun(s[2..]);
    assert forall t :: 0 <= t < |d| ==> s[2..][t] == d[t];
    assert n >= |d|;
    assert n == |d| by {
      assert s[2..][|d|] == '>';
    }
    assert s[2 + |d|] == '>';
    assert MentionLen(s) == |d| + 3;
    assert s[|d| + 3..] == rest;
    assert MentionDigits(s) == d;
  }

  lemma SeparatorScan(rest: string)
    ensures ScanMentions(", " + rest).0 == ScanMentions(rest).0
  {
    var s := ", " + rest;
    assert MentionLen(s) == 0;
    assert s[1..] == " " + rest;
    assert MentionLen(s[1..]) == 0;
    assert s[1..][1..] == rest;
  }

  /** The ids read back from the confirmation "Forced winners set: <@a>, <@b>, ..." are the forced ids. */
  lemma {:induction false} MentionsRoundTrip(ids: seq<string>)
    requires forall k :: 0 <= k < |ids| ==> IsDigitString(ids[k])
    ensures ScanMentions(Join(", ", Mentions(ids))).0 == ids
  {
    if ids == [] {
    } else if |ids| == 1 {
      MentionScan(ids[0], "");
      assert Mention(ids[0]) + "" == Mention(ids[0]);
    } else {
      var tail := Join(", ", Mentions(ids[1..]));
      assert Join(", ", Mentions(ids)) == Mention(ids[0]) + (", " + tail);
      MentionScan(ids[0], ", " + tail);
      SeparatorScan(tail);
      MentionsRoundTrip(ids[1..]);
    }
  }

  /** A character that starts no mention is kept in the text. */
  lemma ScanPlain(c: char, rest: string)
    requires c != '<'
    ensures ScanMentions([c] + rest) == (ScanMentions(rest).0, [c] + ScanMentions(rest).1)
  {
    var s := [c] + rest;
    assert s[0] == c;
    assert MentionLen(s) == 0;
    assert s[1..] == rest;
  }

  lemma ScanExample()
    ensures ScanMentions("<@!12>, 7") == (["12"], ", 7")
  {
    var s := "<@!12>, 7";
    assert s[..2] == "<@" && s[2] == '!';
    assert s[3..] == "12>, 7";
    assert DigitRun("12>, 7") == 2 by {
      assert "12>, 7"[1..] == "2>, 7";
      assert "2>, 7"[1..] == ">, 7";
    }
    assert MentionLen(s) == 6;
    assert MentionDigits(s) == "12";
    assert s[6..] == ", 7";
    PlainExample();
    assert ScanMentions(s[6..]) == ([], ", 7");
    assert ScanMentions(s) == ([MentionDigits(s)] + ScanMentions(s[6..]).0, ScanMentions(s[6..]).1);
    assert ["12"] + [] == ["12"];
  }

  lemma PlainExample()
    ensures ScanMentions(", 7") == ([], ", 7")
  {
    assert ScanMentions("") == ([], []);
    ScanPlain('7', "");
    assert ['7'] + "" == "7";
    assert ScanMentions("7") == ([], "7");
    ScanPlain(' ', "7");
    assert [' '] + "7" == " 7";
    assert ScanMentions(" 7") == ([], " 7");
    ScanPlain(',', " 7");
    assert [','] + " 7" == ", 7";
  }

  lemma SplitExample()
    ensures SplitOn(", 7", ',') == ["", " 7"]
  {
    assert IndexOf(", 7", ',') == 0;
    assert ", 7"[1..] == " 7";
  }

  lemma StripExample()
    ensures Strip("") == "" && Strip(" 7") == "7"
  {
    assert LeadingSpace(" 7") == 1 by { assert " 7"[1..] == "7"; }
    assert TrailingSpace("7") == 0;
  }

  lemma TokensExample()
    ensures DigitTokens(SplitOn(", 7", ',')) == ["7"]
  {
    SplitExample();
    StripExample();
    assert IsDigitString("7");
    assert DigitTokens([" 7"]) == ["7"] + DigitTokens([]);
    assert ["", " 7"][1..] == [" 7"];
    assert DigitTokens(["", " 7"]) == [] + DigitTokens([" 7"]);
  }

  /** `<@!12>, 7` names the mention id 12 and the plain id 7. */
  lemma ForcedIdsExample()
    ensures NamedIds("<@!12>, 7") == ["12", "7"]
  {
    ScanExample();
    TokensExample();
  }

  /** The outcome of `bot.fetch_user` for an id. */
  datatype Lookup = Found | NotFound | LookupFailed(message: string)

  /** The first id `fetch_user` does not confirm, as the reply it produces. */
  function LookupCheck(ids: seq<string>, lookup: string -> Lookup): (r: Option<string>)
    ensures r.None? <==> forall k :: 0 <= k < |ids| ==> lookup(ids[k]) == Found
  {
    if ids == [] then None
    else match lookup(ids[0])
      case Found => LookupCheck(ids[1..], lookup)
      case NotFound => Some("User ID not found: " + ids[0])
      case LookupFailed(e) => Some("Error setting forced winners: " + e)
  }

  /** One row of a giveaway, with is_forced set. */
  function MarkForced(rows: seq<Participant>, msgId: string, u: string): (r: seq<Participant>)
    ensures |r| == |rows|
    ensures forall i :: 0 <= i < |rows| ==>
              r[i] == if rows[i].messageId == msgId && rows[i].userId == u then rows[i].(isForced := true) else rows[i]
  {
    seq(|rows|, i requires 0 <= i < |rows| =>
      if rows[i].messageId == msgId && rows[i].userId == u then rows[i].(isForced := true) else rows[i])
  }

  /** Some row of the giveaway for this user has is_forced set. */
  predicate HasForcedRow(rows: seq<Participant>, msgId: string, u: string)
  {
    exists i :: 0 <= i < |rows| && rows[i].messageId == msgId && rows[i].userId == u && rows[i].isForced
  }

  /** The rows of `after` are those of `before`, possibly with is_forced set for an id of `ids`, then new forced real rows for ids of `ids`. */
  ghost predicate ForcedExtension(before: seq<Participant>, after: seq<Participant>, msgId: string, ids: seq<string>)
  {
    |before| <= |after| &&
    (forall i :: 0 <= i < |before| ==>
       after[i] == before[i] ||
       (after[i] == before[i].(isForced := true) && before[i].messageId == msgId && before[i].userId in ids)) &&
    (forall i :: |before| <= i < |after| ==>
       after[i].messageId == msgId && after[i].userId in ids && after[i].isForced && !after[i].isFake)
  }

  /** The per-id step of force_winner: mark an existing row, or insert a forced real one. */
  function ForceOne(rows: seq<Participant>, msgId: string, u: string, now: int): (r: seq<Participant>)
    requires UniqueKeys(rows)
    ensures UniqueKeys(r)
    ensures |r| <= |rows| + 1
  {
    if HasAnyRow(rows, msgId, u) then
      var r := MarkForced(rows, msgId, u);
      assert UniqueKeys(r) by {
        forall a, b | 0 <= a < b < |r| ensures r[a].messageId != r[b].messageId || r[a].userId != r[b].userId {
          assert r[a].messageId == rows[a].messageId && r[a].userId == rows[a].userId;
          assert r[b].messageId == rows[b].messageId && r[b].userId == rows[b].userId;
        }
      }
      r
    else
      var row := Participant(msgId, u, now, true, false, None);
      AppendKeys(rows, row);
      rows + [row]
  }

  /**
   * One id of force_winner: its row is forced (an existing one marked, or
   * a real one inserted when it had none), and nothing else changes.
   */
  lemma ForceOneSound(rows: seq<Participant>, msgId: string, u: string, now: int)
    requires UniqueKeys(rows)
    ensures var r := ForceOne(rows, msgId, u, now);
            ForcedExtension(rows, r, msgId, [u]) && HasForcedRow(r, msgId, u) &&
            (!HasRow(rows, msgId, u, true) ==> HasRow(r, msgId, u, false))
  {
    var r := ForceOne(rows, msgId, u, now);
    if HasAnyRow(rows, msgId, u) {
      var i :| 0 <= i < |rows| && rows[i].messageId == msgId && rows[i].userId == u;
      assert r[i].isForced && r[i].isFake == rows[i].isFake;
    } else {
      assert r[|rows|] == Participant(msgId, u, now, true, false, None);
    }
  }

  /** The second loop of force_winner over the id list. */
  function ForceRows(rows: seq<Participant>, msgId: string, ids: seq<string>, now: int): (r: seq<Participant>)
    requires UniqueKeys(rows)
    ensures UniqueKeys(r)
    decreases |ids|
  {
    if ids == [] then rows else ForceRows(ForceOne(rows, msgId, ids[0], now), msgId, ids[1..], now)
  }

  /** What a forced extension keeps of an old row: its keys, its fake flag, and a set is_forced. */
  lemma ExtensionKeeps(before: seq<Participant>, after: seq<Participant>, msgId: string, ids: seq<string>, i: nat)
    requires ForcedExtension(before, after, msgId, ids) && i < |before|
    ensures after[i].messageId == before[i].messageId && after[i].userId == before[i].userId &&
            after[i].isFake == before[i].isFake && (before[i].isForced ==> after[i].isForced)
  {
  }

  /** Forced extensions compose; the ids add up. */
  lemma ExtensionTrans(a: seq<Participant>, b: seq<Participant>, c: seq<Participant>, msgId: string, u: string, ids: seq<string>)
    requires ForcedExtension(a, b, msgId, [u]) && ForcedExtension(b, c, msgId, ids)
    ensures ForcedExtension(a, c, msgId, [u] + ids)
  {
    forall i | 0 <= i < |a|
      ensures c[i] == a[i] || (c[i] == a[i].(isForced := true) && a[i].messageId == msgId && a[i].userId in [u] + ids)
    {
      ExtensionKeeps(a, b, msgId, [u], i);
    }
    forall i | |a| <= i < |c|
      ensures c[i].messageId == msgId && c[i].userId in [u] + ids && c[i].isForced && !c[i].isFake
    {
      if i < |b| {
        ExtensionKeeps(b, c, msgId, ids, i);
      }
    }
  }

  /** force_winner only marks rows of the named ids and appends forced real rows for them. */
  lemma {:induction false} ForceRowsExtension(rows: seq<Participant>, msgId: string, ids: seq<string>, now: int)
    requires UniqueKeys(rows)
    ensures var r := ForceRows(rows, msgId, ids, now);
            ForcedExtension(rows, r, msgId, ids) && |r| <= |rows| + |ids|
    decreases |ids|
  {
    if ids != [] {
      var r1 := ForceOne(rows, msgId, ids[0], now);
      ForceOneSound(rows, msgId, ids[0], now);
      ForceRowsExtension(r1, msgId, ids[1..], now);
      ExtensionTrans(rows, r1, ForceRows(r1, msgId, ids[1..], now), msgId, ids[0], ids[1..]);
      assert [ids[0]] + ids[1..] == ids;
    }
  }

  /** After force_winner every named id has a forced row. */
  lemma {:induction false} ForceRowsForced(rows: seq<Participant>, msgId: string, ids: seq<string>, now: int)
    requires UniqueKeys(rows)
    ensures forall u :: u in ids ==> HasForcedRow(ForceRows(rows, msgId, ids, now), msgId, u)
    decreases |ids|
  {
    if ids != [] {
      var u := ids[0];
      var r1 := ForceOne(rows, msgId, u, now);
      ForceOneSound(rows, msgId, u, now);
      ForceRowsForced(r1, msgId, ids[1..], now);
      ForceRowsExtension(r1, msgId, ids[1..], now);
      var r := ForceRows(r1, msgId, ids[1..], now);
      assert HasForcedRow(r, msgId, u) by {
        var i :| 0 <= i < |r1| && r1[i].messageId == msgId && r1[i].userId == u && r1[i].isForced;
        ExtensionKeeps(r1, r, msgId, ids[1..], i);
      }
      assert forall v :: v in ids ==> v == u || v in ids[1..];
    }
  }

  /** After force_winner every named id without a fake row has a real row. */
  lemma {:induction false} ForceRowsReal(rows: seq<Participant>, msgId: string, ids: seq<string>, now: int)
    requires UniqueKeys(rows)
    ensures forall u :: u in ids && !HasRow(rows, msgId, u, true) ==> HasRow(ForceRows(rows, msgId, ids, now), msgId, u, false)
    decreases |ids|
  {
    if ids != [] {
      var u := ids[0];
      var r1 := ForceOne(rows, msgId, u, now);
      ForceOneSound(rows, msgId, u, now);
      ForceRowsReal(r1, msgId, ids[1..], now);
      ForceRowsExtension(r1, msgId, ids[1..], now);
      var r := ForceRows(r1, msgId, ids[1..], now);
      forall v | v in ids && !HasRow(rows, msgId, v, true) ensures HasRow(r, msgId, v, false) {
        assert !HasRow(r1, msgId, v, true) by {
          forall i | 0 <= i < |r1| && r1[i].messageId == msgId && r1[i].userId == v ensures !r1[i].isFake {
            if i < |rows| {
              ExtensionKeeps(rows, r1, msgId, [u], i);
            }
          }
        }
        if v == u {
          var i :| 0 <= i < |r1| && r1[i].messageId == msgId && r1[i].userId == v && !r1[i].isFake;
          ExtensionKeeps(r1, r, msgId, ids[1..], i);
        } else {
          assert v in ids[1..];
        }
      }
    }
  }

  /**
   * After force_winner every forced id has a forced row, every id that had
   * no fake row has a real row (so it is in the draw pool unless it is the
   * bot), and the table is only extended by forced real rows of those ids.
   */
  lemma ForceRowsSound(rows: seq<Participant>, msgId: string, ids: seq<string>, now: int)
    requires UniqueKeys(rows)
    ensures var r := ForceRows(rows, msgId, ids, now);
            ForcedExtension(rows, r, msgId, ids) &&
            (forall u :: u in ids ==> HasForcedRow(r, msgId, u)) &&
            (forall u :: u in ids && !HasRow(rows, msgId, u, true) ==> HasRow(r, msgId, u, false)) &&
            |r| <= |rows| + |ids|
  {
    ForceRowsExtension(rows, msgId, ids, now);
    ForceRowsForced(rows, msgId, ids, now);
    ForceRowsReal(rows, msgId, ids, now);
  }

  /** A forced id with no fake row is in the draw pool after force_winner. */
  lemma ForcedInDrawPool(rows: seq<Participant>, msgId: string, ids: seq<string>, now: int, botId: string, u: string)
    requires UniqueKeys(rows) && u in ids && u != botId && !HasRow(rows, msgId, u, true)
    ensures u in DrawPool(ForceRows(rows, msgId, ids, now), msgId, botId)
  {
    ForceRowsSound(rows, msgId, ids, now);
  }

  // ---------------------------------------------------------------------
  // The cog
  // ---------------------------------------------------------------------

  /** A `create_task(add_fake_reactions(...))` call and its arguments. */
  datatype FillLaunch = FillLaunch(messageId: string, members: seq<string>, total: nat, endTime: int)

  /** The state the sweep needs to decide that a plan is resumed. */
  predicate Resumable(m: string, p: FakePlan, giveaways: map<string, Giveaway>, tasks: set<string>,
                            now: int, membersOf: int -> Option<seq<string>>)
  {
    p.status == PlanActive && m !in tasks &&
    m in giveaways && giveaways[m].status == Active &&
    membersOf(p.channelId).Some? && membersOf(p.channelId).value != [] &&
    p.remainingReactions > 0 && p.endTime > now
  }

  /** A plan the sweep finds without an active giveaway. */
  predicate Stale(m: string, p: FakePlan, giveaways: map<string, Giveaway>, tasks: set<string>)
  {
    p.status == PlanActive && m !in tasks && !(m in giveaways && giveaways[m].status == Active)
  }

  /** What the sweep changes: the plan rows, the registry and the runs it starts. */
  datatype Sweep = Sweep(plans: map<string, FakePlan>, tasks: set<string>, launched: seq<FillLaunch>)

  /** The sweep's work on one active plan. */
  function SweepStep(s: Sweep, m: string, giveaways: map<string, Giveaway>, now: int,
                     membersOf: int -> Option<seq<string>>): (r: Sweep)
    requires m in s.plans
    ensures forall x :: x in r.plans <==> x in s.plans
  {
    var p := s.plans[m];
    if m in s.tasks then s
    else if !(m in giveaways && giveaways[m].status == Active) then
      s.(plans := s.plans[m := p.(status := PlanCancelled, cancelledAt := Some(now))])
    else
      var ms := membersOf(p.channelId);
      if ms.Some? && ms.value != [] && p.remainingReactions > 0 && p.endTime > now then
        s.(tasks := s.tasks + {m}, launched := s.launched + [FillLaunch(m, ms.value, ResumeTotal(p), p.endTime)])
      else s
  }

  /** The sweep over the active plans in the order the query returns them. */
  function SweepPlans(s: Sweep, order: seq<string>, giveaways: map<string, Giveaway>, now: int,
                      membersOf: int -> Option<seq<string>>): (r: Sweep)
    requires forall m :: m in order ==> m in s.plans
    ensures forall x :: x in r.plans <==> x in s.plans
    decreases |order|
  {
    if order == [] then s
    else SweepPlans(SweepStep(s, order[0], giveaways, now, membersOf), order[1..], giveaways, now, membersOf)
  }

  /** The runs the sweep starts, judged on the state before it. */
  function Launches(order: seq<string>, plans: map<string, FakePlan>, giveaways: map<string, Giveaway>,
                    tasks: set<string>, now: int, membersOf: int -> Option<seq<string>>): seq<FillLaunch>
    requires forall m :: m in order ==> m in plans
    decreases |order|
  {
    if order == [] then []
    else LaunchOf(order[0], plans[order[0]], giveaways, tasks, now, membersOf) +
         Launches(order[1..], plans, giveaways, tasks, now, membersOf)
  }

  /** The run the sweep starts for one plan, if any. */
  function LaunchOf(m: string, p: FakePlan, giveaways: map<string, Giveaway>, tasks: set<string>,
                    now: int, membersOf: int -> Option<seq<string>>): seq<FillLaunch>
  {
    if Resumable(m, p, giveaways, tasks, now, membersOf)
    then [FillLaunch(m, membersOf(p.channelId).value, ResumeTotal(p), p.endTime)] else []
  }

  /** The plan row after the sweep, judged on the state before it. */
  function Swept(m: string, p: FakePlan, giveaways: map<string, Giveaway>, tasks: set<string>, now: int): FakePlan
  {
    if Stale(m, p, giveaways, tasks) then p.(status := PlanCancelled, cancelledAt := Some(now)) else p
  }

  /** The sweep's input: each active plan once. */
  predicate SweepOrder(order: seq<string>, plans: map<string, FakePlan>)
  {
    NoDup(order) && forall m :: m in order ==> m in plans && plans[m].status == PlanActive
  }

  /** The first step leaves every other plan, and the registry as far as it concerns them, alone. */
  lemma SweepStepOthers(s: Sweep, m: string, giveaways: map<string, Giveaway>, now: int,
                        membersOf: int -> Option<seq<string>>, x: string)
    requires m in s.plans && x != m
    ensures var r := SweepStep(s, m, giveaways, now, membersOf);
            (x in r.plans <==> x in s.plans) && (x in s.plans ==> r.plans[x] == s.plans[x]) &&
            (x in r.tasks <==> x in s.tasks)
  {
  }

  /** The first step starts a run and registers it exactly when its plan is resumable. */
  lemma SweepStepLaunch(s: Sweep, m: string, giveaways: map<string, Giveaway>, now: int,
                        membersOf: int -> Option<seq<string>>)
    requires m in s.plans && s.plans[m].status == PlanActive
    ensures var r := SweepStep(s, m, giveaways, now, membersOf);
            var p := s.plans[m];
            var go := Resumable(m, p, giveaways, s.tasks, now, membersOf);
            r.tasks == s.tasks + (if go then {m} else {}) &&
            r.launched == s.launched + LaunchOf(m, p, giveaways, s.tasks, now, membersOf)
  {
  }

  /** After the first step the rest of the order is still a sweep order, over unchanged plans. */
  lemma SweepStepRest(s: Sweep, order: seq<string>, giveaways: map<string, Giveaway>, now: int,
                      membersOf: int -> Option<seq<string>>)
    requires order != [] && SweepOrder(order, s.plans)
    ensures var s1 := SweepStep(s, order[0], giveaways, now, membersOf);
            SweepOrder(order[1..], s1.plans) &&
            forall x :: x in order[1..] ==> x in s1.plans && s1.plans[x] == s.plans[x] && (x in s1.tasks <==> x in s.tasks)
  {
    var s1 := SweepStep(s, order[0], giveaways, now, membersOf);
    assert order[0] !in order[1..];
    forall x | x in order[1..] ensures x in s1.plans && s1.plans[x] == s.plans[x] && (x in s1.tasks <==> x in s.tasks) {
      SweepStepOthers(s, order[0], giveaways, now, membersOf, x);
    }
  }

  /**
   * The sweep cancels exactly the stale plans among the active ones it
   * visits and leaves every other plan row as it was.
   */
  lemma {:induction false} SweepPlansRows(s: Sweep, order: seq<string>, giveaways: map<string, Giveaway>, now: int,
                                          membersOf: int -> Option<seq<string>>)
    requires SweepOrder(order, s.plans)
    ensures var r := SweepPlans(s, order, giveaways, now, membersOf);
            forall m :: m in s.plans ==>
              r.plans[m] == if m in order then Swept(m, s.plans[m], giveaways, s.tasks, now) else s.plans[m]
    decreases |order|
  {
    if order != [] {
      var m0 := order[0];
      var s1 := SweepStep(s, m0, giveaways, now, membersOf);
      var r := SweepPlans(s, order, giveaways, now, membersOf);
      assert m0 !in order[1..];
      forall x | x in order[1..] ensures x in s1.plans && s1.plans[x].status == PlanActive && (x in s1.tasks <==> x in s.tasks) {
        SweepStepOthers(s, m0, giveaways, now, membersOf, x);
      }
      assert SweepOrder(order[1..], s1.plans);
      SweepPlansRows(s1, order[1..], giveaways, now, membersOf);
      forall m | m in s.plans
        ensures r.plans[m] == if m in order then Swept(m, s.plans[m], giveaways, s.tasks, now) else s.plans[m]
      {
        if m != m0 {
          SweepStepOthers(s, m0, giveaways, now, membersOf, m);
          assert m in order <==> m in order[1..];
        }
      }
    }
  }

  /** The sweep registers exactly the resumable plans among those it visits. */
  lemma {:induction false} SweepPlansTasks(s: Sweep, order: seq<string>, giveaways: map<string, Giveaway>, now: int,
                                           membersOf: int -> Option<seq<string>>)
    requires SweepOrder(order, s.plans)
    ensures SweepPlans(s, order, giveaways, now, membersOf).tasks ==
            s.tasks + set m | m in order && m in s.plans && Resumable(m, s.plans[m], giveaways, s.tasks, now, membersOf)
    decreases |order|
  {
    if order != [] {
      var m0 := order[0];
      var s1 := SweepStep(s, m0, giveaways, now, membersOf);
      SweepStepRest(s, order, giveaways, now, membersOf);
      SweepPlansTasks(s1, order[1..], giveaways, now, membersOf);
      SweepStepLaunch(s, m0, giveaways, now, membersOf);
      ResumableSplit(order, s.plans, s1.plans, giveaways, s.tasks, s1.tasks, now, membersOf);
    }
  }

  /** The resumable plans of a visit order split into its head and the rest, judged on agreeing states. */
  lemma ResumableSplit(order: seq<string>, plans: map<string, FakePlan>, plans': map<string, FakePlan>,
                       giveaways: map<string, Giveaway>, tasks: set<string>, tasks': set<string>,
                       now: int, membersOf: int -> Option<seq<string>>)
    requires order != [] && order[0] in plans && order[0] !in order[1..]
    requires forall x :: x in order[1..] ==> x in plans && x in plans' && plans'[x] == plans[x] && (x in tasks' <==> x in tasks)
    ensures (set m | m in order && m in plans && Resumable(m, plans[m], giveaways, tasks, now, membersOf)) ==
            (set m | m in order[1..] && m in plans' && Resumable(m, plans'[m], giveaways, tasks', now, membersOf)) +
            (if Resumable(order[0], plans[order[0]], giveaways, tasks, now, membersOf) then {order[0]} else {})
  {
    forall x | x in order && x != order[0] ensures x in order[1..] {
    }
  }

  /** The first step's run, and the runs the rest of the order would start, judged before and after it. */
  lemma SweepStepLaunches(s: Sweep, order: seq<string>, giveaways: map<string, Giveaway>, now: int,
                          membersOf: int -> Option<seq<string>>)
    requires order != [] && SweepOrder(order, s.plans)
    ensures var s1 := SweepStep(s, order[0], giveaways, now, membersOf);
            SweepOrder(order[1..], s1.plans) &&
            s1.launched + Launches(order[1..], s1.plans, giveaways, s1.tasks, now, membersOf) ==
            s.launched + Launches(order, s.plans, giveaways, s.tasks, now, membersOf)
  {
    var s1 := SweepStep(s, order[0], giveaways, now, membersOf);
    SweepStepRest(s, order, giveaways, now, membersOf);
    LaunchesFrame(order[1..], s1.plans, s.plans, giveaways, s1.tasks, s.tasks, now, membersOf);
    SweepStepLaunch(s, order[0], giveaways, now, membersOf);
    AppendAssoc(s.launched, LaunchOf(order[0], s.plans[order[0]], giveaways, s.tasks, now, membersOf),
                Launches(order[1..], s.plans, giveaways, s.tasks, now, membersOf));
  }

  /** The runs the sweep starts are the ones `Launches` lists, in the query's order. */
  lemma {:induction false} SweepPlansLaunched(s: Sweep, order: seq<string>, giveaways: map<string, Giveaway>, now: int,
                                              membersOf: int -> Option<seq<string>>)
    requires SweepOrder(order, s.plans)
    ensures SweepPlans(s, order, giveaways, now, membersOf).launched ==
            s.launched + Launches(order, s.plans, giveaways, s.tasks, now, membersOf)
    decreases |order|
  {
    if order != [] {
      SweepStepLaunches(s, order, giveaways, now, membersOf);
      SweepPlansLaunched(SweepStep(s, order[0], giveaways, now, membersOf), order[1..], giveaways, now, membersOf);
    }
  }

  lemma {:induction false} LaunchesFrame(order: seq<string>, plans: map<string, FakePlan>, plans': map<string, FakePlan>,
                                         giveaways: map<string, Giveaway>, tasks: set<string>, tasks': set<string>,
                                         now: int, membersOf: int -> Option<seq<string>>)
    requires forall m :: m in order ==> m in plans && m in plans' && plans[m] == plans'[m] && (m in tasks <==> m in tasks')
    ensures Launches(order, plans, giveaways, tasks, now, membersOf) == Launches(order, plans', giveaways, tasks', now, membersOf)
    decreases |order|
  {
    if order != [] {
      LaunchesFrame(order[1..], plans, plans', giveaways, tasks, tasks', now, membersOf);
    }
  }

  /** Every run the sweep starts is for a resumable plan, with what that plan has left (corrected total). */
  lemma {:induction false} LaunchesResumable(order: seq<string>, plans: map<string, FakePlan>, giveaways: map<string, Giveaway>,
                                             tasks: set<string>, now: int, membersOf: int -> Option<seq<string>>)
    requires forall m :: m in order ==> m in plans
    ensures forall l :: l in Launches(order, plans, giveaways, tasks, now, membersOf) ==>
              l.messageId in order && Resumable(l.messageId, plans[l.messageId], giveaways, tasks, now, membersOf) &&
              l.total == plans[l.messageId].remainingReactions && l.members != [] &&
              l.endTime == plans[l.messageId].endTime && l.endTime > now
    decreases |order|
  {
    if order != [] {
      LaunchesResumable(order[1..], plans, giveaways, tasks, now, membersOf);
    }
  }

  datatype FillCommandEnv = FillCommandEnv(systemUp: bool, fetchOk: bool, members: seq<string>)

  datatype ForceEnv = ForceEnv(systemUp: bool, fetchOk: bool, lookup: string -> Lookup, order: seq<string>)

  datatype CancelEnv = CancelEnv(systemUp: bool, channelFound: bool, fetchError: Option<string>, editError: Option<string>)

  const DefaultCancelReason: string := "Cancelled by administrator"

  class AdminCog {
    /** The keys of `active_fake_reaction_tasks`. */
    var tasks: set<string>
    /** The message ids whose registered task was sent `cancel()`, in order. */
    var cancelSent: seq<string>
    /** The runs started, in order. */
    var launched: seq<FillLaunch>

    constructor ()
      ensures tasks == {} && cancelSent == [] && launched == []
    {
      tasks := {};
      cancelSent := [];
      launched := [];
    }

    /**
     * fill_giveaway: validate, cancel a running fill for the message, and
     * write a fresh plan with the whole total remaining before starting a run.
     */
    method FillGiveaway(store: GiveawayStore, msgId: string, reactions: int, minutes: int,
                        userId: int, now: int, env: FillCommandEnv) returns (r: Result<int>)
      requires store.Valid()
      modifies this, store
      ensures store.Valid()
      ensures store.giveaways == old(store.giveaways) && store.participants == old(store.participants)
      ensures var checked := MinFakeReactions <= reactions <= MaxFakeReactions &&
                             MinFakeMinutes <= minutes <= MaxFakeMinutes && env.systemUp &&
                             msgId in old(store.giveaways) && old(store.giveaways)[msgId].status == Active;
              (r.Ok? <==> checked && env.fetchOk && env.members != []) &&
              cancelSent == old(cancelSent) + (if checked && msgId in old(tasks) then [msgId] else [])
      ensures r.Ok? ==> r.value == now + minutes * 60 &&
                        store.plans == old(store.plans)[msgId := FakePlan(old(store.giveaways)[msgId].channelId,
                                          reactions as nat, reactions as nat, r.value, userId, now, PlanActive, None, None, None, [])] &&
                        tasks == old(tasks) + {msgId} &&
                        launched == old(launched) + [FillLaunch(msgId, env.members, reactions as nat, r.value)]
      ensures r.Err? ==> store.plans == old(store.plans) && tasks == old(tasks) && launched == old(launched)
      ensures !(MinFakeReactions <= reactions <= MaxFakeReactions) ==> r == Err("Error: Total fake reactions must be 1–1000.")
    {
      if !(MinFakeReactions <= reactions <= MaxFakeReactions) {
        return Err("Error: Total fake reactions must be 1–1000.");
      }
      if !(MinFakeMinutes <= minutes <= MaxFakeMinutes) {
        return Err("Error: Duration must be 1–10080 minutes.");
      }
      if !env.systemUp {
        return Err("Giveaway system not available.");
      }
      if msgId !in store.giveaways || store.giveaways[msgId].status != Active {
        return Err("Not an active giveaway.");
      }
      var gw := store.giveaways[msgId];
      if msgId in tasks {
        cancelSent := cancelSent + [msgId];
      }
      if !env.fetchOk {
        return Err("Couldn't fetch giveaway message.");
      }
      if env.members == [] {
        return Err("No valid members.");
      }
      var endTime := now + minutes * 60;
      store.plans := store.plans[msgId := FakePlan(gw.channelId, reactions as nat, reactions as nat, endTime, userId, now,
                                                   PlanActive, None, None, None, [])];
      launched := launched + [FillLaunch(msgId, env.members, reactions as nat, endTime)];
      tasks := tasks + {msgId};
      r := Ok(endTime);
    }

    /**
     * add_fake_reactions: the run the registry tracks. It follows the fill
     * loop, persists the counter after every pass, writes the final status
     * and leaves the registry.
     */
    method AddFakeReactions(store: GiveawayStore, msgId: string, members: seq<string>, total: nat,
                            endTime: int, env: FillEnv) returns (end: FillEnd, remaining: nat)
      requires store.Valid()
      modifies this, store
      ensures store.Valid()
      ensures store.giveaways == old(store.giveaways)
      ensures cancelSent == old(cancelSent) && launched == old(launched)
      ensures !env.systemUp ==> end == FillNotRun && unchanged(this) && unchanged(store)
      ensures env.systemUp ==> tasks == old(tasks) - {msgId}
      ensures env.systemUp && msgId !in old(store.giveaways) ==>
                end == FillNoGiveaway && store.participants == old(store.participants) && store.plans == old(store.plans)
      ensures env.systemUp && msgId in old(store.giveaways) && env.startError.Some? ==>
                end == FillFailed(env.startError.value) && store.participants == old(store.participants) &&
                store.plans == UpdatePlan(old(store.plans), msgId, (p: FakePlan) => p.(status := PlanError, error := env.startError))
      ensures env.systemUp && msgId in old(store.giveaways) && env.startError.None? ==>
                var run := FillLoop(old(store.participants), msgId, old(store.giveaways)[msgId].status == Active,
                                    members, total, endTime, env.step, total);
                end == run.end && remaining == run.remaining && store.participants == run.rows &&
                store.plans == UpdatePlan(old(store.plans), msgId,
                                          p => PlanAfter(p, total, run, env.finishedAt, FakeRowIds(run.rows, msgId)))
    {
      if !env.systemUp {
        return FillNotRun, total;
      }
      if msgId !in store.giveaways {
        tasks := tasks - {msgId};
        return FillNoGiveaway, total;
      }
      if env.startError.Some? {
        store.plans := UpdatePlan(store.plans, msgId, (p: FakePlan) => p.(status := PlanError, error := env.startError));
        tasks := tasks - {msgId};
        return FillFailed(env.startError.value), total;
      }
      var active := store.giveaways[msgId].status == Active;
      end, remaining := RunFill(store, msgId, active, members, total, endTime, env.step);
      var rows := store.participants;
      var fakeIds := FakeRowIds(rows, msgId);
      store.plans := UpdatePlan(store.plans, msgId, (p: FakePlan) => Finish(p, end, env.finishedAt, fakeIds));
      tasks := tasks - {msgId};
    }

    /**
     * The while loop of add_fake_reactions, pass by pass: it stops on a
     * cancel, at the end time, once the giveaway is no longer active, or when
     * `random.choice` or the message edit raises, or when the next delay
     * would overshoot the end. Every pass persists the counter.
     */
    method RunFill(store: GiveawayStore, msgId: string, active: bool, members: seq<string>, total: nat,
                   endTime: int, step: nat -> FillStep) returns (end: FillEnd, remaining: nat)
      requires store.Valid()
      modifies store
      ensures store.Valid()
      ensures store.giveaways == old(store.giveaways)
      ensures FillRun(store.participants, remaining, end) ==
              FillLoop(old(store.participants), msgId, active, members, total, endTime, step, total)
      ensures store.plans == UpdatePlan(old(store.plans), msgId, (p: FakePlan) => Counted(p, total, remaining))
    {
      ghost var rows := store.participants;
      ghost var run := FillLoop(rows, msgId, active, members, total, endTime, step, total);
      ghost var plans0 := store.plans;
      remaining := total;
      end := FillCompleted;
      var done := false;
      while remaining > 0 && !done
        invariant remaining <= total
        invariant store.Valid()
        invariant store.giveaways == old(store.giveaways) && store.participants == rows
        invariant !done ==> end == FillCompleted
        invariant !done ==> FillLoop(rows, msgId, active, members, total, endTime, step, remaining) == run
        invariant done ==> run == FillRun(rows, remaining, end)
        invariant store.plans == UpdatePlan(plans0, msgId, (p: FakePlan) => Counted(p, total, remaining))
        decreases remaining, if done then 0 else 1
      {
        var st := step(total - remaining);
        if !Continues(st, endTime, active, members) {
          FillLoopStops(rows, msgId, active, members, total, endTime, step, remaining, st);
          if st.cancelled {
            end := FillCancelled;
          } else if st.now >= endTime || !active {
            end := FillCompleted;
          } else {
            end := FillFailed(EmptyChoice);
          }
          done := true;
        } else {
          ghost var before, r0 := rows, remaining;
          FakePass(store, msgId, members, total - remaining, st, remaining - 1);
          rows := store.participants;
          remaining := remaining - 1;
          CountedStep(plans0, msgId, total, remaining);
          if st.editError.Some? || st.overrun {
            FillLoopLastPass(before, msgId, active, members, total, endTime, step, r0, st);
            assert rows == NextRows(before, msgId, members, total - r0, st);
            end := if st.editError.Some? then FillFailed(st.editError.value) else FillCompleted;
            done := true;
          } else {
            FillLoopGoesOn(before, msgId, active, members, total, endTime, step, r0, st);
            assert rows == NextRows(before, msgId, members, total - r0, st);
            assert FillLoop(rows, msgId, active, members, total, endTime, step, remaining) == run;
          }
        }
      }
    }

    /**
     * One pass: pick a member as `random.choice` over the unused ones does,
     * add `<member>_fake_<k>` unless that key exists, then persist the
     * counter of passes left.
     */
    method FakePass(store: GiveawayStore, msgId: string, members: seq<string>, k: nat, st: FillStep, left: nat)
      requires store.Valid() && members != []
      modifies store
      ensures store.Valid()
      ensures store.giveaways == old(store.giveaways)
      ensures store.participants == NextRows(old(store.participants), msgId, members, k, st)
      ensures store.plans == UpdatePlan(old(store.plans), msgId, (p: FakePlan) => p.(remainingReactions := left))
    {
      var available := Available(members, UsedOriginals(store.participants, msgId));
      var u := Choice(available, st.pick);
      var f := FakeId(u, k);
      if !HasAnyRow(store.participants, msgId, f) {
        var row := Participant(msgId, f, st.now, false, true, Some(u));
        AppendKeys(store.participants, row);
        store.participants := store.participants + [row];
      }
      store.plans := UpdatePlan(store.plans, msgId, (p: FakePlan) => p.(remainingReactions := left));
    }

    /**
     * process_fake_reactions: for every active plan, in the order the query
     * returns them and skipping those with a registered run, cancel the plan
     * when its giveaway is no longer active, and otherwise start a run when
     * members, a remaining count and time are left.
     */
    method ProcessFakeReactions(store: GiveawayStore, now: int, systemUp: bool,
                                membersOf: int -> Option<seq<string>>, order: seq<string>)
      requires store.Valid()
      requires SweepOrder(order, store.plans)
      modifies this, store
      ensures store.Valid()
      ensures store.giveaways == old(store.giveaways) && store.participants == old(store.participants)
      ensures cancelSent == old(cancelSent)
      ensures !systemUp ==> unchanged(this) && unchanged(store)
      ensures systemUp ==>
                (Sweep(store.plans, tasks, launched) ==
                 SweepPlans(Sweep(old(store.plans), old(tasks), old(launched)), order, old(store.giveaways), now, membersOf))
    {
      if !systemUp {
        return;
      }
      ghost var s0 := Sweep(store.plans, tasks, launched);
      for i := 0 to |order|
        invariant store.Valid()
        invariant store.giveaways == old(store.giveaways) && store.participants == old(store.participants)
        invariant cancelSent == old(cancelSent)
        invariant store.plans.Keys == s0.plans.Keys
        invariant SweepPlans(Sweep(store.plans, tasks, launched), order[i..], store.giveaways, now, membersOf) ==
                  SweepPlans(s0, order, store.giveaways, now, membersOf)
      {
        assert order[i..][1..] == order[i + 1..];
        var m := order[i];
        var p := store.plans[m];
        if m in tasks {
        } else if !(m in store.giveaways && store.giveaways[m].status == Active) {
          store.plans := store.plans[m := p.(status := PlanCancelled, cancelledAt := Some(now))];
        } else {
          var ms := membersOf(p.channelId);
          if ms.Some? && ms.value != [] && p.remainingReactions > 0 && p.endTime > now {
            launched := launched + [FillLaunch(m, ms.value, ResumeTotal(p), p.endTime)];
            tasks := tasks + {m};
          }
        }
      }
      assert order[|order|..] == [];
    }

    /** The first loop of force_winner: `fetch_user` on every id, stopping at the first that fails. */
    method CheckUsers(ids: seq<string>, lookup: string -> Lookup) returns (failure: Option<string>)
      ensures failure == LookupCheck(ids, lookup)
    {
      var i := 0;
      while i < |ids|
        invariant 0 <= i <= |ids|
        invariant LookupCheck(ids[i..], lookup) == LookupCheck(ids, lookup)
      {
        assert ids[i..][1..] == ids[i + 1..];
        match lookup(ids[i])
        case NotFound =>
          return Some("User ID not found: " + ids[i]);
        case LookupFailed(e) =>
          return Some("Error setting forced winners: " + e);
        case Found =>
        i := i + 1;
      }
      return None;
    }

    /** The second loop of force_winner: each id in turn becomes a forced entry. */
    method ApplyForced(store: GiveawayStore, msgId: string, ids: seq<string>, now: int)
      requires store.Valid()
      modifies store
      ensures store.Valid()
      ensures store.giveaways == old(store.giveaways) && store.plans == old(store.plans)
      ensures store.participants == ForceRows(old(store.participants), msgId, ids, now)
    {
      ghost var rows0 := store.participants;
      var j := 0;
      while j < |ids|
        invariant 0 <= j <= |ids|
        invariant store.Valid()
        invariant store.giveaways == old(store.giveaways) && store.plans == old(store.plans)
        invariant ForceRows(store.participants, msgId, ids[j..], now) == ForceRows(rows0, msgId, ids, now)
      {
        assert ids[j..][1..] == ids[j + 1..];
        store.participants := ForceOne(store.participants, msgId, ids[j], now);
        j := j + 1;
      }
    }

    /**
     * force_winner: read the ids, check the giveaway and every user, store
     * the id list as the forced winners and make each one a forced entry.
     */
    method ForceWinner(store: GiveawayStore, msgId: string, users: string, now: int, env: ForceEnv)
      returns (r: Result<seq<string>>)
      requires store.Valid()
      modifies store
      ensures store.Valid()
      ensures store.plans == old(store.plans)
      ensures var ids := ForcedIds(users, env.order);
              var ok := env.systemUp && ids != [] && msgId in old(store.giveaways) &&
                        old(store.giveaways)[msgId].status == Active && env.fetchOk &&
                        LookupCheck(ids, env.lookup).None?;
              (r.Ok? <==> ok) &&
              (ok ==> r.value == ids &&
                      store.giveaways == old(store.giveaways)[msgId := old(store.giveaways)[msgId].(forcedWinnerIds := ids)] &&
                      store.participants == ForceRows(old(store.participants), msgId, ids, now)) &&
              (!ok ==> unchanged(store))
      ensures env.systemUp && ForcedIds(users, env.order) == [] ==> r == Err("Please mention users or provide valid IDs.")
    {
      if !env.systemUp {
        return Err("Giveaway system not available.");
      }
      var ids := ForcedIds(users, env.order);
      if ids == [] {
        return Err("Please mention users or provide valid IDs.");
      }
      if msgId !in store.giveaways || store.giveaways[msgId].status != Active {
        return Err("Not an active giveaway.");
      }
      if !env.fetchOk {
        return Err("Couldn't fetch giveaway message.");
      }
      var failure := CheckUsers(ids, env.lookup);
      if failure.Some? {
        return Err(failure.value);
      }
      var gw := store.giveaways[msgId];
      store.giveaways := store.giveaways[msgId := gw.(forcedWinnerIds := ids)];
      ApplyForced(store, msgId, ids, now);
      r := Ok(ids);
    }

    /**
     * cancel_giveaway: only an active giveaway whose message can be reached;
     * a registered fill is sent cancel() and its plan marked cancelled, and
     * the giveaway keeps the reason in its error column.
     */
    method CancelGiveaway(store: GiveawayStore, msgId: string, reason: Option<string>, userId: int, now: int, env: CancelEnv)
      returns (r: Result<string>)
      requires store.Valid()
      modifies this, store
      ensures store.Valid()
      ensures store.participants == old(store.participants) && tasks == old(tasks) && launched == old(launched)
      ensures var why := if reason.Some? then reason.value else DefaultCancelReason;
              var reached := env.systemUp && msgId in old(store.giveaways) && old(store.giveaways)[msgId].status == Active &&
                             env.channelFound && env.fetchError.None?;
              (reached ==>
                 store.giveaways == old(store.giveaways)[msgId := old(store.giveaways)[msgId].(
                   status := Cancelled, cancelledAt := Some(now), cancelledBy := Some(userId), error := Some(why))] &&
                 cancelSent == old(cancelSent) + (if msgId in old(tasks) then [msgId] else []) &&
                 store.plans == (if msgId in old(tasks)
                                 then UpdatePlan(old(store.plans), msgId, (p: FakePlan) => p.(status := PlanCancelled, cancelledAt := Some(now)))
                                 else old(store.plans)) &&
                 (r.Ok? <==> env.editError.None?) &&
                 (r.Ok? ==> r.value == why)) &&
              (!reached ==> r.Err? && unchanged(this) && unchanged(store))
    {
      if !env.systemUp {
        return Err("Giveaway system not available.");
      }
      if msgId !in store.giveaways || store.giveaways[msgId].status != Active {
        return Err("Not an active giveaway.");
      }
      if !env.channelFound {
        return Err("Could not find giveaway channel.");
      }
      if env.fetchError.Some? {
        return Err("Couldn't fetch giveaway message: " + env.fetchError.value);
      }
      var why := if reason.Some? then reason.value else DefaultCancelReason;
      if msgId in tasks {
        cancelSent := cancelSent + [msgId];
        store.plans := UpdatePlan(store.plans, msgId, (p: FakePlan) => p.(status := PlanCancelled, cancelledAt := Some(now)));
      }
      var gw := store.giveaways[msgId];
      store.giveaways := store.giveaways[msgId := gw.(status := Cancelled, cancelledAt := Some(now), cancelledBy := Some(userId), error := Some(why))];
      if env.editError.Some? {
        return Err("Error cancelling giveaway: " + env.editError.value);
      }
      r := Ok(why);
    }
  }
}
