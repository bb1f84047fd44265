/**
 * `cogs/bulkping.py`: pinging every human member of a role in batches,
 * with a retry pass for failures, persisted progress, cancellation and
 * resumption after a restart.
 *
 * Each ping is an outcome supplied by a function of the member id. The
 * cancel button is another task in the source; here it is a position
 * `cancelAt` in the sequence of cancel checks the operation makes (one
 * before every member of the first pass, then one before every id of the
 * retry pass), from which every later check sees the flag set.
 */
module BulkPing {
  import opened Common

  const CommandCooldown := 2
  const MaxConcurrent := 10
  const DmTrackingLimit := 1000

  datatype OpStatus = Running | Paused | Completed | Cancelled | Failed

  /** A row of the guild's `operations` table. */
  datatype Operation = Operation(userId: int, channelId: int, roleId: int, message: string, logChannelId: int,
                                 concurrent: int, status: OpStatus, totalMembers: int, pingedMembers: int,
                                 failedMembers: seq<int>, currentBatch: int, pingedIds: set<int>)

  /** The statuses `get_unfinished_operations` selects. */
  predicate Unfinished(op: Operation) { op.status == Running || op.status == Paused }

  datatype Member = Member(id: int, bot: bool)

  /** The non-bot members of a role, in role order. */
  function Humans(role: seq<Member>): (r: seq<int>)
    ensures |r| <= |role|
    ensures forall x :: x in r <==> Member(x, false) in role
  {
    if role == [] then []
    else
      var rest := Humans(role[1..]);
      assert forall m :: m in role <==> m == role[0] || m in role[1..];
      if role[0].bot then rest else [role[0].id] + rest
  }

  // ---------------------------------------------------------------------------
  // The /bulkping command
  // ---------------------------------------------------------------------------

  /** `concurrent` outside 1..10 is reset to 1. */
  function BatchSize(concurrent: int): (c: int)
    ensures 1 <= c <= MaxConcurrent
    ensures c == concurrent <==> 1 <= concurrent <= MaxConcurrent
    ensures c != concurrent ==> c == 1
  {
    if concurrent < 1 || concurrent > MaxConcurrent then 1 else concurrent
  }

  /** A second use within two seconds of the last one. */
  predicate CoolingDown(lastUsed: Option<int>, now: int)
  {
    lastUsed.Some? && now - lastUsed.value < CommandCooldown
  }

  datatype StartRefusal = NotAdministrator | OnCooldown | OperationRunning | NoHumans
  datatype Plan = Plan(concurrent: int, members: seq<int>)
  datatype StartReply = Preview(plan: Plan) | Refused(why: StartRefusal)

  /** The checks of `bulkping`, in the order the command makes them, and the plan it previews. */
  function CheckStart(admin: bool, lastUsed: Option<int>, now: int, concurrent: int, busy: bool,
                      role: seq<Member>): (r: StartReply)
    ensures r.Preview? <==> admin && !CoolingDown(lastUsed, now) && !busy && Humans(role) != []
    ensures r == Refused(NotAdministrator) <==> !admin
    ensures r == Refused(OnCooldown) <==> admin && CoolingDown(lastUsed, now)
    ensures r == Refused(OperationRunning) <==> admin && !CoolingDown(lastUsed, now) && busy
    ensures r.Preview? ==> 1 <= r.plan.concurrent <= MaxConcurrent && r.plan.members == Humans(role)
                           && (1 <= concurrent <= MaxConcurrent ==> r.plan.concurrent == concurrent)
  {
    if !admin then Refused(NotAdministrator)
    else if CoolingDown(lastUsed, now) then Refused(OnCooldown)
    else
      var c := BatchSize(concurrent);
      if busy then Refused(OperationRunning)
      else
        var members := Humans(role);
        if members == [] then Refused(NoHumans) else Preview(Plan(c, members))
  }

  // ---------------------------------------------------------------------------
  // Progress of one operation
  // ---------------------------------------------------------------------------

  /** How one ping went: the send failed, or it was sent and the messages that follow it went through or raised. */
  datatype Attempt = NotSent | Sent(followUpOk: bool)

  /** `pinged_count`, `failed_members` and `pinged_member_ids` of a running operation. */
  datatype Progress = Progress(count: int, failed: seq<int>, ids: set<int>)

  /**
   * One member: skipped when already pinged; a successful send adds the id
   * and counts it; a failure, or an error raised by the log message after a
   * successful send, appends the id to the failures.
   */
  function Step(p: Progress, m: int, a: Attempt): Progress
  {
    if m in p.ids then p
    else match a
      case NotSent => p.(failed := p.failed + [m])
      case Sent(ok) => Progress(p.count + 1, if ok then p.failed else p.failed + [m], p.ids + {m})
  }

  /** The progress after the members `ms`, in order. */
  function Pinged(p: Progress, ms: seq<int>, outcome: int -> Attempt): Progress
    decreases |ms|
  {
    if ms == [] then p
    else Step(Pinged(p, ms[..|ms| - 1], outcome), ms[|ms| - 1], outcome(ms[|ms| - 1]))
  }

  /** In the retry pass an id no longer in the guild counts as a failure without a send. */
  function RetryAttempt(inGuild: int -> bool, outcome: int -> Attempt): int -> Attempt
  {
    m => if inGuild(m) then outcome(m) else NotSent
  }

  lemma PingedSnoc(p: Progress, ms: seq<int>, j: nat, outcome: int -> Attempt)
    requires j < |ms|
    ensures Pinged(p, ms[..j + 1], outcome) == Step(Pinged(p, ms[..j], outcome), ms[j], outcome(ms[j]))
  {
    assert ms[..j + 1][..j] == ms[..j];
  }

  /**
   * What a run of pings does: the id set only grows, by exactly the members
   * whose send succeeded; the count grows with it; a member is listed as
   * failed exactly when it was attempted and did not go through cleanly.
   */
  lemma {:induction false} PingedEffect(p: Progress, ms: seq<int>, outcome: int -> Attempt)
    ensures var r := Pinged(p, ms, outcome);
            && p.ids <= r.ids
            && r.count - |r.ids| == p.count - |p.ids|
            && (forall x :: x in r.ids <==> x in p.ids || (x in ms && outcome(x).Sent?))
            && (forall x :: x in r.failed <==> x in p.failed || (x in ms && x !in p.ids && outcome(x) != Sent(true)))
    decreases |ms|
  {
    if ms != [] {
      var init := ms[..|ms| - 1];
      var m := ms[|ms| - 1];
      PingedEffect(p, init, outcome);
      assert forall x :: x in ms <==> x in init || x == m;
      var q := Pinged(p, init, outcome);
      if m !in q.ids && outcome(m).Sent? {
        assert |q.ids + {m}| == |q.ids| + 1;
      }
    }
  }

  // ---------------------------------------------------------------------------
  // Cancellation checks and batches
  // ---------------------------------------------------------------------------

  /** Whether the cancel flag is seen by the check at position `pos`. */
  predicate SeenAt(cancelAt: Option<nat>, pos: int)
  {
    cancelAt.Some? && cancelAt.value <= pos
  }

  /**
   * How many of `len` checks starting at position `base` pass before the
   * flag is seen: the last of them does not see it, the next one does.
   */
  function Stop(len: nat, base: nat, cancelAt: Option<nat>): (k: nat)
    ensures k <= len
    ensures k > 0 ==> !SeenAt(cancelAt, base + k - 1)
    ensures k < len ==> SeenAt(cancelAt, base + k)
  {
    if cancelAt.None? || cancelAt.value >= base + len then len
    else if cancelAt.value < base then 0
    else cancelAt.value - base
  }

  /** Number of batches of `c` over `n` members: the smallest `k` with `n <= k * c`. */
  function BatchCount(n: nat, c: nat): (k: nat)
    requires c >= 1
    ensures (k == 0) == (n == 0)
    ensures k > 0 ==> (k - 1) * c < n <= k * c
    decreases n
  {
    if n == 0 then 0
    else if n <= c then 1
    else
      var k := BatchCount(n - c, c);
      MulStep(k, c);
      k + 1
  }

  lemma MulStep(k: nat, c: nat)
    ensures (k + 1) * c == k * c + c
  {
  }

  lemma MulNat(a: nat, b: nat)
    ensures a * b >= 0
  {
  }

  /** `BatchCount` is the only such `k`. */
  lemma {:induction false} BatchCountOf(n: nat, c: nat, k: nat)
    requires c >= 1 && k >= 1 && (k - 1) * c < n <= k * c
    ensures BatchCount(n, c) == k
    decreases k
  {
    if k > 1 {
      MulStep(k - 2, c);
      MulStep(k - 1, c);
      MulNat(k - 2, c);
      BatchCountOf(n - c, c, k - 1);
    } else {
      assert k * c == c;
    }
  }

  /**
   * One batch: the members from `start` to `end`, each after a check of the
   * cancel flag. Returns the progress and where it stopped.
   */
  method Batch(members: seq<int>, start: nat, end: nat, init: Progress, p0: Progress, cancelAt: Option<nat>,
               outcome: int -> Attempt) returns (p: Progress, j: nat)
    requires start <= end <= |members| && start <= Stop(|members|, 0, cancelAt)
    requires p0 == Pinged(init, members[..start], outcome)
    ensures start <= j <= end && j <= Stop(|members|, 0, cancelAt)
    ensures j < end ==> j == Stop(|members|, 0, cancelAt)
    ensures p == Pinged(init, members[..j], outcome)
  {
    ghost var stop := Stop(|members|, 0, cancelAt);
    p, j := p0, start;
    while j < end && !SeenAt(cancelAt, j)
      invariant start <= j <= end && j <= stop
      invariant p == Pinged(init, members[..j], outcome)
    {
      PingedSnoc(init, members, j, outcome);
      p := Step(p, members[j], outcome(members[j]));
      j := j + 1;
    }
  }

  /**
   * The first pass of `execute_bulk_ping`: members in batches of `c`; before
   * each batch the progress is saved, and before each member the cancel
   * flag is checked. Returns the progress, the number of batches started
   * and the progress saved at the start of the last of them.
   */
  method MainPass(members: seq<int>, c: nat, init: Progress, cancelAt: Option<nat>, outcome: int -> Attempt)
    returns (p: Progress, batches: nat, saved: Progress)
    requires c >= 1
    ensures p == Pinged(init, members[..Stop(|members|, 0, cancelAt)], outcome)
    ensures batches == BatchCount(Stop(|members|, 0, cancelAt), c)
    ensures saved == if batches == 0 then init else Pinged(init, members[..(batches - 1) * c], outcome)
  {
    ghost var stop := Stop(|members|, 0, cancelAt);
    p, batches, saved := init, 0, init;
    var b := 0;
    var done := 0;
    ghost var last := 0;
    var halted := false;
    while b < |members| && !halted
      invariant b == batches * c
      invariant done <= stop && p == Pinged(init, members[..done], outcome)
      invariant !halted ==> done == Min(b, |members|)
      invariant halted ==> done == stop && stop <= b
      invariant batches > 0 ==> last + c == b && last < stop && saved == Pinged(init, members[..last], outcome)
      invariant batches == 0 ==> saved == init
      decreases |members| - b, if halted then 0 else 1
    {
      if SeenAt(cancelAt, b) {
        halted := true;
      } else {
        saved, last := p, b;
        MulStep(batches, c);
        batches := batches + 1;
        var end := Min(b + c, |members|);
        p, done := Batch(members, b, end, init, p, cancelAt, outcome);
        if done < end {
          halted := true;
        }
        b := b + c;
      }
    }
    if batches > 0 {
      MulStep(batches - 1, c);
      BatchCountOf(stop, c, batches);
    }
  }

  /**
   * `retry_failed_pings`: each id not pinged meanwhile is looked up again
   * and pinged once more; one no longer in the guild stays failed. The
   * failures of this pass replace the earlier list.
   */
  method RetryPass(ids: seq<int>, base: nat, p0: Progress, cancelAt: Option<nat>, inGuild: int -> bool,
                   outcome: int -> Attempt) returns (p: Progress)
    ensures p == Pinged(p0, ids[..Stop(|ids|, base, cancelAt)], RetryAttempt(inGuild, outcome))
  {
    ghost var o := RetryAttempt(inGuild, outcome);
    p := p0;
    var j := 0;
    while j < |ids| && !SeenAt(cancelAt, base + j)
      invariant 0 <= j <= Stop(|ids|, base, cancelAt)
      invariant p == Pinged(p0, ids[..j], o)
    {
      PingedSnoc(p0, ids, j, o);
      var m := ids[j];
      if m in p.ids {
      } else if !inGuild(m) {
        p := p.(failed := p.failed + [m]);
      } else {
        match outcome(m)
        case NotSent =>
          p := p.(failed := p.failed + [m]);
        case Sent(ok) =>
          p := Progress(p.count + 1, if ok then p.failed else p.failed + [m], p.ids + {m});
      }
      j := j + 1;
    }
  }

  // ---------------------------------------------------------------------------
  // A whole run, as a function of its inputs
  // ---------------------------------------------------------------------------

  /** The ids the retry pass targets: failed ones not pinged since. */
  function RetryList(p: Progress): (r: seq<int>)
    ensures forall x :: x in r <==> x in p.failed && x !in p.ids
  {
    Filter(p.failed, x => x !in p.ids)
  }

  /** The run's choices and outcomes. */
  datatype Outcomes = Outcomes(cancelAt: Option<nat>, first: int -> Attempt, inGuild: int -> bool, retry: int -> Attempt)

  function AfterFirst(members: seq<int>, init: Progress, o: Outcomes): Progress
  {
    Pinged(init, members[..Stop(|members|, 0, o.cancelAt)], o.first)
  }

  /** The retry pass runs when there is something to retry and the flag is not yet set. */
  predicate RetryRuns(members: seq<int>, init: Progress, o: Outcomes)
  {
    RetryList(AfterFirst(members, init, o)) != [] && !SeenAt(o.cancelAt, |members|)
  }

  function AfterRetry(members: seq<int>, init: Progress, o: Outcomes): Progress
  {
    var p := AfterFirst(members, init, o);
    var l := RetryList(p);
    Pinged(Progress(p.count, [], p.ids), l[..Stop(|l|, |members|, o.cancelAt)], RetryAttempt(o.inGuild, o.retry))
  }

  /** The progress `finalize_operation` reports. */
  function Final(members: seq<int>, init: Progress, o: Outcomes): Progress
  {
    if RetryRuns(members, init, o) then AfterRetry(members, init, o) else AfterFirst(members, init, o)
  }

  /**
   * The operation row after a run: the batch saves, the retry pass's write
   * of failures, count and ids, and the final status and count.
   */
  function AfterRun(op: Operation, members: seq<int>, init: Progress, o: Outcomes): (r: Operation)
    requires op.concurrent >= 1
    ensures r.userId == op.userId && r.channelId == op.channelId && r.roleId == op.roleId
    ensures r.message == op.message && r.logChannelId == op.logChannelId
    ensures r.concurrent == op.concurrent && r.totalMembers == op.totalMembers
  {
    var c := op.concurrent;
    var batches := BatchCount(Stop(|members|, 0, o.cancelAt), c);
    var saved := if batches == 0 then init else Pinged(init, members[..(batches - 1) * c], o.first);
    var withBatches := if batches == 0 then op
                       else op.(currentBatch := batches, pingedMembers := saved.count, pingedIds := saved.ids);
    var f := Final(members, init, o);
    var withRetry := if RetryRuns(members, init, o)
                     then withBatches.(failedMembers := f.failed, pingedMembers := f.count, pingedIds := f.ids)
                     else withBatches;
    withRetry.(status := if o.cancelAt.Some? then Cancelled else Completed, pingedMembers := f.count)
  }

  /** The final status is 'cancelled' exactly when the flag was set, 'completed' otherwise. */
  lemma AfterRunStatus(op: Operation, members: seq<int>, init: Progress, o: Outcomes)
    requires op.concurrent >= 1
    ensures AfterRun(op, members, init, o).status == Cancelled <==> o.cancelAt.Some?
    ensures AfterRun(op, members, init, o).status == Completed <==> o.cancelAt.None?
    ensures AfterRun(op, members, init, o).pingedMembers == Final(members, init, o).count
  {
  }

  /**
   * The retry pass pings only ids that failed in the first pass and were
   * not pinged there, and an id no longer in the guild stays failed.
   */
  lemma RetryTargetsFailures(members: seq<int>, init: Progress, o: Outcomes)
    requires RetryRuns(members, init, o)
    ensures var p := AfterFirst(members, init, o);
            var r := AfterRetry(members, init, o);
            && (forall x :: x in r.ids && x !in p.ids ==> x in p.failed && o.inGuild(x))
            && (forall x :: x in r.failed ==> x in p.failed && x !in p.ids)
            && (forall x :: x in RetryList(p) && !o.inGuild(x) && !SeenAt(o.cancelAt, |members|) ==>
                  (x in r.failed || Stop(|RetryList(p)|, |members|, o.cancelAt) < |RetryList(p)|))
  {
    var p := AfterFirst(members, init, o);
    var l := RetryList(p);
    var k := Stop(|l|, |members|, o.cancelAt);
    var ro := RetryAttempt(o.inGuild, o.retry);
    PingedEffect(Progress(p.count, [], p.ids), l[..k], ro);
    assert forall x :: x in l[..k] ==> x in l;
    forall x | x in l && !o.inGuild(x) && k == |l|
      ensures x in AfterRetry(members, init, o).failed
    {
      assert l[..k] == l;
      assert ro(x) == NotSent;
    }
  }

  /**
   * A run from nothing pinged: the count is exactly the number of distinct
   * members pinged, each of them one of `members`, so it never exceeds the
   * total the dashboard shows.
   */
  lemma FreshRunCount(members: seq<int>, o: Outcomes)
    ensures var f := Final(members, Progress(0, [], {}), o);
            && f.count == |f.ids| && (forall x :: x in f.ids ==> x in members)
            && f.count <= |members|
  {
    var init := Progress(0, [], {});
    var k := Stop(|members|, 0, o.cancelAt);
    var p := Pinged(init, members[..k], o.first);
    PingedEffect(init, members[..k], o.first);
    forall x | x in p.ids || x in p.failed ensures x in members {
      assert x in members[..k];
    }
    var f := Final(members, init, o);
    if RetryRuns(members, init, o) {
      var l := RetryList(p);
      var rk := Stop(|l|, |members|, o.cancelAt);
      PingedEffect(Progress(p.count, [], p.ids), l[..rk], RetryAttempt(o.inGuild, o.retry));
      forall x | x in f.ids ensures x in members {
        if x !in p.ids {
          assert x in l[..rk];
          assert x in l;
        }
      }
    }
    ghost var ms := set x | x in members;
    assert f.ids <= ms;
    SubsetCard(f.ids, ms);
    CardAtMostLength(members);
  }

  /**
   * The two passes of `execute_bulk_ping` over a stored operation, and the
   * row writes they make: the batch saves, the retry pass's write of
   * failures, count and ids, and the final status and count.
   */
  method Run(op: Operation, members: seq<int>, init: Progress, o: Outcomes) returns (row: Operation, p: Progress)
    requires op.concurrent >= 1
    ensures row == AfterRun(op, members, init, o) && p == Final(members, init, o)
  {
    var batches, saved;
    p, batches, saved := MainPass(members, op.concurrent, init, o.cancelAt, o.first);
    assert p == AfterFirst(members, init, o);
    row := op;
    if batches > 0 {
      row := row.(currentBatch := batches, pingedMembers := saved.count, pingedIds := saved.ids);
    }
    var retryIds := RetryList(p);
    if retryIds != [] && !SeenAt(o.cancelAt, |members|) {
      var q := RetryPass(retryIds, |members|, Progress(p.count, [], p.ids), o.cancelAt, o.inGuild, o.retry);
      assert q == AfterRetry(members, init, o);
      row := row.(failedMembers := q.failed, pingedMembers := q.count, pingedIds := q.ids);
      p := q;
    }
    row := row.(status := if o.cancelAt.Some? then Cancelled else Completed, pingedMembers := p.count);
  }

  /** What `finalize_operation` reports. */
  datatype Analytics = Analytics(total: int, pinged: int, failedCount: int, cancelled: bool, dmSent: bool)

  // ---------------------------------------------------------------------------
  // The analytics DM, once per operation
  // ---------------------------------------------------------------------------

  /**
   * As written, `dm_sent_operations` holds bare operation ids, while each
   * guild's operations are numbered by its own database from 1.
   */
  function DmDueAsWritten(dmSent: set<int>, opId: int): (r: (bool, set<int>))
    ensures r.1 == dmSent + {opId}
    ensures r.0 <==> opId !in dmSent
  {
    if opId !in dmSent then (true, dmSent + {opId}) else (false, dmSent)
  }

  /** Guild 10 finishes its operation #1, then guild 20 finishes its own #1 and gets no DM. */
  lemma SharedOpIdSkipsDm()
    ensures var first := DmDueAsWritten({}, 1);
            first.0 && !DmDueAsWritten(first.1, 1).0
  {
  }

  /** Tracking by (guild, operation id): the DM is due exactly once per operation. */
  function DmDue(dmSent: set<(int, int)>, g: int, opId: int): (r: (bool, set<(int, int)>))
    ensures r.1 == dmSent + {(g, opId)}
    ensures r.0 <==> (g, opId) !in dmSent
  {
    if (g, opId) !in dmSent then (true, dmSent + {(g, opId)}) else (false, dmSent)
  }

  /** Once due, never again for the same operation; another guild's operation of the same number is unaffected. */
  lemma DmOncePerOperation(dmSent: set<(int, int)>, g: int, opId: int, h: int)
    requires h != g && (h, opId) !in dmSent
    ensures !DmDue(DmDue(dmSent, g, opId).1, g, opId).0
    ensures DmDue(DmDue(dmSent, g, opId).1, h, opId).0
  {
  }

  datatype ResumeReply = Skipped | MarkedFailed | MarkedCompleted | Resumed(analytics: Analytics)

  /** The cog: operations per guild database, the running operations, their cancel flags and the DM tracking. */
  class BulkPingCog {
    var ops: map<(int, int), Operation>
    var nextId: map<int, int>
    var active: set<int>
    var cancelFlags: map<int, bool>
    var dmSent: set<(int, int)>
    var cooldowns: map<(int, int), int>

    /** Every operation is numbered below its guild's next id and has a valid batch size. */
    ghost predicate Valid()
      reads this
    {
      forall g, id :: (g, id) in ops ==> g in nextId && 1 <= id < nextId[g] && 1 <= ops[(g, id)].concurrent <= MaxConcurrent
    }

    constructor()
      ensures Valid() && ops == map[] && nextId == map[] && active == {} && cancelFlags == map[]
      ensures dmSent == {} && cooldowns == map[]
    {
      ops, nextId, active, cancelFlags, dmSent, cooldowns := map[], map[], {}, map[], {}, map[];
    }

    function LastUsed(g: int, u: int): Option<int>
      reads this
    {
      if (g, u) in cooldowns then Some(cooldowns[(g, u)]) else None
    }

    /** `bulkping`: the checks, and the cooldown recorded once the preview is shown. */
    method RequestBulkPing(g: int, u: int, admin: bool, now: int, concurrent: int, role: seq<Member>)
      returns (r: StartReply)
      modifies this
      ensures r == CheckStart(admin, old(LastUsed(g, u)), now, concurrent, g in old(active), role)
      ensures cooldowns == if r.Preview? then old(cooldowns)[(g, u) := now] else old(cooldowns)
      ensures ops == old(ops) && nextId == old(nextId) && active == old(active)
      ensures cancelFlags == old(cancelFlags) && dmSent == old(dmSent)
    {
      r := CheckStart(admin, LastUsed(g, u), now, concurrent, g in active, role);
      if r.Preview? {
        cooldowns := cooldowns[(g, u) := now];
      }
    }

    /**
     * `execute_bulk_ping` and `finalize_operation` for a stored operation:
     * the two passes, the row updates, the final status, the DM tracking,
     * and the guild's entries in the running and cancel-flag tables removed.
     */
    method Execute(g: int, opId: int, members: seq<int>, init: Progress, o: Outcomes) returns (a: Analytics)
      requires Valid() && (g, opId) in ops
      modifies this
      ensures Valid()
      ensures ops == old(ops)[(g, opId) := AfterRun(old(ops)[(g, opId)], members, init, o)]
      ensures a == Analytics(|members| + |init.ids|, Final(members, init, o).count,
                             |Final(members, init, o).failed|, o.cancelAt.Some?, (g, opId) !in old(dmSent))
      ensures dmSent == old(dmSent) + {(g, opId)}
      ensures active == old(active) - {g} && cancelFlags == old(cancelFlags) - {g}
      ensures nextId == old(nextId) && cooldowns == old(cooldowns)
    {
      var row, p := Run(ops[(g, opId)], members, init, o);
      var total := |members| + |init.ids|;
      ops := ops[(g, opId) := row];
      var cancelled := o.cancelAt.Some?;
      var due := DmDue(dmSent, g, opId);
      dmSent := due.1;
      a := Analytics(total, p.count, |p.failed|, cancelled, due.0);
      active := active - {g};
      cancelFlags := cancelFlags - {g};
    }

    /** The operation number the guild's database assigns next. */
    function NextOpId(g: int): (id: int)
      reads this
      requires Valid()
      ensures id >= 1 && forall k :: k in ops && k.0 == g ==> k.1 < id
    {
      if g in nextId then Max(nextId[g], 1) else 1
    }

    /**
     * The Start button: the operation is saved as running with nothing
     * pinged and marked as the guild's running operation. The asyncio task it
     * creates is `Execute` over the plan's members from empty progress; the
     * task first stores the guild's operation state with `cancelled` false.
     */
    method Start(g: int, u: int, channelId: int, roleId: int, message: string, logChannelId: int, plan: Plan)
      returns (opId: int)
      requires Valid() && 1 <= plan.concurrent <= MaxConcurrent
      modifies this
      ensures Valid()
      ensures opId == old(NextOpId(g)) && (g, opId) !in old(ops)
      ensures ops == old(ops)[(g, opId) := Operation(u, channelId, roleId, message, logChannelId, plan.concurrent,
                                                     Running, |plan.members|, 0, [], 0, {})]
      ensures nextId == old(nextId)[g := opId + 1] && active == old(active) + {g}
      ensures cancelFlags == old(cancelFlags)[g := false]
      ensures dmSent == old(dmSent) && cooldowns == old(cooldowns)
    {
      opId := NextOpId(g);
      var op := Operation(u, channelId, roleId, message, logChannelId, plan.concurrent, Running,
                          |plan.members|, 0, [], 0, {});
      ops := ops[(g, opId) := op];
      nextId := nextId[g := opId + 1];
      active := active + {g};
      cancelFlags := cancelFlags[g := false];
    }

    /**
     * `resume_operations` and `resume_bulk_ping_operation` for one
     * unfinished operation: skipped while the guild has a running
     * operation; otherwise the guild is marked busy, and the operation is
     * marked failed when its channel, role or log channel is gone,
     * completed when every human of the role was already pinged, and
     * otherwise executed over the members not yet pinged from its saved
     * progress.
     */
    method Resume(g: int, opId: int, channelOk: bool, roleOk: bool, logOk: bool, role: seq<Member>,
                  o: Outcomes) returns (r: ResumeReply)
      requires Valid() && (g, opId) in ops && Unfinished(ops[(g, opId)])
      modifies this
      ensures Valid()
      ensures r == Skipped <==> g in old(active)
      ensures r == Skipped ==> ops == old(ops) && active == old(active)
      ensures r == MarkedFailed <==> g !in old(active) && !(channelOk && roleOk && logOk)
      ensures r == MarkedFailed ==> ops == old(ops)[(g, opId) := old(ops)[(g, opId)].(status := Failed)]
      ensures var op := old(ops)[(g, opId)];
              var rest := Filter(Humans(role), x => x !in op.pingedIds);
              && (r == MarkedCompleted <==> g !in old(active) && channelOk && roleOk && logOk && rest == [])
              && (r == MarkedCompleted ==> ops == old(ops)[(g, opId) := op.(status := Completed)])
              && (r.Resumed? ==>
                    ops == old(ops)[(g, opId) := AfterRun(op, rest, Progress(op.pingedMembers, op.failedMembers, op.pingedIds), o)]
                    && r.analytics.total == |rest| + |op.pingedIds|)
      ensures r == MarkedFailed || r == MarkedCompleted ==> active == old(active) + {g}
      ensures r.Resumed? ==> active == old(active) - {g}
      ensures !r.Resumed? ==> dmSent == old(dmSent) && cancelFlags == old(cancelFlags)
      ensures r.Resumed? ==> dmSent == old(dmSent) + {(g, opId)} && cancelFlags == old(cancelFlags) - {g}
      ensures nextId == old(nextId) && cooldowns == old(cooldowns)
    {
      if g in active {
        return Skipped;
      }
      active := active + {g};
      var op := ops[(g, opId)];
      if !(channelOk && roleOk && logOk) {
        ops := ops[(g, opId) := op.(status := Failed)];
        return MarkedFailed;
      }
      var rest := Filter(Humans(role), x => x !in op.pingedIds);
      if rest == [] {
        ops := ops[(g, opId) := op.(status := Completed)];
        return MarkedCompleted;
      }
      var a := Execute(g, opId, rest, Progress(op.pingedMembers, op.failedMembers, op.pingedIds), o);
      r := Resumed(a);
    }

    /** `cancel_operation`: sets the flag of a running operation; nothing else. */
    method CancelOperation(g: int)
      modifies this
      ensures g in old(cancelFlags) ==> cancelFlags == old(cancelFlags)[g := true] && cancelFlags[g]
      ensures g !in old(cancelFlags) ==> cancelFlags == old(cancelFlags)
      ensures ops == old(ops) && active == old(active) && dmSent == old(dmSent)
      ensures nextId == old(nextId) && cooldowns == old(cooldowns)
    {
      if g in cancelFlags {
        cancelFlags := cancelFlags[g := true];
      }
    }

    /** `cleanup_task`: finished tasks leave the running table; the DM tracking is cleared past 1000 entries. */
    method Cleanup(done: set<int>)
      modifies this
      ensures active == old(active) - done
      ensures dmSent == if |old(dmSent)| > DmTrackingLimit then {} else old(dmSent)
      ensures ops == old(ops) && cancelFlags == old(cancelFlags)
      ensures nextId == old(nextId) && cooldowns == old(cooldowns)
    {
      active := active - done;
      if |dmSent| > DmTrackingLimit {
        dmSent := {};
      }
    }
  }
}
