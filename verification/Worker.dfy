/** The worker: one pass of the monitoring logic over its monitors, and the thread loop around it.
    Instants are in nanoseconds; clock readings and what the monitors report are inputs. */
module Worker {
  import opened Common
  import DeadlineMonitor
  import HeartbeatMonitor
  import LogicMonitor

  datatype MonitorEvaluationError =
    | Deadline(deadlineError: DeadlineMonitor.EvaluationError)
    | Heartbeat(heartbeatError: HeartbeatMonitor.EvaluationError)
    | Logic(logicError: LogicMonitor.EvaluationError)

  /** One iteration of the thread loop: when it woke, what each monitor reported, when the time since the last
      notification was checked, when the new one was recorded, when the supervisor was then called, and when the time
      spent was measured. */
  datatype Iteration = Iteration(wake: nat, reports: seq<seq<MonitorEvaluationError>>,
                                 checkAt: nat, storeAt: nat, callAt: nat, doneAt: nat)

  predicate NoErrors(reports: seq<seq<MonitorEvaluationError>>) {
    forall i :: 0 <= i < |reports| ==> reports[i] == []
  }

  predicate Due(last: nat, supervisorCycle: nat, checkAt: nat) {
    checkAt > last + supervisorCycle
  }

  /** The instants recorded as notifications by a sequence of iterations that starts with a given
      last notification; the loop ends at the first iteration with an error. */
  function Notifications(last: nat, supervisorCycle: nat, its: seq<Iteration>): seq<nat>
    decreases its
  {
    if its == [] || !NoErrors(its[0].reports) then []
    else if Due(last, supervisorCycle, its[0].checkAt) then
      [its[0].storeAt] + Notifications(its[0].storeAt, supervisorCycle, its[1..])
    else Notifications(last, supervisorCycle, its[1..])
  }

  /** The sleep asked for before iteration `k`: the interval, less the time the pass before it took. */
  function SleepBefore(interval: nat, its: seq<Iteration>, k: nat): int
    requires k <= |its|
  {
    if k == 0 then interval else interval - (its[k - 1].doneAt - its[k - 1].wake)
  }

  /** The instants at which those notifications are sent: each right after it was recorded. */
  function Calls(last: nat, supervisorCycle: nat, its: seq<Iteration>): seq<nat>
    decreases its
  {
    if its == [] || !NoErrors(its[0].reports) then []
    else if Due(last, supervisorCycle, its[0].checkAt) then
      [its[0].callAt] + Calls(its[0].storeAt, supervisorCycle, its[1..])
    else Calls(last, supervisorCycle, its[1..])
  }

  class MonitoringLogic {
    const supervisorCycle: nat
    var lastNotification: nat
    var notified: seq<nat>
    var called: seq<nat>

    constructor (supervisorCycle: nat, now: nat)
      ensures this.supervisorCycle == supervisorCycle && lastNotification == now && notified == [] && called == []
    {
      this.supervisorCycle := supervisorCycle;
      lastNotification := now;
      notified, called := [], [];
    }

    /** One pass: notifies exactly when no monitor reported anything and a notification is due,
        and answers whether the thread should go on. */
    method Run(it: Iteration) returns (healthy: bool)
      modifies this
      ensures healthy == NoErrors(it.reports)
      ensures if healthy && Due(old(lastNotification), supervisorCycle, it.checkAt)
              then notified == old(notified) + [it.storeAt] && called == old(called) + [it.callAt]
                && lastNotification == it.storeAt
              else notified == old(notified) && called == old(called) && lastNotification == old(lastNotification)
    {
      var hasAnyError := false;
      for i := 0 to |it.reports|
        invariant hasAnyError <==> exists k :: 0 <= k < i && it.reports[k] != []
        invariant notified == old(notified) && called == old(called) && lastNotification == old(lastNotification)
      {
        for j := 0 to |it.reports[i]|
          invariant hasAnyError <==> j > 0 || exists k :: 0 <= k < i && it.reports[k] != []
        {
          hasAnyError := true;
        }
      }
      if !hasAnyError {
        if it.checkAt > lastNotification + supervisorCycle {
          lastNotification := it.storeAt;
          notified := notified + [it.storeAt];
          called := called + [it.callAt];
        }
      } else {
        return false;
      }
      healthy := true;
    }

    /** The thread loop over the iterations that happen before the stop flag is seen; it breaks at
        the first error. The sleep time is `interval` minus the time one pass took. */
    method ThreadLoop(interval: nat, its: seq<Iteration>) returns (passes: nat, sleeps: seq<nat>)
      requires forall i :: 0 <= i < |its| ==> its[i].wake <= its[i].doneAt <= its[i].wake + interval
      modifies this
      ensures notified == old(notified) + Notifications(old(lastNotification), supervisorCycle, its)
      ensures called == old(called) + Calls(old(lastNotification), supervisorCycle, its)
      ensures passes <= |its|
      ensures forall k :: 0 <= k < passes - 1 ==> NoErrors(its[k].reports)
      ensures passes < |its| ==> passes > 0 && !NoErrors(its[passes - 1].reports)
      ensures |sleeps| == passes && forall k :: 0 <= k < passes ==> sleeps[k] == SleepBefore(interval, its, k)
    {
      passes, sleeps := 0, [];
      var nextSleepTime := interval;
      while passes < |its|
        invariant 0 <= passes <= |its| && nextSleepTime == SleepBefore(interval, its, passes)
        invariant forall k :: 0 <= k < passes ==> NoErrors(its[k].reports)
        invariant |sleeps| == passes && forall k :: 0 <= k < passes ==> sleeps[k] == SleepBefore(interval, its, k)
        invariant notified + Notifications(lastNotification, supervisorCycle, its[passes..]) ==
                  old(notified) + Notifications(old(lastNotification), supervisorCycle, its)
        invariant called + Calls(lastNotification, supervisorCycle, its[passes..]) ==
                  old(called) + Calls(old(lastNotification), supervisorCycle, its)
      {
        var it := its[passes];
        assert its[passes..][1..] == its[passes + 1..];
        sleeps := sleeps + [nextSleepTime];
        var healthy := Run(it);
        passes := passes + 1;
        if !healthy {
          return;
        }
        nextSleepTime := interval - (it.doneAt - it.wake);
      }
    }
  }

  // ---- Spacing of notifications ------------------------------------------------------------

  ghost predicate InOrder(its: seq<Iteration>) {
    forall i :: 0 <= i < |its| ==> its[i].wake <= its[i].checkAt <= its[i].storeAt <= its[i].callAt <= its[i].doneAt
  }

  /** Each pass takes less than the interval, and each sleep lasts at least as long as asked for. */
  ghost predicate Paced(interval: nat, its: seq<Iteration>) {
    && InOrder(its)
    && (forall i :: 0 <= i < |its| ==> its[i].doneAt < its[i].wake + interval)
    && (forall i :: 0 < i < |its| ==> its[i - 1].doneAt + SleepBefore(interval, its, i) <= its[i].wake)
  }

  ghost predicate SpacedBy(gap: nat, times: seq<nat>) {
    forall i :: 0 < i < |times| ==> times[i - 1] + gap < times[i]
  }

  /** Consecutive notifications are strictly more than the supervisor cycle apart, and so is the
      first from the creation of the monitoring logic. */
  lemma {:induction false} NotificationsAreSpaced(last: nat, supervisorCycle: nat, its: seq<Iteration>)
    requires InOrder(its)
    ensures SpacedBy(supervisorCycle, [last] + Notifications(last, supervisorCycle, its))
    decreases its
  {
    if its != [] {
      var rest := its[1..];
      assert forall i :: 0 <= i < |rest| ==> rest[i] == its[i + 1];
      var next := if Due(last, supervisorCycle, its[0].checkAt) then its[0].storeAt else last;
      NotificationsAreSpaced(next, supervisorCycle, rest);
      if NoErrors(its[0].reports) && Due(last, supervisorCycle, its[0].checkAt) {
        SpacedCons(supervisorCycle, last, [next] + Notifications(next, supervisorCycle, rest));
        assert [last] + Notifications(last, supervisorCycle, its) ==
               [last] + ([next] + Notifications(next, supervisorCycle, rest));
      }
    }
  }

  /** Each call follows its record by at most `lag`. */
  lemma {:induction false} CallsFollowRecords(last: nat, supervisorCycle: nat, its: seq<Iteration>, lag: nat)
    requires InOrder(its) && forall i :: 0 <= i < |its| ==> its[i].callAt <= its[i].storeAt + lag
    ensures var records, calls := Notifications(last, supervisorCycle, its), Calls(last, supervisorCycle, its);
            |calls| == |records| && forall i :: 0 <= i < |calls| ==> records[i] <= calls[i] <= records[i] + lag
    decreases its
  {
    if its != [] {
      assert forall i :: 0 <= i < |its| - 1 ==> its[1..][i] == its[i + 1];
      var next := if Due(last, supervisorCycle, its[0].checkAt) then its[0].storeAt else last;
      CallsFollowRecords(next, supervisorCycle, its[1..], lag);
    }
  }

  /** The records are spaced, not the calls: consecutive calls are more than the supervisor cycle apart but for the time
      the earlier one took from its record to its call. */
  lemma CallsAreSpaced(last: nat, supervisorCycle: nat, its: seq<Iteration>, lag: nat)
    requires InOrder(its) && lag <= supervisorCycle
             && forall i :: 0 <= i < |its| ==> its[i].callAt <= its[i].storeAt + lag
    ensures SpacedBy(supervisorCycle - lag, Calls(last, supervisorCycle, its))
  {
    var records, calls := Notifications(last, supervisorCycle, its), Calls(last, supervisorCycle, its);
    CallsFollowRecords(last, supervisorCycle, its, lag);
    NotificationsAreSpaced(last, supervisorCycle, its);
    forall i | 0 < i < |calls|
      ensures calls[i - 1] + (supervisorCycle - lag) < calls[i]
    {
      assert ([last] + records)[i + 1 - 1] == records[i - 1] && ([last] + records)[i + 1] == records[i];
    }
  }

  lemma SpacedCons(gap: nat, first: nat, times: seq<nat>)
    requires SpacedBy(gap, times) && times != [] && first + gap < times[0]
    ensures SpacedBy(gap, [first] + times)
  {
    var all := [first] + times;
    forall i | 0 < i < |all|
      ensures all[i - 1] + gap < all[i]
    {
      assert all[i] == times[i - 1];
      assert i > 1 ==> all[i - 1] == times[i - 2];
    }
  }

  /** Wake-ups are at least an interval apart. */
  lemma {:induction false} WakesAreSpaced(interval: nat, its: seq<Iteration>, k: nat)
    requires Paced(interval, its) && k < |its|
    ensures its[0].wake + k * interval <= its[k].wake
  {
    if k > 0 {
      WakesAreSpaced(interval, its, k - 1);
      assert (k - 1) * interval + interval == k * interval;
    }
  }

  /** With the supervisor cycle `multiple` intervals long, any `multiple + 1` error-free paced
      iterations notify at least once. */
  lemma {:induction false} NotifiesWithin(last: nat, interval: nat, multiple: nat, its: seq<Iteration>)
    requires Paced(interval, its) && |its| > multiple && last < its[0].wake
    requires forall i :: 0 <= i <= multiple ==> NoErrors(its[i].reports)
    ensures Notifications(last, multiple * interval, its) != []
  {
    WakesAreSpaced(interval, its, multiple);
    NotifiesOnceDue(last, multiple * interval, its, multiple);
  }

  /** Error-free iterations up to one in which a notification is due notify at least once. */
  lemma {:induction false} NotifiesOnceDue(last: nat, supervisorCycle: nat, its: seq<Iteration>, k: nat)
    requires k < |its| && Due(last, supervisorCycle, its[k].checkAt)
    requires forall i :: 0 <= i <= k ==> NoErrors(its[i].reports)
    ensures Notifications(last, supervisorCycle, its) != []
  {
    if k > 0 && !Due(last, supervisorCycle, its[0].checkAt) {
      assert forall i :: 0 <= i < |its| - 1 ==> its[1..][i] == its[i + 1];
      NotifiesOnceDue(last, supervisorCycle, its[1..], k - 1);
    }
  }

  /** A paced run stays paced without its first iteration, whose notification precedes the next wake. */
  lemma PacedTail(interval: nat, its: seq<Iteration>)
    requires Paced(interval, its) && |its| > 1
    ensures Paced(interval, its[1..]) && its[0].wake <= its[0].storeAt < its[1].wake
  {
    var rest := its[1..];
    assert forall i :: 0 <= i < |rest| ==> rest[i] == its[i + 1];
    assert its[1 - 1].doneAt + SleepBefore(interval, its, 1) <= its[1].wake;
    assert forall i :: 0 < i < |rest| ==>
             rest[i - 1] == its[i] && SleepBefore(interval, rest, i) == SleepBefore(interval, its, i + 1);
  }

  lemma PacedPrefix(interval: nat, its: seq<Iteration>, n: nat)
    requires Paced(interval, its) && n <= |its|
    ensures Paced(interval, its[..n]) && forall i :: 0 <= i < n ==> its[..n][i] == its[i]
  {
    var first := its[..n];
    assert forall i :: 0 < i < n ==>
             first[i - 1] == its[i - 1] && SleepBefore(interval, first, i) == SleepBefore(interval, its, i);
  }

  /** A notification that follows in the rest of the iterations follows in all of them. */
  lemma NotificationCarriesOver(last: nat, next: nat, cycle: nat, its: seq<Iteration>, from: nat, until: nat, at: nat)
    requires 0 < from <= until <= |its| && NoErrors(its[0].reports)
    requires next == if Due(last, cycle, its[0].checkAt) then its[0].storeAt else last
    requires Notifications(next, cycle, its[1..][..from - 1]) + [at] <=
             Notifications(next, cycle, its[1..][..until - 1])
    ensures Notifications(last, cycle, its[..from]) + [at] <= Notifications(last, cycle, its[..until])
  {
    assert its[..from][1..] == its[1..][..from - 1] && its[..until][1..] == its[1..][..until - 1];
  }

  lemma {:induction false} NotifiesAfter(interval: nat, multiple: nat, last: nat, its: seq<Iteration>, from: nat)
    returns (at: nat)
    requires Paced(interval, its) && its != [] && last < its[0].wake
    requires forall i :: 0 <= i < |its| ==> NoErrors(its[i].reports)
    requires from + multiple < |its|
    ensures Notifications(last, multiple * interval, its[..from]) + [at]
            <= Notifications(last, multiple * interval, its[..from + multiple + 1])
    decreases from
  {
    var cycle := multiple * interval;
    if from == 0 {
      PacedPrefix(interval, its, multiple + 1);
      NotifiesWithin(last, interval, multiple, its[..multiple + 1]);
      at := Notifications(last, cycle, its[..multiple + 1])[0];
      assert its[..0] == [];
    } else {
      PacedTail(interval, its);
      var next := if Due(last, cycle, its[0].checkAt) then its[0].storeAt else last;
      at := NotifiesAfter(interval, multiple, next, its[1..], from - 1);
      NotificationCarriesOver(last, next, cycle, its, from, from + multiple + 1, at);
    }
  }

  /** After any number of error-free paced iterations, one more notification follows within `K + 1` of them,
      where `K` is the supervisor cycle in intervals, whole by the builder's check. */
  lemma NotifiesAgain(interval: nat, supervisorCycle: nat, last: nat, its: seq<Iteration>, from: nat)
    requires interval > 0 && IsMultipleOf(supervisorCycle, interval)
    requires Paced(interval, its) && its != [] && last < its[0].wake
    requires forall i :: 0 <= i < |its| ==> NoErrors(its[i].reports)
    requires from + supervisorCycle / interval < |its|
    ensures exists at :: Notifications(last, supervisorCycle, its[..from]) + [at]
                         <= Notifications(last, supervisorCycle, its[..from + supervisorCycle / interval + 1])
  {
    var multiple := supervisorCycle / interval;
    assert multiple * interval == supervisorCycle;
    var at := NotifiesAfter(interval, multiple, last, its, from);
  }
}
