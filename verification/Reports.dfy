/** What a worker is about to report, in every reachable state. */
module Reports {
  import opened Transactions
  import opened Forwarding
  import opened Protocol
  import opened Ownership

  /** Only a 2xx reply is reported as a success, and only a failure below the attempt limit of the
      rule that was read is given a retry time. */
  predicate ReportOk(w: Worker) {
    && (w.phase.Answered? && w.phase.exchange.success ==> IsSuccessStatus(w.phase.exchange.response.httpStatus))
    && (w.phase.Reporting? ==>
          var result := w.phase.result;
          && IsFinal(result.status)
          && (result.status.Succeeded? ==> IsSuccessStatus(result.response.httpStatus))
          && (result.status.Failed? ==>
                (result.nextRetryAt.Some? <==> w.claim.webhook.failureCount + 1 < MaxAttempts(w.phase.rule))))
  }

  predicate ReportsOk(sys: System) {
    forall w :: w in sys.workers ==> ReportOk(sys.workers[w])
  }

  lemma PrivateStepKeepsReports(sys: System, step: Step)
    requires ReportsOk(sys) && Enabled(sys, step) && IsPrivate(step)
    ensures ReportsOk(Apply(sys, step))
  {
    var next := Apply(sys, step);
    forall w | w in next.workers ensures ReportOk(next.workers[w]) {
      assert w in sys.workers && ReportOk(sys.workers[w]);
      if step.Reply? {
        JudgeSuccess(step.reply);
      }
    }
  }

  lemma StepKeepsReports(sys: System, step: Step)
    requires ReportsOk(sys) && Enabled(sys, step)
    ensures ReportsOk(Apply(sys, step))
  {
    if IsPrivate(step) {
      PrivateStepKeepsReports(sys, step);
    } else {
      var next := Apply(sys, step);
      forall w | w in next.workers ensures ReportOk(next.workers[w]) {
        assert w in sys.workers ==> ReportOk(sys.workers[w]);
      }
    }
  }

  lemma {:induction false} RunsReport(states: seq<System>, steps: seq<Step>, k: nat)
    requires IsRun(states, steps) && k < |states|
    ensures ReportsOk(states[k])
  {
    if k > 0 {
      RunsReport(states, steps, k - 1);
      assert StepAt(states, steps, k - 1);
      StepKeepsReports(states[k - 1], steps[k - 1]);
    }
  }
}
