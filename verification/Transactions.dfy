/** Running an ordered list of steps in one transaction. */
module Transactions {
  import opened Wrappers

  /** What a step makes of the state it finds, unless it is refused. */
  type Steps<!S> = (S, nat) -> Option<S>

  /** The state after the first k steps, where none of them was refused. */
  function After<S>(start: S, steps: Steps<S>, k: nat): Option<S> {
    if k == 0 then Some(start)
    else
      match After(start, steps, k - 1)
      case None => None
      case Some(before) => steps(before, k - 1)
  }

  /** How much each of the first k steps affected. */
  function CountsAfter<S>(start: S, steps: Steps<S>, affected: (S, nat) -> nat, k: nat): seq<nat> {
    if k == 0 then []
    else
      match After(start, steps, k - 1)
      case None => CountsAfter(start, steps, affected, k - 1)
      case Some(before) => CountsAfter(start, steps, affected, k - 1) + [affected(before, k - 1)]
  }

  lemma {:induction false} RefusedStays<S>(start: S, steps: Steps<S>, k: nat, n: nat)
    requires k <= n && After(start, steps, k).None?
    ensures After(start, steps, n).None?
    decreases n
  {
    if k < n {
      RefusedStays(start, steps, k, n - 1);
    }
  }

  /** How many rows each step affected, in order; or which step was refused. */
  datatype Report = Report(counts: seq<nat>) | Refused(at: nat)

  /** Every step in order, or none of them. A dry run takes the same steps, reports the same, and keeps the
      state as it was. */
  method Run<S>(start: S, steps: Steps<S>, affected: (S, nat) -> nat, n: nat, dryRun: bool) returns (end: S, report: Report)
    ensures report.Report? <==> After(start, steps, n).Some?
    ensures report.Report? ==> report.counts == CountsAfter(start, steps, affected, n)
    ensures end == if report.Report? && !dryRun then After(start, steps, n).value else start
    ensures report.Refused? ==>
              report.at < n && After(start, steps, report.at).Some? && After(start, steps, report.at + 1).None?
  {
    var tx, counts := start, [];
    for k := 0 to n
      invariant After(start, steps, k) == Some(tx) && counts == CountsAfter(start, steps, affected, k)
    {
      counts := counts + [affected(tx, k)];
      match steps(tx, k) {
        case None =>
          RefusedStays(start, steps, k + 1, n);
          return start, Refused(k);
        case Some(next) => tx := next;
      }
    }
    return if dryRun then start else tx, Report(counts);
  }

  /** The first n steps of one list, then another. */
  function Then<S>(first: Steps<S>, n: nat, second: Steps<S>): Steps<S> {
    (s: S, k: nat) => if k < n then first(s, k) else second(s, k - n)
  }

  lemma {:induction false} AfterTheFirst<S>(start: S, first: Steps<S>, n: nat, second: Steps<S>, k: nat)
    requires k <= n
    ensures After(start, Then(first, n, second), k) == After(start, first, k)
  {
    if k > 0 {
      AfterTheFirst(start, first, n, second, k - 1);
    }
  }

  /** Running one list after another is running the second on what the first leaves. */
  lemma {:induction false} AfterBoth<S>(start: S, first: Steps<S>, n: nat, second: Steps<S>, k: nat)
    requires After(start, first, n).Some?
    ensures After(start, Then(first, n, second), n + k) == After(After(start, first, n).value, second, k)
  {
    if k == 0 {
      AfterTheFirst(start, first, n, second, n);
    } else {
      AfterBoth(start, first, n, second, k - 1);
    }
  }
}
