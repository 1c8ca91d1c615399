/** Paged GitHub lists and the CI verdict over them (`pages` in src/github/links.rs, `checks` and
    `pull` in src/github/view.rs). */
module GithubChecks {
  import opened Wrappers

  const PER_PAGE: nat := 100
  const MAX_PAGES: nat := 3

  /** One response: its entries, and `total_count` when it carries one. */
  datatype Batch<T> = Batch(items: seq<T>, total: Option<nat>)
  datatype Pages<T> = Pages(items: seq<T>, complete: bool)

  /** What a server answers to page 1, 2, 3. */
  type Server<!T> = nat -> Result<Batch<T>>

  // ----- the page loop -----

  /** `items_len_complete` (src/github/links.rs:326-328). */
  predicate LengthComplete(total: nat, last: nat, page: nat)
    requires page >= 1
  {
    (page - 1) * PER_PAGE + last >= total
  }

  /** `pages` from a given page on. */
  function PagesFrom<T>(serve: Server<T>, checks: bool, page: nat, items: seq<T>): Result<Pages<T>>
    requires page >= 1
    decreases MAX_PAGES + 1 - page
  {
    if page > MAX_PAGES then Ok(Pages(items, false)) else
      var r := serve(page);
      if r.Err? then Err else
        var batch := r.value.items;
        if |batch| > PER_PAGE then Ok(Pages(items + batch[..PER_PAGE], false)) else
          var all := items + batch;
          var total := if r.value.total.Some? then r.value.total.value else |all|;
          if checks && (|all| >= total || |batch| < PER_PAGE) then Ok(Pages(all, LengthComplete(total, |batch|, page)))
          else if !checks && |batch| < PER_PAGE then Ok(Pages(all, true))
          else PagesFrom(serve, checks, page + 1, all)
  }

  /** `pages` (src/github/links.rs:287-325). */
  method ReadPages<T>(serve: Server<T>, checks: bool) returns (r: Result<Pages<T>>)
    ensures r == PagesFrom(serve, checks, 1, [])
  {
    var items: seq<T> := [];
    for page := 1 to MAX_PAGES + 1
      invariant PagesFrom(serve, checks, 1, []) == PagesFrom(serve, checks, page, items)
    {
      var response := serve(page);
      if response.Err? {
        return Err;
      }
      var batch := response.value.items;
      if |batch| > PER_PAGE {
        return Ok(Pages(items + batch[..PER_PAGE], false));
      }
      items := items + batch;
      if checks {
        var total := if response.value.total.Some? then response.value.total.value else |items|;
        if |items| >= total || |batch| < PER_PAGE {
          return Ok(Pages(items, LengthComplete(total, |batch|, page)));
        }
      } else if |batch| < PER_PAGE {
        return Ok(Pages(items, true));
      }
    }
    r := Ok(Pages(items, false));
  }

  // ----- against an honest server -----

  function Least(a: nat, b: nat): nat { if a <= b then a else b }

  function Slice<T>(list: seq<T>, page: nat): seq<T>
    requires page >= 1
  {
    list[Least((page - 1) * PER_PAGE, |list|)..Least(page * PER_PAGE, |list|)]
  }

  /** Serves `list` in pages of 100, with its length as the count when it counts. */
  ghost predicate Honest<T(!new)>(serve: Server<T>, list: seq<T>, counted: bool) {
    forall page: nat :: page >= 1 ==>
          serve(page) == Ok(Batch(Slice(list, page), if counted then Some(|list|) else None))
  }

  lemma {:induction false} HonestFrom<T(!new)>(serve: Server<T>, list: seq<T>, checks: bool, page: nat)
    requires Honest(serve, list, checks) && 1 <= page <= MAX_PAGES + 1 && (page - 1) * PER_PAGE <= |list|
    requires checks && page > 1 ==> (page - 1) * PER_PAGE < |list|
    ensures PagesFrom(serve, checks, page, list[..(page - 1) * PER_PAGE])
            == Ok(Pages(list[..Least(|list|, 300)], if checks then |list| <= 300 else |list| < 300))
    decreases MAX_PAGES + 1 - page
  {
    var start := (page - 1) * PER_PAGE;
    if page <= MAX_PAGES {
      assert serve(page).Ok?;
      var batch := Slice(list, page);
      var end := Least(page * PER_PAGE, |list|);
      assert list[..start] + batch == list[..end];
      if (if checks then end < |list| else |batch| == PER_PAGE) {
        assert end == page * PER_PAGE;
        HonestFrom(serve, list, checks, page + 1);
      } else {
        assert end == |list| <= 300;
        assert list[..end] == list[..Least(|list|, 300)];
      }
    } else {
      assert start == 300;
    }
  }

  /** Check runs from an honest, counting server: the first 300, called complete exactly when that
      is the whole list. */
  lemma ChecksPaged<T(!new)>(serve: Server<T>, list: seq<T>)
    requires Honest(serve, list, true)
    ensures PagesFrom(serve, true, 1, []) == Ok(Pages(list[..Least(|list|, 300)], |list| <= 300))
  {
    assert list[..0] == [];
    HonestFrom(serve, list, true, 1);
  }

  /** Reviews: the first 300, called complete only when that is the whole list (and never for
      exactly 300). */
  lemma ReviewsPaged<T(!new)>(serve: Server<T>, list: seq<T>)
    requires Honest(serve, list, false)
    ensures PagesFrom(serve, false, 1, []) == Ok(Pages(list[..Least(|list|, 300)], |list| < 300))
  {
    assert list[..0] == [];
    HonestFrom(serve, list, false, 1);
  }

  /** Without a count the first page is always called complete: wrong exactly for lists over 100. */
  lemma UncountedChecks<T(!new)>(serve: Server<T>, list: seq<T>)
    requires Honest(serve, list, false)
    ensures PagesFrom(serve, true, 1, []) == Ok(Pages(list[..Least(|list|, 100)], true))
    ensures list[..Least(|list|, 100)] == list <==> |list| <= 100
  {
    assert serve(1).Ok?;
    assert [] + Slice(list, 1) == list[..Least(|list|, 100)];
  }

  // ----- the verdict -----

  /** A check run; `Other` is an entry that is not an object. */
  datatype Run = Run(completed: bool, conclusion: string) | Other
  datatype Kind = Success | Failure | Cancelled | Pending | Neither
  datatype Ci = Passed | Neutral | NoRuns | Failed | Stopped | Waiting | Incomplete | Unavailable

  function KindOf(r: Run): Kind
    requires r.Run?
  {
    if !r.completed then Pending
    else if r.conclusion == "success" then Success
    else if r.conclusion == "failure" || r.conclusion == "timed_out" || r.conclusion == "action_required"
            || r.conclusion == "startup_failure" then Failure
    else if r.conclusion == "cancelled" then Cancelled
    else Neither
  }

  predicate HasKind(runs: seq<Run>, k: Kind) {
    exists i :: 0 <= i < |runs| && runs[i].Run? && KindOf(runs[i]) == k
  }

  /** Reference definition of the verdict: the worst kind present decides. */
  function Verdict(runs: seq<Run>): Ci {
    if HasKind(runs, Failure) then Failed
    else if HasKind(runs, Cancelled) then Stopped
    else if HasKind(runs, Pending) then Waiting
    else if HasKind(runs, Success) then Passed
    else if HasKind(runs, Neither) then Neutral
    else NoRuns
  }

  /** `checks` (src/github/view.rs:65-94): counters, then the order of precedence. */
  method Checks(runs: seq<Run>) returns (overall: Ci)
    ensures overall == Verdict(runs)
  {
    var success, failure, cancelled, pending, other := 0, 0, 0, 0, 0;
    for i := 0 to |runs|
      invariant success >= 0 && failure >= 0 && cancelled >= 0 && pending >= 0 && other >= 0
      invariant success > 0 <==> HasKind(runs[..i], Success)
      invariant failure > 0 <==> HasKind(runs[..i], Failure)
      invariant cancelled > 0 <==> HasKind(runs[..i], Cancelled)
      invariant pending > 0 <==> HasKind(runs[..i], Pending)
      invariant other > 0 <==> HasKind(runs[..i], Neither)
    {
      OneMoreRun(runs, i);
      if runs[i].Run? {
        match KindOf(runs[i]) {
          case Success => success := success + 1;
          case Failure => failure := failure + 1;
          case Cancelled => cancelled := cancelled + 1;
          case Pending => pending := pending + 1;
          case Neither => other := other + 1;
        }
      }
    }
    assert runs[..|runs|] == runs;
    overall := if success > 0 then Passed else if other > 0 then Neutral else NoRuns;
    if failure > 0 {
      overall := Failed;
    } else if cancelled > 0 {
      overall := Stopped;
    } else if pending > 0 {
      overall := Waiting;
    }
  }

  lemma OneMoreRun(runs: seq<Run>, i: nat)
    requires i < |runs|
    ensures forall k :: HasKind(runs[..i + 1], k) <==> HasKind(runs[..i], k) || (runs[i].Run? && KindOf(runs[i]) == k)
  {
    forall k ensures HasKind(runs[..i + 1], k) <==> HasKind(runs[..i], k) || (runs[i].Run? && KindOf(runs[i]) == k) {
      if HasKind(runs[..i], k) {
        var j :| 0 <= j < i && runs[..i][j].Run? && KindOf(runs[..i][j]) == k;
        assert runs[..i + 1][j] == runs[..i][j];
      }
      if HasKind(runs[..i + 1], k) {
        var j :| 0 <= j < i + 1 && runs[..i + 1][j].Run? && KindOf(runs[..i + 1][j]) == k;
        assert j == i || runs[..i][j] == runs[..i + 1][j];
      }
      assert runs[..i + 1][i] == runs[i];
    }
  }

  /** The `ci` field of `pull` (src/github/view.rs:223-232). */
  function CiOf(runs: Result<Pages<Run>>): Ci {
    if runs.Err? then Unavailable else
      var ci := Verdict(runs.value.items);
      if !runs.value.complete && (ci == Passed || ci == Neutral || ci == NoRuns) then Incomplete else ci
  }

  // ----- the verdict, by what the runs say -----

  predicate Unfinished(r: Run) {
    r.Run? && !r.completed
  }

  predicate Ended(r: Run, conclusion: string) {
    r.Run? && r.completed && r.conclusion == conclusion
  }

  predicate Broke(r: Run) {
    Ended(r, "failure") || Ended(r, "timed_out") || Ended(r, "action_required") || Ended(r, "startup_failure")
  }

  predicate Clean(runs: seq<Run>) {
    forall r :: r in runs ==> !Broke(r) && !Ended(r, "cancelled") && !Unfinished(r)
  }

  lemma KindIs(runs: seq<Run>, k: Kind)
    ensures HasKind(runs, k) <==> exists r :: r in runs && r.Run? && KindOf(r) == k
  {
    if i :| 0 <= i < |runs| && runs[i].Run? && KindOf(runs[i]) == k {
      assert runs[i] in runs;
    }
  }

  /** Each verdict, by the statuses and conclusions of the runs. */
  lemma VerdictExactly(runs: seq<Run>)
    ensures Verdict(runs) == Failed <==> exists r :: r in runs && Broke(r)
    ensures Verdict(runs) == Stopped <==>
              (forall r :: r in runs ==> !Broke(r)) && exists r :: r in runs && Ended(r, "cancelled")
    ensures Verdict(runs) == Waiting <==>
              (forall r :: r in runs ==> !Broke(r) && !Ended(r, "cancelled")) && exists r :: r in runs && Unfinished(r)
    ensures Verdict(runs) == Passed <==> Clean(runs) && exists r :: r in runs && Ended(r, "success")
    ensures Verdict(runs) == Neutral <==>
              Clean(runs) && (forall r :: r in runs ==> !Ended(r, "success")) && exists r :: r in runs && r.Run?
    ensures Verdict(runs) == NoRuns <==> forall r :: r in runs ==> r == Other
  {
    KindIs(runs, Failure);
    KindIs(runs, Cancelled);
    KindIs(runs, Pending);
    KindIs(runs, Success);
    KindIs(runs, Neither);
    forall r | r in runs && r.Run?
      ensures (KindOf(r) == Failure <==> Broke(r)) && (KindOf(r) == Cancelled <==> Ended(r, "cancelled"))
      ensures (KindOf(r) == Pending <==> Unfinished(r)) && (KindOf(r) == Success <==> Ended(r, "success"))
    {
      KindTexts(r);
    }
  }

  lemma KindTexts(r: Run)
    requires r.Run?
    ensures (KindOf(r) == Failure <==> Broke(r)) && (KindOf(r) == Cancelled <==> Ended(r, "cancelled"))
    ensures (KindOf(r) == Pending <==> Unfinished(r)) && (KindOf(r) == Success <==> Ended(r, "success"))
  {
  }

  /** CI success is sound through paging, and complete up to the page cap: against an honest server, "success" is
      reported exactly when the whole list, of at most 300 runs, has none that is unfinished, cancelled or
      failed, in any of the four ways, and at least one that concluded with "success". */
  lemma SuccessIsSound(serve: Server<Run>, list: seq<Run>)
    requires Honest(serve, list, true)
    ensures CiOf(PagesFrom(serve, true, 1, [])) == Passed <==>
              |list| <= 300 && Clean(list) && exists r :: r in list && Ended(r, "success")
  {
    ChecksPaged(serve, list);
    VerdictExactly(list[..Least(|list|, 300)]);
    if |list| <= 300 {
      assert list[..|list|] == list;
    }
  }

  /** A failure among the first 300 runs is reported whether or not the reading was complete. */
  lemma FailureIsNeverHidden(serve: Server<Run>, list: seq<Run>)
    requires Honest(serve, list, true)
    ensures (exists i :: 0 <= i < |list| && i < 300 && Broke(list[i]))
            <==> CiOf(PagesFrom(serve, true, 1, [])) == Failed
  {
    ChecksPaged(serve, list);
    var first := list[..Least(|list|, 300)];
    VerdictExactly(first);
    if i :| 0 <= i < |list| && i < 300 && Broke(list[i]) {
      assert first[i] == list[i];
      assert list[i] in first;
    }
    if r :| r in first && Broke(r) {
      var i :| 0 <= i < |first| && first[i] == r;
      assert Broke(list[i]);
    }
  }

  /** "incomplete" is reported exactly for a longer list whose first 300 runs are clean, however they would count;
      and against an honest server the checks are never "unavailable". */
  lemma IncompleteExactly(serve: Server<Run>, list: seq<Run>)
    requires Honest(serve, list, true)
    ensures CiOf(PagesFrom(serve, true, 1, [])) == Incomplete <==> |list| > 300 && Clean(list[..300])
    ensures CiOf(PagesFrom(serve, true, 1, [])) != Unavailable
  {
    ChecksPaged(serve, list);
    VerdictExactly(list[..Least(|list|, 300)]);
  }
}
