/** Applying an account's style to the surveys a creator names, one transaction each, while other
    requests go on between them. */
module Applying {
  import opened Wrappers
  import opened Styles
  import opened Drafts
  import opened StyleForm
  import opened Versions
  import opened Refreeze
  import opened Fixpoint
  import opened Refreshes
  import opened Readings
  import opened Publishing
  import opened Runs

  /** What applying came to: the titles that went out, the surveys held with the language that holds
      them, what was published for which survey, how many surveys were reached, and what stopped it. */
  datatype Applied = Applied(world: World, updated: seq<string>, skipped: seq<(nat, string)>,
                             published: seq<(nat, Version)>, reached: nat, error: Option<Error>)

  /** The surveys named, in order; others[i] is what other requests do just before the i-th. */
  function ApplyAll(w: World, ids: seq<nat>, workspace: nat, stamp: nat, others: seq<seq<Step>>, rules: Rules): Applied
    requires |others| == |ids|
    decreases |ids|
  {
    if ids == [] then Applied(w, [], [], [], 0, None)
    else
      var before := Run(w, others[0], rules);
      var o := RefreshOne(before, ids[0], workspace, stamp, rules);
      if o.Failed? then Applied(before, [], [], [], 1, Some(o.error))
      else
        var rest := ApplyAll(AfterRefresh(before, ids[0], o), ids[1..], workspace, stamp, others[1..], rules);
        Prepend(before, ids[0], o, rest)
  }

  predicate AllOurs(w: World, ids: seq<nat>, workspace: nat) {
    forall id <- ids :: id in w.surveys && w.surveys[id].workspace == workspace
  }

  function RefreshFromAccount(w: World, ids: seq<nat>, workspace: nat, stamp: nat, others: seq<seq<Step>>, rules: Rules): Applied
    requires |others| == |ids|
  {
    if !AllOurs(w, ids, workspace) then Applied(w, [], [], [], 0, Some(NotFound))
    else if w.Stamp(workspace) != stamp then Applied(w, [], [], [], 0, Some(AccountStyleChanged))
    else ApplyAll(w, ids, workspace, stamp, others, rules)
  }

  // --- the account only grows -------------------------------------------------

  lemma StepOnlyAddsAccounts(w: World, step: Step, workspace: nat, rules: Rules)
    ensures w.AccountsOf(workspace) <= Next(w, step, rules).AccountsOf(workspace)
  {
  }

  lemma {:induction false} RunOnlyAddsAccounts(w: World, steps: seq<Step>, workspace: nat, rules: Rules)
    ensures w.AccountsOf(workspace) <= Run(w, steps, rules).AccountsOf(workspace)
    decreases |steps|
  {
    if steps != [] {
      StepOnlyAddsAccounts(w, steps[0], workspace, rules);
      RunOnlyAddsAccounts(Next(w, steps[0], rules), steps[1..], workspace, rules);
    }
  }

  // --- up to date, and staying so ---------------------------------------------

  /** The survey's live version shows the account as it stood at a stamp, for as long as it stands. */
  ghost predicate UpToDate(w: World, id: nat, workspace: nat, stamp: nat) {
    && id in w.surveys && w.surveys[id].workspace == workspace && w.surveys[id].versions != []
    && w.Stamp(workspace) >= stamp
    && (w.Stamp(workspace) == stamp ==> !RefreshAgainst(Latest(w.surveys[id]).value, w.Current(workspace)).changes)
  }

  lemma NewVersionIsUpToDate(w: World, id: nat, workspace: nat, stamp: nat, d: Draft)
    requires id in w.surveys && w.surveys[id].workspace == workspace && w.Stamp(workspace) >= stamp
    requires Publishable(d, w.Current(workspace))
    ensures UpToDate(WithVersion(w, id, Freeze(d, w.Current(workspace))), id, workspace, stamp)
  {
    PublishedIsUpToDate(d, w.Current(workspace));
  }

  /** What is known, over every run, of an outcome of refreshing a survey. */
  ghost predicate GoodOutcome(w: World, id: nat, workspace: nat, stamp: nat, rules: Rules, o: Outcome) {
    && (o.Failed? ==> o.error == AccountStyleChanged)
    && (o.Updated? ==>
          && id in w.surveys && w.surveys[id].workspace == workspace && w.Stamp(workspace) == stamp && w.surveys[id].versions != []
          && VersionOK(w.ReadOf(id), o.version, rules)
          && o.version == Freeze(Latest(w.surveys[id]).value.AsDraft(), w.Current(workspace))
          && Publishable(Latest(w.surveys[id]).value.AsDraft(), w.Current(workspace)))
  }

  lemma OutcomesAreGood(w: World, id: nat, workspace: nat, stamp: nat, rules: Rules)
    requires Inv(w, rules)
    ensures GoodOutcome(w, id, workspace, stamp, rules, RefreshOne(w, id, workspace, stamp, rules))
  {
    RefreshOneIs(w, id, workspace, stamp, rules);
  }

  lemma RefreshedIsUpToDate(w: World, id: nat, workspace: nat, stamp: nat, rules: Rules, o: Outcome)
    requires GoodOutcome(w, id, workspace, stamp, rules, o) && o.Updated?
    ensures UpToDate(AfterRefresh(w, id, o), id, workspace, stamp)
  {
    NewVersionIsUpToDate(w, id, workspace, stamp, Latest(w.surveys[id]).value.AsDraft());
  }

  /** A version made for any survey leaves a survey up to date, if its own is frozen from the account. */
  lemma NewVersionStaysUpToDate(w: World, other: nat, v: Version, id: nat, workspace: nat, stamp: nat, d: Draft)
    requires UpToDate(w, id, workspace, stamp) && other in w.surveys
    requires other == id ==> v == Freeze(d, w.Current(workspace)) && Publishable(d, w.Current(workspace))
    ensures UpToDate(WithVersion(w, other, v), id, workspace, stamp)
  {
    if other == id {
      NewVersionIsUpToDate(w, id, workspace, stamp, d);
    }
  }

  lemma PublishStaysUpToDate(w: World, other: nat, id: nat, workspace: nat, stamp: nat, rules: Rules)
    requires Inv(w, rules) && UpToDate(w, id, workspace, stamp)
    ensures UpToDate(AfterPublish(w, other, PublishOne(w, other, rules)), id, workspace, stamp)
  {
    hide Inv, Publish, PublishOne, RefreshAgainst, Publishable, Freeze, DraftOK, AccountOK, Latest;
    if PublishOne(w, other, rules).Ok? {
      PublishOneIs(w, other, rules);
      var s := w.surveys[other];
      var d := s.revisions[|s.revisions| - 1];
      PublishIsAFreeze(w.ReadOf(other), d, w.Current(s.workspace), Latest(s), rules);
      NewVersionStaysUpToDate(w, other, PublishOne(w, other, rules).value, id, workspace, stamp, d);
    }
  }

  lemma PublishIsAFreeze(log: set<Reading>, d: Draft, account: Account, latest: Option<Version>, rules: Rules)
    requires DraftOK(log, d) && AccountOK(log, account, rules) && Publish(d, account, latest, rules).Ok?
    ensures Publish(d, account, latest, rules).value == Freeze(d, account) && Publishable(d, account)
  {
    PublishedVersionOK(log, d, account, latest, rules);
  }

  lemma RefreshStaysUpToDate(w: World, other: nat, elsewhere: nat, at: nat, o: Outcome, id: nat, workspace: nat, stamp: nat, rules: Rules)
    requires GoodOutcome(w, other, elsewhere, at, rules, o) && UpToDate(w, id, workspace, stamp)
    ensures UpToDate(AfterRefresh(w, other, o), id, workspace, stamp)
  {
    if o.Updated? {
      NewVersionStaysUpToDate(w, other, o.version, id, workspace, stamp, Latest(w.surveys[other]).value.AsDraft());
    }
  }

  /** Whatever anybody does next, a survey up to date stays so until its account's style changes. */
  lemma StepStaysUpToDate(w: World, step: Step, id: nat, workspace: nat, stamp: nat, rules: Rules)
    requires Inv(w, rules) && UpToDate(w, id, workspace, stamp)
    ensures UpToDate(Next(w, step, rules), id, workspace, stamp)
  {
    if step.PublishDraft? {
      PublishStaysUpToDate(w, step.id, id, workspace, stamp, rules);
    } else if step.RefreshSurvey? {
      var o := RefreshOne(w, step.id, step.workspace, step.stamp, rules);
      OutcomesAreGood(w, step.id, step.workspace, step.stamp, rules);
      RefreshStaysUpToDate(w, step.id, step.workspace, step.stamp, o, id, workspace, stamp, rules);
    } else {
      OtherStepsLeaveVersions(w, step, id, workspace, rules);
      UnchangedStaysUpToDate(w, Next(w, step, rules), id, workspace, stamp);
    }
  }

  lemma UnchangedStaysUpToDate(w: World, n: World, id: nat, workspace: nat, stamp: nat)
    requires UpToDate(w, id, workspace, stamp)
    requires id in n.surveys && n.surveys[id].versions == w.surveys[id].versions && n.surveys[id].workspace == w.surveys[id].workspace
    requires n.Stamp(workspace) > w.Stamp(workspace) || (n.Stamp(workspace) == w.Stamp(workspace) && n.Current(workspace) == w.Current(workspace))
    ensures UpToDate(n, id, workspace, stamp)
  {
  }

  /** Every other step leaves a survey's versions alone, and changes its account only by adding to it. */
  lemma OtherStepsLeaveVersions(w: World, step: Step, id: nat, workspace: nat, rules: Rules)
    requires !step.PublishDraft? && !step.RefreshSurvey? && id in w.surveys
    ensures var n := Next(w, step, rules);
      && id in n.surveys && n.surveys[id].versions == w.surveys[id].versions && n.surveys[id].workspace == w.surveys[id].workspace
      && (n.Stamp(workspace) > w.Stamp(workspace) || (n.Stamp(workspace) == w.Stamp(workspace) && n.Current(workspace) == w.Current(workspace)))
  {
    hide Apply, ReadingsOf, AccountReadings, By, Account.SetStyle, Account.SetTranslationOf, Account.RemoveLanguage;
  }

  lemma {:induction false} RunStaysUpToDate(w: World, steps: seq<Step>, id: nat, workspace: nat, stamp: nat, rules: Rules)
    requires Inv(w, rules) && UpToDate(w, id, workspace, stamp)
    ensures UpToDate(Run(w, steps, rules), id, workspace, stamp)
    decreases |steps|
  {
    if steps != [] {
      StepStaysUpToDate(w, steps[0], id, workspace, stamp, rules);
      StepKeepsInv(w, steps[0], rules);
      RunStaysUpToDate(Next(w, steps[0], rules), steps[1..], id, workspace, stamp, rules);
    }
  }

  lemma UpToDateIsNotUpdated(w: World, id: nat, workspace: nat, stamp: nat, rules: Rules)
    requires UpToDate(w, id, workspace, stamp)
    ensures !RefreshOne(w, id, workspace, stamp, rules).Updated?
  {
  }

  // --- one call ---------------------------------------------------------------

  lemma AfterRefreshKeepsInv(w: World, id: nat, workspace: nat, stamp: nat, rules: Rules, o: Outcome)
    requires Inv(w, rules) && GoodOutcome(w, id, workspace, stamp, rules, o)
    ensures Inv(AfterRefresh(w, id, o), rules)
  {
    if o.Updated? {
      NewVersionKeepsInv(w, id, o.version, rules);
    }
  }

  /** A version is some survey's live version refrozen against one account, and up to date with it. */
  ghost predicate FrozenFrom(v: Version, account: Account) {
    && (exists u: Version :: v == Freeze(u.AsDraft(), account))
    && RefreshAgainst(v, account) == Refresh(false, None)
  }

  lemma UpdatedIsFrozenFrom(w: World, id: nat, workspace: nat, stamp: nat, rules: Rules, o: Outcome)
    requires GoodOutcome(w, id, workspace, stamp, rules, o) && o.Updated?
    ensures FrozenFrom(o.version, w.Current(workspace))
  {
    PublishedIsUpToDate(Latest(w.surveys[id]).value.AsDraft(), w.Current(workspace));
  }

  /** While the stamp stands so does the account. */
  lemma SameStampSameAccount(w: World, later: World, workspace: nat)
    requires w.AccountsOf(workspace) <= later.AccountsOf(workspace) && w.Stamp(workspace) == later.Stamp(workspace)
    ensures w.Current(workspace) == later.Current(workspace)
  {
    assert w.AccountsOf(workspace) == later.AccountsOf(workspace);
  }

  /** What one call leaves, of the surveys it published. */
  ghost predicate OneAccountThroughout(w: World, r: Applied, ids: seq<nat>, workspace: nat, stamp: nat, account: Account) {
    && (forall k :: 0 <= k < |r.published| ==> FrozenFrom(r.published[k].1, account) && r.published[k].0 in ids)
    && (forall k :: 0 <= k < |r.published| ==> UpToDate(r.world, r.published[k].0, workspace, stamp))
    && (forall k :: 0 <= k < |r.published| ==> !UpToDate(w, r.published[k].0, workspace, stamp))
    && (forall k, l :: 0 <= k < l < |r.published| ==> r.published[k].0 != r.published[l].0)
    && (forall id :: UpToDate(w, id, workspace, stamp) ==> UpToDate(r.world, id, workspace, stamp))
    && |r.updated| == |r.published|
    && (r.error.Some? ==> r.error.value == AccountStyleChanged)
  }

  /** Every version one call publishes, whatever goes on between its surveys, is frozen from the one
      account style the creator was asked about and is up to date with it; a survey already up to
      date is not published, so one named twice is published once; and only the account changing
      stops the call. */
  lemma {:induction false} OneCallOneAccount(w: World, ids: seq<nat>, workspace: nat, stamp: nat, others: seq<seq<Step>>, rules: Rules, account: Account)
    requires |others| == |ids| && Inv(w, rules)
    requires w.Stamp(workspace) >= stamp && (w.Stamp(workspace) == stamp ==> w.Current(workspace) == account)
    ensures Inv(ApplyAll(w, ids, workspace, stamp, others, rules).world, rules)
    ensures OneAccountThroughout(w, ApplyAll(w, ids, workspace, stamp, others, rules), ids, workspace, stamp, account)
    decreases |ids|
  {
    if ids != [] {
      var before := Run(w, others[0], rules);
      var o := RefreshOne(before, ids[0], workspace, stamp, rules);
      var after := AfterRefresh(before, ids[0], o);
      BeforeTheFirst(w, others[0], workspace, stamp, rules, account);
      OutcomesAreGood(before, ids[0], workspace, stamp, rules);
      if UpToDate(before, ids[0], workspace, stamp) {
        UpToDateIsNotUpdated(before, ids[0], workspace, stamp, rules);
      }
      if !o.Failed? {
        AfterRefreshKeepsInv(before, ids[0], workspace, stamp, rules, o);
        StampAfter(before, ids[0], o, workspace);
        var rest := ApplyAll(after, ids[1..], workspace, stamp, others[1..], rules);
        OneCallOneAccount(after, ids[1..], workspace, stamp, others[1..], rules, account);
        OneMore(w, before, ids, workspace, stamp, rules, account, o, rest);
      }
    }
  }

  lemma BeforeTheFirst(w: World, steps: seq<Step>, workspace: nat, stamp: nat, rules: Rules, account: Account)
    requires Inv(w, rules) && w.Stamp(workspace) >= stamp && (w.Stamp(workspace) == stamp ==> w.Current(workspace) == account)
    ensures var before := Run(w, steps, rules);
      && Inv(before, rules) && before.Stamp(workspace) >= stamp && (before.Stamp(workspace) == stamp ==> before.Current(workspace) == account)
      && forall id :: UpToDate(w, id, workspace, stamp) ==> UpToDate(before, id, workspace, stamp)
  {
    var before := Run(w, steps, rules);
    RunKeepsInv(w, steps, rules);
    RunOnlyAddsAccounts(w, steps, workspace, rules);
    forall id | UpToDate(w, id, workspace, stamp) ensures UpToDate(before, id, workspace, stamp) {
      RunStaysUpToDate(w, steps, id, workspace, stamp, rules);
    }
    if before.Stamp(workspace) == stamp {
      SameStampSameAccount(w, before, workspace);
    }
  }

  lemma StampAfter(w: World, id: nat, o: Outcome, workspace: nat)
    ensures AfterRefresh(w, id, o).Stamp(workspace) == w.Stamp(workspace)
    ensures AfterRefresh(w, id, o).Current(workspace) == w.Current(workspace)
  {
  }

  /** The result of a call, from its first survey's outcome and the rest. */
  function Prepend(before: World, id: nat, o: Outcome, rest: Applied): Applied {
    rest.(updated := (if o.Updated? && id in before.surveys then [before.surveys[id].title] else []) + rest.updated,
          skipped := (if o.Held? then [(id, o.lang)] else []) + rest.skipped,
          published := (if o.Updated? then [(id, o.version)] else []) + rest.published,
          reached := rest.reached + 1)
  }

  lemma OneMore(w: World, before: World, ids: seq<nat>, workspace: nat, stamp: nat, rules: Rules, account: Account, o: Outcome, rest: Applied)
    requires ids != [] && GoodOutcome(before, ids[0], workspace, stamp, rules, o)
    requires UpToDate(before, ids[0], workspace, stamp) ==> !o.Updated?
    requires forall id :: UpToDate(w, id, workspace, stamp) ==> UpToDate(before, id, workspace, stamp)
    requires before.Stamp(workspace) == stamp ==> before.Current(workspace) == account
    requires OneAccountThroughout(AfterRefresh(before, ids[0], o), rest, ids[1..], workspace, stamp, account)
    ensures OneAccountThroughout(w, Prepend(before, ids[0], o, rest), ids, workspace, stamp, account)
  {
    var after := AfterRefresh(before, ids[0], o);
    var r := Prepend(before, ids[0], o, rest);
    assert r.error == rest.error && r.world == rest.world;
    if o.Updated? {
      forall id | UpToDate(before, id, workspace, stamp) ensures UpToDate(after, id, workspace, stamp) {
        RefreshStaysUpToDate(before, ids[0], workspace, stamp, o, id, workspace, stamp, rules);
      }
      UpdatedIsFrozenFrom(before, ids[0], workspace, stamp, rules, o);
      RefreshedIsUpToDate(before, ids[0], workspace, stamp, rules, o);
      assert r.published == [(ids[0], o.version)] + rest.published && |r.updated| == 1 + |rest.updated|;
      OneMorePublished(w, before, after, ids, workspace, stamp, account, o.version, rest, r);
    } else {
      assert after == before && r.published == rest.published && r.updated == rest.updated;
      NoMorePublished(w, before, ids, workspace, stamp, account, rest, r);
    }
  }

  lemma NoMorePublished(w: World, before: World, ids: seq<nat>, workspace: nat, stamp: nat, account: Account, rest: Applied, r: Applied)
    requires ids != [] && OneAccountThroughout(before, rest, ids[1..], workspace, stamp, account)
    requires forall id :: UpToDate(w, id, workspace, stamp) ==> UpToDate(before, id, workspace, stamp)
    requires r.published == rest.published && r.updated == rest.updated && r.world == rest.world && r.error == rest.error
    ensures OneAccountThroughout(w, r, ids, workspace, stamp, account)
  {
  }

  lemma OneMorePublished(w: World, before: World, after: World, ids: seq<nat>, workspace: nat, stamp: nat, account: Account, v: Version, rest: Applied, r: Applied)
    requires ids != [] && OneAccountThroughout(after, rest, ids[1..], workspace, stamp, account)
    requires forall id :: UpToDate(w, id, workspace, stamp) ==> UpToDate(before, id, workspace, stamp)
    requires forall id :: UpToDate(before, id, workspace, stamp) ==> UpToDate(after, id, workspace, stamp)
    requires !UpToDate(before, ids[0], workspace, stamp) && UpToDate(after, ids[0], workspace, stamp) && FrozenFrom(v, account)
    requires r.published == [(ids[0], v)] + rest.published && |r.updated| == 1 + |rest.updated|
    requires r.world == rest.world && r.error == rest.error
    ensures OneAccountThroughout(w, r, ids, workspace, stamp, account)
  {
    hide UpToDate, FrozenFrom;
    forall k | 0 < k < |r.published| ensures r.published[k] == rest.published[k - 1] {
    }
  }

  // --- the whole request ------------------------------------------------------

  /** A request naming a survey of another workspace, or made about a style changed since, publishes
      nothing and changes nothing. Any other publishes from the one style it was made about. */
  lemma RequestsPublishFromTheStyleAskedAbout(w: World, ids: seq<nat>, workspace: nat, stamp: nat, others: seq<seq<Step>>, rules: Rules)
    requires |others| == |ids| && Inv(w, rules)
    ensures var r := RefreshFromAccount(w, ids, workspace, stamp, others, rules);
      if !AllOurs(w, ids, workspace) then r.published == [] && r.world == w && r.error == Some(NotFound)
      else if w.Stamp(workspace) != stamp then r.published == [] && r.world == w && r.error == Some(AccountStyleChanged)
      else
        && Inv(r.world, rules)
        && OneAccountThroughout(w, r, ids, workspace, stamp, w.Current(workspace))
  {
    if AllOurs(w, ids, workspace) && w.Stamp(workspace) == stamp {
      OneCallOneAccount(w, ids, workspace, stamp, others, rules, w.Current(workspace));
    }
  }

  /** A later request about the same style, whatever went on since and goes on meanwhile, publishes
      again no survey an earlier one published. */
  lemma LaterRequestsPublishNothingAgain(w: World, ids: seq<nat>, workspace: nat, stamp: nat, others: seq<seq<Step>>, rules: Rules,
                                         since: seq<Step>, again: seq<nat>, meanwhile: seq<seq<Step>>)
    requires |others| == |ids| && |meanwhile| == |again| && Inv(w, rules)
    ensures var first := RefreshFromAccount(w, ids, workspace, stamp, others, rules);
      var second := RefreshFromAccount(Run(first.world, since, rules), again, workspace, stamp, meanwhile, rules);
      forall k, l :: 0 <= k < |first.published| && 0 <= l < |second.published| ==> first.published[k].0 != second.published[l].0
  {
    RequestsPublishFromTheStyleAskedAbout(w, ids, workspace, stamp, others, rules);
    var first := RefreshFromAccount(w, ids, workspace, stamp, others, rules);
    if first.published != [] {
      var then_ := Run(first.world, since, rules);
      RunKeepsInv(first.world, since, rules);
      RequestsPublishFromTheStyleAskedAbout(then_, again, workspace, stamp, meanwhile, rules);
      forall k | 0 <= k < |first.published| ensures UpToDate(then_, first.published[k].0, workspace, stamp) {
        RunStaysUpToDate(first.world, since, first.published[k].0, workspace, stamp, rules);
      }
    }
  }

  // --- a request nothing else goes on beside ----------------------------------

  function Alone(n: nat): (others: seq<seq<Step>>)
    ensures |others| == n && forall i :: 0 <= i < n ==> others[i] == []
  {
    seq(n, _ => [])
  }

  /** Refreshing the survey would do nothing. */
  ghost predicate Quiet(w: World, id: nat, workspace: nat, stamp: nat, rules: Rules) {
    var o := RefreshOne(w, id, workspace, stamp, rules); !o.Updated? && !o.Failed?
  }

  lemma AfterRefreshIsQuiet(w: World, id: nat, workspace: nat, stamp: nat, rules: Rules, o: Outcome)
    requires Inv(w, rules) && o == RefreshOne(w, id, workspace, stamp, rules) && !o.Failed?
    ensures Quiet(AfterRefresh(w, id, o), id, workspace, stamp, rules)
  {
    OutcomesAreGood(w, id, workspace, stamp, rules);
    if o.Updated? {
      RefreshedIsUpToDate(w, id, workspace, stamp, rules, o);
      var after := AfterRefresh(w, id, o);
      UpToDateIsQuiet(after, id, workspace, stamp, rules);
    }
  }

  lemma UpToDateIsQuiet(w: World, id: nat, workspace: nat, stamp: nat, rules: Rules)
    requires UpToDate(w, id, workspace, stamp) && w.Stamp(workspace) == stamp
    ensures RefreshOne(w, id, workspace, stamp, rules) == LeftAlone
  {
  }

  /** Refreshing one survey leaves what refreshing another would do. */
  lemma OthersAreUntouched(w: World, id: nat, o: Outcome, other: nat, workspace: nat, stamp: nat, rules: Rules)
    requires other != id
    ensures RefreshOne(AfterRefresh(w, id, o), other, workspace, stamp, rules) == RefreshOne(w, other, workspace, stamp, rules)
  {
    var after := AfterRefresh(w, id, o);
    assert after.accounts == w.accounts;
    if other in w.surveys {
      assert after.surveys[other] == w.surveys[other];
      assert after.Current(w.surveys[other].workspace) == w.Current(w.surveys[other].workspace);
    }
  }

  lemma QuietStaysQuiet(w: World, id: nat, o: Outcome, other: nat, workspace: nat, stamp: nat, rules: Rules)
    requires o == RefreshOne(w, id, workspace, stamp, rules) && Quiet(w, other, workspace, stamp, rules)
    ensures Quiet(AfterRefresh(w, id, o), other, workspace, stamp, rules)
  {
    if other != id {
      OthersAreUntouched(w, id, o, other, workspace, stamp, rules);
    }
  }

  lemma {:induction false} CallLeavesQuiet(w: World, ids: seq<nat>, workspace: nat, stamp: nat, rules: Rules)
    requires Inv(w, rules) && ApplyAll(w, ids, workspace, stamp, Alone(|ids|), rules).error.None?
    ensures var r := ApplyAll(w, ids, workspace, stamp, Alone(|ids|), rules);
      && (forall id :: id in ids || Quiet(w, id, workspace, stamp, rules) ==> Quiet(r.world, id, workspace, stamp, rules))
    decreases |ids|
  {
    if ids != [] {
      assert Run(w, Alone(|ids|)[0], rules) == w;
      assert Alone(|ids|)[1..] == Alone(|ids[1..]|);
      var o := RefreshOne(w, ids[0], workspace, stamp, rules);
      var after := AfterRefresh(w, ids[0], o);
      OutcomesAreGood(w, ids[0], workspace, stamp, rules);
      AfterRefreshKeepsInv(w, ids[0], workspace, stamp, rules, o);
      CallLeavesQuiet(after, ids[1..], workspace, stamp, rules);
      AfterRefreshIsQuiet(w, ids[0], workspace, stamp, rules, o);
      forall id | Quiet(w, id, workspace, stamp, rules) ensures Quiet(after, id, workspace, stamp, rules) {
        QuietStaysQuiet(w, ids[0], o, id, workspace, stamp, rules);
      }
    }
  }

  lemma {:induction false} QuietCallsDoNothing(w: World, ids: seq<nat>, workspace: nat, stamp: nat, rules: Rules)
    requires forall id <- ids :: Quiet(w, id, workspace, stamp, rules)
    ensures var r := ApplyAll(w, ids, workspace, stamp, Alone(|ids|), rules);
      && r.published == [] && r.updated == []
      && r.world == w && r.error.None?
    decreases |ids|
  {
    if ids != [] {
      assert Run(w, Alone(|ids|)[0], rules) == w;
      assert Alone(|ids|)[1..] == Alone(|ids[1..]|);
      assert Quiet(w, ids[0], workspace, stamp, rules);
      assert AfterRefresh(w, ids[0], RefreshOne(w, ids[0], workspace, stamp, rules)) == w;
      QuietCallsDoNothing(w, ids[1..], workspace, stamp, rules);
    }
  }

  /** A request that ran to its end, made again at once, publishes nothing and changes nothing. */
  lemma RepeatedAtOnceDoesNothing(w: World, ids: seq<nat>, workspace: nat, stamp: nat, rules: Rules)
    requires Inv(w, rules) && ApplyAll(w, ids, workspace, stamp, Alone(|ids|), rules).error.None?
    ensures var first := ApplyAll(w, ids, workspace, stamp, Alone(|ids|), rules);
      var again := ApplyAll(first.world, ids, workspace, stamp, Alone(|ids|), rules);
      && again.published == [] && again.updated == []
      && again.world == first.world && again.error.None?
  {
    CallLeavesQuiet(w, ids, workspace, stamp, rules);
    QuietCallsDoNothing(ApplyAll(w, ids, workspace, stamp, Alone(|ids|), rules).world, ids, workspace, stamp, rules);
  }

  // --- what a request leaves alone --------------------------------------------

  /** Two worlds differ in the versions of their surveys at most: drafts, accounts and readings are the
      same. */
  ghost predicate SameButVersions(a: World, b: World) {
    && a.accounts == b.accounts
    && a.read == b.read
    && a.surveys.Keys == b.surveys.Keys
    && forall id <- a.surveys.Keys :: a.surveys[id].(versions := []) == b.surveys[id].(versions := [])
  }

  lemma StepsKeepTheRestAlike(a: World, b: World, step: Step, rules: Rules)
    requires SameButVersions(a, b)
    ensures SameButVersions(Next(a, step, rules), Next(b, step, rules))
  {
    if step.PublishDraft? {
      VersionsAside(a, b, step.id, PublishOne(a, step.id, rules), PublishOne(b, step.id, rules));
    } else if step.RefreshSurvey? {
      RefreshAside(a, step.id, RefreshOne(a, step.id, step.workspace, step.stamp, rules));
      RefreshAside(b, step.id, RefreshOne(b, step.id, step.workspace, step.stamp, rules));
    } else if step.Save? {
      SavesAlike(a, b, step.id, step.revision, step.edit, rules);
    } else {
      OtherStepsAlike(a, b, step, rules);
    }
  }

  lemma OtherStepsAlike(a: World, b: World, step: Step, rules: Rules)
    requires SameButVersions(a, b) && !step.PublishDraft? && !step.RefreshSurvey? && !step.Save?
    ensures SameButVersions(Next(a, step, rules), Next(b, step, rules))
  {
    hide PublishOne, RefreshOne, SaveEdit, Account.SetStyle, Account.SetTranslationOf, Account.RemoveLanguage, AccountReadings;
    match step
    case TranslateAccount(workspace, source, lang, words, reviewed) => AccountStepsAlike(a, b, step, workspace, rules);
    case SaveAccountStyle(workspace, style) => AccountStepsAlike(a, b, step, workspace, rules);
    case RemoveAccountLanguage(workspace, lang) => AccountStepsAlike(a, b, step, workspace, rules);
    case _ => SurveyStepsAlike(a, b, step, rules);
  }

  lemma AccountStepsAlike(a: World, b: World, step: Step, workspace: nat, rules: Rules)
    requires SameButVersions(a, b) && (step.SaveAccountStyle? || step.TranslateAccount? || step.RemoveAccountLanguage?)
    requires step.workspace == workspace
    ensures SameButVersions(Next(a, step, rules), Next(b, step, rules))
  {
    hide Account.SetStyle, Account.SetTranslationOf, Account.RemoveLanguage, AccountReadings;
    assert a.AccountsOf(workspace) == b.AccountsOf(workspace) && a.Current(workspace) == b.Current(workspace);
    assert Next(a, step, rules).surveys == a.surveys && Next(b, step, rules).surveys == b.surveys;
  }

  lemma SurveyStepsAlike(a: World, b: World, step: Step, rules: Rules)
    requires SameButVersions(a, b) && (step.Create? || step.Close? || step.Reopen? || step.Delete? || step.Rename?)
    ensures SameButVersions(Next(a, step, rules), Next(b, step, rules))
  {
    hide SameButVersions;
    SurveysAlike(a, b, step.id);
    if step.id in a.surveys && !step.Create? {
      OneSurveyChanged(a, b, step.id, Next(a, step, rules).surveys[step.id], Next(b, step, rules).surveys[step.id]);
    } else if step.Create? && step.id !in a.surveys {
      var s := Survey(step.workspace, step.title, [EMPTY_DRAFT], [], false, false);
      OneSurveyChanged(a, b, step.id, s, s);
    }
  }

  lemma SurveysAlike(a: World, b: World, id: nat)
    requires SameButVersions(a, b)
    ensures id in a.surveys <==> id in b.surveys
    ensures id in a.surveys ==> a.surveys[id].(versions := []) == b.surveys[id].(versions := [])
  {
  }

  lemma OneSurveyChanged(a: World, b: World, id: nat, s: Survey, t: Survey)
    requires SameButVersions(a, b) && s.(versions := []) == t.(versions := [])
    ensures SameButVersions(a.(surveys := a.surveys[id := s]), b.(surveys := b.surveys[id := t]))
  {
  }

  lemma VersionsAside(a: World, b: World, id: nat, r: Result<Version>, q: Result<Version>)
    requires SameButVersions(a, b)
    ensures SameButVersions(AfterPublish(a, id, r), AfterPublish(b, id, q))
  {
  }

  lemma RefreshAside(w: World, id: nat, o: Outcome)
    ensures SameButVersions(AfterRefresh(w, id, o), w)
  {
  }

  lemma SavesAlike(a: World, b: World, id: nat, revision: nat, edit: Edit, rules: Rules)
    requires SameButVersions(a, b)
    ensures SameButVersions(SaveEdit(a, id, revision, edit, rules), SaveEdit(b, id, revision, edit, rules))
  {
    if id in a.surveys {
      var s, t := a.surveys[id], b.surveys[id];
      assert s.(versions := []) == t.(versions := []);
      assert s.revisions == t.revisions && s.workspace == t.workspace && a.AccountsOf(s.workspace) == b.AccountsOf(s.workspace);
    }
  }

  lemma {:induction false} RunsKeepTheRestAlike(a: World, b: World, steps: seq<Step>, rules: Rules)
    requires SameButVersions(a, b)
    ensures SameButVersions(Run(a, steps, rules), Run(b, steps, rules))
    decreases |steps|
  {
    if steps != [] {
      StepsKeepTheRestAlike(a, b, steps[0], rules);
      RunsKeepTheRestAlike(Next(a, steps[0], rules), Next(b, steps[0], rules), steps[1..], rules);
    }
  }

  /** What the others do up to the n-th survey, one after another. */
  function OthersUpTo(w: World, others: seq<seq<Step>>, n: nat, rules: Rules): World
    requires n <= |others|
    decreases n
  {
    if n == 0 then w else OthersUpTo(Run(w, others[0], rules), others[1..], n - 1, rules)
  }

  /** Applying touches no draft: the drafts, the accounts and the readings afterwards are those the
      other requests alone would have left. */
  lemma {:induction false} ApplyingTouchesNoDraft(w: World, b: World, ids: seq<nat>, workspace: nat, stamp: nat, others: seq<seq<Step>>, rules: Rules)
    requires |others| == |ids| && SameButVersions(w, b)
    ensures var r := ApplyAll(w, ids, workspace, stamp, others, rules);
      && r.reached <= |ids|
      && SameButVersions(r.world, OthersUpTo(b, others, r.reached, rules))
      && (r.error.None? ==> r.reached == |ids|)
    decreases |ids|
  {
    if ids != [] {
      var before := Run(w, others[0], rules);
      var o := RefreshOne(before, ids[0], workspace, stamp, rules);
      RunsKeepTheRestAlike(w, b, others[0], rules);
      if !o.Failed? {
        RefreshAside(before, ids[0], o);
        ApplyingTouchesNoDraft(AfterRefresh(before, ids[0], o), Run(b, others[0], rules), ids[1..], workspace, stamp, others[1..], rules);
      } else {
        assert OthersUpTo(b, others, 1, rules) == Run(b, others[0], rules);
      }
    }
  }

  // --- which surveys went out, and which the listing names ---------------------

  function VersionsFor(published: seq<(nat, Version)>, id: nat): seq<Version> {
    if published == [] then []
    else (if published[0].0 == id then [published[0].1] else []) + VersionsFor(published[1..], id)
  }

  function TitlesOf(w: World, published: seq<(nat, Version)>): seq<string> {
    seq(|published|, i requires 0 <= i < |published| => if published[i].0 in w.surveys then w.surveys[published[i].0].title else "")
  }

  lemma TitlesOfOneMore(w: World, first: (nat, Version), rest: seq<(nat, Version)>)
    requires first.0 in w.surveys
    ensures TitlesOf(w, [first] + rest) == [w.surveys[first.0].title] + TitlesOf(w, rest)
  {
  }

  lemma TitlesStay(w: World, id: nat, o: Outcome, published: seq<(nat, Version)>)
    ensures TitlesOf(AfterRefresh(w, id, o), published) == TitlesOf(w, published)
  {
  }

  /** The world as each survey that went out was found, when its turn came. */
  function Turns(w: World, ids: seq<nat>, workspace: nat, stamp: nat, others: seq<seq<Step>>, rules: Rules): seq<World>
    requires |others| == |ids|
    decreases |ids|
  {
    if ids == [] then []
    else
      var before := Run(w, others[0], rules);
      var o := RefreshOne(before, ids[0], workspace, stamp, rules);
      if o.Failed? then []
      else (if o.Updated? then [before] else []) + Turns(AfterRefresh(before, ids[0], o), ids[1..], workspace, stamp, others[1..], rules)
  }

  /** At its turn the survey was published, and had that title. */
  ghost predicate WentOut(turn: World, published: (nat, Version), title: string, workspace: nat, stamp: nat, rules: Rules) {
    && RefreshOne(turn, published.0, workspace, stamp, rules) == Updated(published.1)
    && published.0 in turn.surveys && turn.surveys[published.0].title == title
  }

  ghost predicate AllWentOut(turns: seq<World>, r: Applied, workspace: nat, stamp: nat, rules: Rules) {
    && |turns| == |r.published| == |r.updated|
    && forall k :: 0 <= k < |turns| ==> WentOut(turns[k], r.published[k], r.updated[k], workspace, stamp, rules)
  }

  lemma OneMoreTurn(before: World, id: nat, o: Outcome, turns: seq<World>, rest: Applied, workspace: nat, stamp: nat, rules: Rules)
    requires o == RefreshOne(before, id, workspace, stamp, rules) && AllWentOut(turns, rest, workspace, stamp, rules)
    ensures AllWentOut((if o.Updated? then [before] else []) + turns, Prepend(before, id, o, rest), workspace, stamp, rules)
  {
    PublishedIsThere(before, id, workspace, stamp, rules);
    hide RefreshOne;
    var more, r := (if o.Updated? then [before] else []) + turns, Prepend(before, id, o, rest);
    forall k | 0 <= k < |more| ensures WentOut(more[k], r.published[k], r.updated[k], workspace, stamp, rules) {
      if o.Updated? && k > 0 {
        assert WentOut(turns[k - 1], rest.published[k - 1], rest.updated[k - 1], workspace, stamp, rules);
      }
    }
  }

  lemma PublishedIsThere(w: World, id: nat, workspace: nat, stamp: nat, rules: Rules)
    ensures RefreshOne(w, id, workspace, stamp, rules).Updated? ==> id in w.surveys
  {
    hide RefreshVersion;
  }

  /** Whatever goes on between the surveys, the titles given are those the surveys that went out had when
      their turn came, in order, each published from the world as it then was. */
  lemma {:induction false} TitlesNameWhatWentOut(w: World, ids: seq<nat>, workspace: nat, stamp: nat, others: seq<seq<Step>>, rules: Rules)
    requires |others| == |ids|
    ensures var turns := Turns(w, ids, workspace, stamp, others, rules);
      AllWentOut(turns, ApplyAll(w, ids, workspace, stamp, others, rules), workspace, stamp, rules)
    decreases |ids|
  {
    hide RefreshOne, Run, AllWentOut, Prepend, AfterRefresh;
    if ids == [] {
      NobodyWentOut(w, workspace, stamp, rules, None);
    } else {
      var before := Run(w, others[0], rules);
      var o := RefreshOne(before, ids[0], workspace, stamp, rules);
      if o.Failed? {
        NobodyWentOut(before, workspace, stamp, rules, Some(o.error));
      } else {
        var after := AfterRefresh(before, ids[0], o);
        TitlesNameWhatWentOut(after, ids[1..], workspace, stamp, others[1..], rules);
        OneMoreTurn(before, ids[0], o, Turns(after, ids[1..], workspace, stamp, others[1..], rules),
                    ApplyAll(after, ids[1..], workspace, stamp, others[1..], rules), workspace, stamp, rules);
      }
    }
  }

  lemma NobodyWentOut(w: World, workspace: nat, stamp: nat, rules: Rules, error: Option<Error>)
    ensures forall reached :: AllWentOut([], Applied(w, [], [], [], reached, error), workspace, stamp, rules)
  {
  }

  // --- titles nobody changes ---

  predicate Renames(steps: seq<Step>, id: nat) {
    exists step <- steps :: step.Rename? && step.id == id
  }

  lemma StepKeepsTitle(w: World, step: Step, id: nat, rules: Rules)
    requires id in w.surveys && !(step.Rename? && step.id == id)
    ensures var n := Next(w, step, rules); id in n.surveys && n.surveys[id].title == w.surveys[id].title
  {
    hide PublishOne, RefreshOne, Apply, Account.SetStyle, Account.SetTranslationOf, Account.RemoveLanguage, ReadingsOf, AccountReadings;
  }

  lemma {:induction false} RunKeepsTitle(w: World, steps: seq<Step>, id: nat, rules: Rules)
    requires id in w.surveys && !Renames(steps, id)
    ensures var n := Run(w, steps, rules); id in n.surveys && n.surveys[id].title == w.surveys[id].title
    decreases |steps|
  {
    hide Next;
    if steps != [] {
      assert steps[0] in steps;
      StepKeepsTitle(w, steps[0], id, rules);
      assert forall step <- steps[1..] :: step in steps;
      RunKeepsTitle(Next(w, steps[0], rules), steps[1..], id, rules);
    }
  }

  /** The surveys named are there and nobody renames one between them. */
  predicate TitlesStand(w: World, ids: seq<nat>, others: seq<seq<Step>>) {
    forall id <- ids :: id in w.surveys && forall i :: 0 <= i < |others| ==> !Renames(others[i], id)
  }

  lemma TitlesAfter(w: World, steps: seq<Step>, published: seq<(nat, Version)>, rules: Rules)
    requires forall k :: 0 <= k < |published| ==> published[k].0 in w.surveys && !Renames(steps, published[k].0)
    ensures TitlesOf(Run(w, steps, rules), published) == TitlesOf(w, published)
  {
    hide Run, Renames;
    forall k | 0 <= k < |published| ensures TitlesOf(Run(w, steps, rules), published)[k] == TitlesOf(w, published)[k] {
      RunKeepsTitle(w, steps, published[k].0, rules);
    }
  }

  lemma TitlesStandAfter(w: World, ids: seq<nat>, others: seq<seq<Step>>, o: Outcome, rules: Rules)
    requires ids != [] && |others| == |ids| && TitlesStand(w, ids, others)
    ensures TitlesStand(AfterRefresh(Run(w, others[0], rules), ids[0], o), ids[1..], others[1..])
  {
    hide Run, Renames;
    forall id | id in ids ensures id in Run(w, others[0], rules).surveys {
      RunKeepsTitle(w, others[0], id, rules);
    }
    forall id | id in ids[1..] ensures id in ids && forall i :: 0 <= i < |others| - 1 ==> !Renames(others[1..][i], id) {
      assert forall i :: 0 <= i < |others| - 1 ==> others[1..][i] == others[i + 1];
    }
  }

  lemma PublishedAreNamed(w: World, ids: seq<nat>, workspace: nat, stamp: nat, others: seq<seq<Step>>, rules: Rules)
    requires |others| == |ids|
    ensures forall k :: 0 <= k < |ApplyAll(w, ids, workspace, stamp, others, rules).published| ==>
              ApplyAll(w, ids, workspace, stamp, others, rules).published[k].0 in ids
    decreases |ids|
  {
    hide RefreshOne, Run, AfterRefresh;
    if ids != [] {
      var before := Run(w, others[0], rules);
      var o := RefreshOne(before, ids[0], workspace, stamp, rules);
      if !o.Failed? {
        PublishedAreNamed(AfterRefresh(before, ids[0], o), ids[1..], workspace, stamp, others[1..], rules);
      }
    }
  }

  /** So where nobody renames one of them between, they are the titles the surveys had as the request was
      made. */
  lemma {:induction false} TitlesNobodyChanges(w: World, ids: seq<nat>, workspace: nat, stamp: nat, others: seq<seq<Step>>, rules: Rules)
    requires |others| == |ids| && TitlesStand(w, ids, others)
    ensures var r := ApplyAll(w, ids, workspace, stamp, others, rules); r.updated == TitlesOf(w, r.published)
    decreases |ids|
  {
    hide RefreshOne, Run, AfterRefresh, Renames, TitlesOf, TitlesStand;
    if ids == [] {
      NoTitles(w);
    } else {
      var before := Run(w, others[0], rules);
      var o := RefreshOne(before, ids[0], workspace, stamp, rules);
      if o.Failed? {
        NoTitles(w);
      } else {
        var after := AfterRefresh(before, ids[0], o);
        var rest := ApplyAll(after, ids[1..], workspace, stamp, others[1..], rules);
        TitlesStandAfter(w, ids, others, o, rules);
        TitlesNobodyChanges(after, ids[1..], workspace, stamp, others[1..], rules);
        TitlesStay(before, ids[0], o, rest.published);
        OneMoreTitle(before, ids[0], o, rest, workspace, stamp, rules);
        TitlesBefore(w, ids, workspace, stamp, others, rules);
      }
    }
  }

  lemma TitlesBefore(w: World, ids: seq<nat>, workspace: nat, stamp: nat, others: seq<seq<Step>>, rules: Rules)
    requires |others| == |ids| != 0 && TitlesStand(w, ids, others)
    ensures var r := ApplyAll(w, ids, workspace, stamp, others, rules);
      TitlesOf(Run(w, others[0], rules), r.published) == TitlesOf(w, r.published)
  {
    hide ApplyAll, Run, Renames, TitlesOf;
    PublishedAreNamed(w, ids, workspace, stamp, others, rules);
    TitlesAfter(w, others[0], ApplyAll(w, ids, workspace, stamp, others, rules).published, rules);
  }

  lemma NoTitles(w: World)
    ensures TitlesOf(w, []) == []
  {
  }

  lemma OneMoreTitle(w: World, id: nat, o: Outcome, rest: Applied, workspace: nat, stamp: nat, rules: Rules)
    requires o == RefreshOne(w, id, workspace, stamp, rules) && rest.updated == TitlesOf(w, rest.published)
    ensures Prepend(w, id, o, rest).updated == TitlesOf(w, Prepend(w, id, o, rest).published)
  {
    PublishedIsThere(w, id, workspace, stamp, rules);
    hide RefreshOne;
    if o.Updated? {
      TitlesOfOneMore(w, (id, o.version), rest.published);
    } else {
      assert Prepend(w, id, o, rest).published == rest.published;
    }
  }

  // --- what a request that runs alone leaves of the versions ---

  lemma AloneIs(n: nat)
    requires n > 0
    ensures Alone(n)[0] == [] && Alone(n)[1..] == Alone(n - 1)
  {
  }

  lemma NothingRuns(w: World, rules: Rules)
    ensures Run(w, [], rules) == w
  {
  }

  /** With nothing between, each survey gains the versions published for it and no other. */
  lemma {:induction false} EachSurveyGainsItsOwn(w: World, ids: seq<nat>, workspace: nat, stamp: nat, rules: Rules)
    requires Inv(w, rules)
    ensures var r := ApplyAll(w, ids, workspace, stamp, Alone(|ids|), rules);
      && r.world.surveys.Keys == w.surveys.Keys
      && forall id <- w.surveys.Keys :: r.world.surveys[id].versions == w.surveys[id].versions + VersionsFor(r.published, id)
    decreases |ids|
  {
    hide Inv, Run, RefreshOne, Alone, Prepend, VersionsFor;
    if ids == [] {
      NothingGained(w);
    } else {
      AloneIs(|ids|);
      NothingRuns(w, rules);
      var o := RefreshOne(w, ids[0], workspace, stamp, rules);
      OutcomesAreGood(w, ids[0], workspace, stamp, rules);
      if !o.Failed? {
        var after := AfterRefresh(w, ids[0], o);
        var rest := ApplyAll(after, ids[1..], workspace, stamp, Alone(|ids[1..]|), rules);
        AfterRefreshKeepsInv(w, ids[0], workspace, stamp, rules, o);
        EachSurveyGainsItsOwn(after, ids[1..], workspace, stamp, rules);
        OneMoreWentOut(w, ids[0], o, rest);
      } else {
        NothingGained(w);
      }
    }
  }

  lemma NothingGained(w: World)
    ensures forall id <- w.surveys.Keys :: w.surveys[id].versions == w.surveys[id].versions + VersionsFor([], id)
  {
  }

  lemma OneMoreWentOut(w: World, id: nat, o: Outcome, rest: Applied)
    requires o.Updated? ==> id in w.surveys
    requires rest.world.surveys.Keys == w.surveys.Keys
    requires var after := AfterRefresh(w, id, o);
      forall i <- w.surveys.Keys :: rest.world.surveys[i].versions == after.surveys[i].versions + VersionsFor(rest.published, i)
    ensures var r := Prepend(w, id, o, rest);
      r.world.surveys.Keys == w.surveys.Keys && forall i <- w.surveys.Keys :: r.world.surveys[i].versions == w.surveys[i].versions + VersionsFor(r.published, i)
  {
    var r := Prepend(w, id, o, rest);
    if o.Updated? {
      assert r.published == [(id, o.version)] + rest.published && r.published[1..] == rest.published;
    } else {
      assert r.published == rest.published;
    }
  }

  /** Whether the listing names a survey, and the language it names as holding it. */
  function Listed(w: World, id: nat, workspace: nat): Option<Option<string>> {
    if id !in w.surveys || w.surveys[id].workspace != workspace || w.surveys[id].deleted || !w.surveys[id].Open() then None
    else
      var r := RefreshAgainst(StyleOnly(Latest(w.surveys[id]).value), w.Current(workspace));
      if r.changes then Some(r.blockedIn) else None
  }

  /** Whether it names the survey for a change of the account's from before to what it now is. */
  function ListedForChange(w: World, id: nat, workspace: nat, before: Account): Option<Option<string>> {
    if id !in w.surveys || w.surveys[id].workspace != workspace || w.surveys[id].deleted || !w.surveys[id].Open() then None
    else
      var v := StyleOnly(Latest(w.surveys[id]).value);
      if ChangedBetween(v, before, w.Current(workspace)) then Listed(w, id, workspace) else None
  }

  /** How a listing and a refresh of one open version decide. */
  lemma ListedAlike(log: set<Reading>, v: Version, account: Account, rules: Rules)
    requires VersionOK(log, v, rules) && AccountOK(log, account, rules)
    ensures var r, o := RefreshAgainst(StyleOnly(v), account), RefreshVersion(v, account, rules);
      if !r.changes then o.LeftAlone? else if r.blockedIn.Some? then o == Held(r.blockedIn.value) else o.Updated?
  {
    assert OneTextPerIdentity(v.questions);
    hide VersionOK, AccountOK, StyleOnly, Publishable;
    ListingDecidesAsARefresh(v, account, account);
    RefreshIsOnlyHeldByTheAccount(log, v, account, rules);
  }

  /** The listing decides as the refresh would: a survey is named exactly when refreshing it now would
      publish it or find it held, and named as held exactly by the language that would hold it. */
  lemma ListedAsARefreshWouldDo(w: World, id: nat, workspace: nat, rules: Rules)
    requires Inv(w, rules)
    ensures var o := RefreshOne(w, id, workspace, w.Stamp(workspace), rules);
      match Listed(w, id, workspace)
      case None => o.LeftAlone? || (o.Failed? && w.surveys[id].workspace != workspace)
      case Some(None) => o.Updated?
      case Some(Some(lang)) => o == Held(lang)
  {
    hide Inv, VersionOK, AccountOK, RefreshAgainst, RefreshVersion, StyleOnly, ReadFor, AccountsOK;
    if id in w.surveys && w.surveys[id].versions != [] {
      SurveysAccountsAreOK(w, id, rules);
      SurveyIsOK(w, id, rules);
      ListedAlike(w.ReadOf(id), Latest(w.surveys[id]).value, w.Current(w.surveys[id].workspace), rules);
    }
  }

  /** Asked about one change of the account's, the listing names the same surveys among those that were
      up to date before it. */
  lemma ChangeListsWhatItMadeStale(w: World, id: nat, workspace: nat, before: Account, rules: Rules)
    requires Inv(w, rules) && id in w.surveys && w.surveys[id].versions != []
    requires !RefreshAgainst(Latest(w.surveys[id]).value, before).changes
    ensures ListedForChange(w, id, workspace, before) == Listed(w, id, workspace)
  {
    var v := Latest(w.surveys[id]).value;
    SurveyIsOK(w, id, rules);
    ListingDecidesAsARefresh(v, before, w.Current(workspace));
    ChangedExactlyWhenARefreshChanges(v, before, w.Current(workspace));
  }
}
