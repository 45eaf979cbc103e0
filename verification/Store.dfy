/** The store's requests over the surveys it holds: listing the surveys an account's change reaches, and
    applying it to them one transaction at a time. */
module Stores {
  import opened Wrappers
  import opened Styles
  import opened Drafts
  import opened Versions
  import opened Refreshes
  import opened Publishing
  import opened Runs
  import opened Applying
  import opened Freezing
  import opened WorkingDrafts

  class Store {
    var world: World
    const rules: Rules

    constructor (w: World, rules: Rules)
      ensures world == w && this.rules == rules
    {
      world := w;
      this.rules := rules;
    }

    /** What other requests do while one is under way. */
    method Others(steps: seq<Step>)
      modifies this`world
      ensures world == Run(old(world), steps, rules)
    {
      ghost var was := world;
      for i := 0 to |steps|
        invariant Run(world, steps[i..], rules) == Run(was, steps, rules)
      {
        assert steps[i..][0] == steps[i] && steps[i..][1..] == steps[i + 1..];
        world := Next(world, steps[i], rules);
      }
    }

    /** One survey's transaction: held, checked, and published again from its live version. */
    method RefreshOneSurvey(id: nat, workspace: nat, stamp: nat) returns (o: Outcome)
      modifies this`world
      ensures o == RefreshOne(old(world), id, workspace, stamp, rules)
      ensures world == AfterRefresh(old(world), id, o)
    {
      if id !in world.surveys {
        return LeftAlone;
      }
      var s := world.surveys[id];
      var account := world.Current(s.workspace);
      if world.Stamp(s.workspace) != stamp {
        return Failed(AccountStyleChanged);
      }
      if s.workspace != workspace || s.deleted {
        return LeftAlone;
      }
      if s.versions == [] || s.closed {
        return LeftAlone;
      }
      o := RefreshLiveVersion(s.versions[|s.versions| - 1], account);
      if o.Updated? {
        world := WithVersion(world, id, o.version);
      }
    }

    method RefreshLiveVersion(v: Version, account: Account) returns (o: Outcome)
      ensures o == RefreshVersion(v, account, rules)
    {
      var refresh := WouldRefresh(v, account);
      if !refresh.changes {
        return LeftAlone;
      }
      if refresh.blockedIn.Some? {
        return Held(refresh.blockedIn.value);
      }
      var draft := ReadBack(v);
      var working := new WorkingDraft(draft);
      var refused := working.ReadyToPublish(account);
      if refused.Some? {
        return Failed(refused.value);
      }
      refused := draft.ResolvedStyle(account.style).Validate(rules.addresses);
      if refused.Some? {
        return Failed(refused.value);
      }
      var made := PublishResolved(draft, account);
      return Updated(made);
    }

    /** Whether all the surveys named belong to the workspace; deletion does not matter. */
    method AreOurs(ids: seq<nat>, workspace: nat) returns (ours: bool)
      ensures ours == AllOurs(world, ids, workspace)
    {
      for i := 0 to |ids|
        invariant forall j :: 0 <= j < i ==> ids[j] in world.surveys && world.surveys[ids[j]].workspace == workspace
      {
        if ids[i] !in world.surveys || world.surveys[ids[i]].workspace != workspace {
          return false;
        }
      }
      return true;
    }

    /** The request: refused before anything is published where it names another workspace's survey or
        a style changed since; then survey by survey, others[i] going on before the i-th. */
    method RefreshFromAccountStyle(ids: seq<nat>, workspace: nat, stamp: nat, others: seq<seq<Step>>)
      returns (updated: seq<string>, skipped: seq<(nat, string)>, error: Option<Error>)
      requires |others| == |ids|
      modifies this`world
      ensures var r := RefreshFromAccount(old(world), ids, workspace, stamp, others, rules);
        world == r.world && updated == r.updated && skipped == r.skipped && error == r.error
    {
      var ours := AreOurs(ids, workspace);
      if !ours {
        return [], [], Some(NotFound);
      }
      if world.Stamp(workspace) != stamp {
        return [], [], Some(AccountStyleChanged);
      }
      updated, skipped, error := ApplyToEach(ids, workspace, stamp, others);
    }

    method ApplyToEach(ids: seq<nat>, workspace: nat, stamp: nat, others: seq<seq<Step>>)
      returns (updated: seq<string>, skipped: seq<(nat, string)>, error: Option<Error>)
      requires |others| == |ids|
      modifies this`world
      ensures var r := ApplyAll(old(world), ids, workspace, stamp, others, rules);
        world == r.world && updated == r.updated && skipped == r.skipped && error == r.error
    {
      ghost var between := (w: World, i: nat) => if i < |others| then Run(w, others[i], rules) else w;
      ghost var refresh := (w: World, id: nat) => RefreshOne(w, id, workspace, stamp, rules);
      SweepIsApplyAll(world, ids, workspace, stamp, others, rules, 0, between, refresh);
      assert ids[0..] == ids && others[0..] == others;
      updated, skipped, error := SweepThem(ids, workspace, stamp, others, between, refresh);
    }

    /** Survey by survey: what others do first, then the survey's own transaction. */
    method SweepThem(ids: seq<nat>, workspace: nat, stamp: nat, others: seq<seq<Step>>, ghost between: (World, nat) -> World, ghost refresh: (World, nat) -> Outcome)
      returns (updated: seq<string>, skipped: seq<(nat, string)>, error: Option<Error>)
      requires |others| == |ids| && Linked(workspace, stamp, others, rules, between, refresh)
      modifies this`world
      ensures var r := Sweep(old(world), ids, 0, between, refresh);
        world == r.world && updated == r.updated && skipped == r.skipped && error == r.error
    {
      updated, skipped, error := [], [], None;
      ghost var goal := Sweep(world, ids, 0, between, refresh);
      ghost var rest := goal;
      for i := 0 to |ids|
        invariant rest == Sweep(world, ids, i, between, refresh) && Continues(goal, updated, skipped, rest)
      {
        ghost var before := between(world, i);
        var outcome, title := Turn(i, ids[i], workspace, stamp, others, between, refresh);
        ghost var next := if outcome.Failed? then rest else Sweep(world, ids, i + 1, between, refresh);
        assert !outcome.Failed? ==> rest == Prepend(before, ids[i], outcome, next);
        match outcome {
          case Failed(e) => return updated, skipped, Some(e);
          case Updated(_) =>
            ContinuesFurther(goal, updated, skipped, before, ids[i], outcome, next);
            updated := updated + [title];
          case Held(lang) =>
            ContinuesFurther(goal, updated, skipped, before, ids[i], outcome, next);
            skipped := skipped + [(ids[i], lang)];
          case LeftAlone => ContinuesFurther(goal, updated, skipped, before, ids[i], outcome, next);
        }
        rest := next;
      }
    }

    /** One survey's turn, and its title as its transaction found it. */
    method Turn(i: nat, id: nat, workspace: nat, stamp: nat, others: seq<seq<Step>>, ghost between: (World, nat) -> World, ghost refresh: (World, nat) -> Outcome)
      returns (o: Outcome, title: string)
      requires i < |others| && Linked(workspace, stamp, others, rules, between, refresh)
      modifies this`world
      ensures var before := between(old(world), i);
        && o == refresh(before, id) && world == AfterRefresh(before, id, o)
        && (o.Updated? ==> id in before.surveys && title == before.surveys[id].title)
    {
      Others(others[i]);
      title := if id in world.surveys then world.surveys[id].title else "";
      UpdatedIsThere(world, id, workspace, stamp, rules);
      o := RefreshOneSurvey(id, workspace, stamp);
    }

    /** Every open survey of the workspace, in the order they were made, whose live version the change
        would draw differently, with the language that holds it; rows lists the newest first. */
    method StaleSurveys(rows: seq<nat>, workspace: nat) returns (stale: seq<(nat, Option<string>)>)
      ensures stale == StaleAmong(world, rows, workspace)
    {
      hide Listed, StaleAmong;
      stale := [];
      var i := |rows|;
      assert rows[..i] == rows;
      NoneListed(world, workspace);
      while i > 0
        invariant 0 <= i <= |rows|
        invariant stale + StaleAmong(world, rows[..i], workspace) == StaleAmong(world, rows, workspace)
      {
        i := i - 1;
        OneMoreListed(world, rows, i, workspace);
        var hold := HoldOf(rows[i], workspace);
        if hold.Some? {
          stale := stale + [(rows[i], hold.value)];
        }
      }
    }

    /** Whether one survey is listed, and what holds it. */
    method HoldOf(id: nat, workspace: nat) returns (hold: Option<Option<string>>)
      ensures hold == Listed(world, id, workspace)
    {
      if id !in world.surveys || world.surveys[id].workspace != workspace || world.surveys[id].deleted || !world.surveys[id].Open() {
        return None;
      }
      var v := StyleOnly(Latest(world.surveys[id]).value);
      if v.follows.IsZero() {
        return None;
      }
      var r := WouldRefresh(v, world.Current(workspace));
      return if r.changes then Some(r.blockedIn) else None;
    }
  }

  lemma UpdatedIsThere(w: World, id: nat, workspace: nat, stamp: nat, rules: Rules)
    ensures RefreshOne(w, id, workspace, stamp, rules).Updated? ==> id in w.surveys
  {
  }

  /** What a call comes to in the end is what it has so far and what is left of it. */
  ghost predicate Continues(goal: Applied, updated: seq<string>, skipped: seq<(nat, string)>, rest: Applied) {
    && goal.world == rest.world && goal.error == rest.error
    && goal.updated == updated + rest.updated && goal.skipped == skipped + rest.skipped
  }

  lemma ContinuesFurther(goal: Applied, updated: seq<string>, skipped: seq<(nat, string)>, before: World, id: nat, o: Outcome, next: Applied)
    requires Continues(goal, updated, skipped, Prepend(before, id, o, next)) && (o.Updated? ==> id in before.surveys)
    ensures Continues(goal, if o.Updated? then updated + [before.surveys[id].title] else updated,
                      if o.Held? then skipped + [(id, o.lang)] else skipped, next)
  {
  }

  /** A sweep over the surveys named, each with what goes on before it and what refreshing it comes to. */
  ghost function Sweep(w: World, ids: seq<nat>, i: nat, between: (World, nat) -> World, refresh: (World, nat) -> Outcome): Applied
    requires i <= |ids|
    decreases |ids| - i
  {
    if i == |ids| then Applied(w, [], [], [], 0, None)
    else
      var before := between(w, i);
      var o := refresh(before, ids[i]);
      if o.Failed? then Applied(before, [], [], [], 1, Some(o.error))
      else Prepend(before, ids[i], o, Sweep(AfterRefresh(before, ids[i], o), ids, i + 1, between, refresh))
  }

  ghost predicate Linked(workspace: nat, stamp: nat, others: seq<seq<Step>>, rules: Rules, between: (World, nat) -> World, refresh: (World, nat) -> Outcome) {
    && (forall w, id: nat {:trigger RefreshOne(w, id, workspace, stamp, rules)} :: refresh(w, id) == RefreshOne(w, id, workspace, stamp, rules))
    && (forall w, i: nat {:trigger Run(w, others[i], rules)} :: i < |others| ==> between(w, i) == Run(w, others[i], rules))
  }

  lemma {:induction false} SweepIsApplyAll(w: World, ids: seq<nat>, workspace: nat, stamp: nat, others: seq<seq<Step>>, rules: Rules, i: nat,
                                           between: (World, nat) -> World, refresh: (World, nat) -> Outcome)
    requires |others| == |ids| && i <= |ids| && Linked(workspace, stamp, others, rules, between, refresh)
    ensures Sweep(w, ids, i, between, refresh) == ApplyAll(w, ids[i..], workspace, stamp, others[i..], rules)
    decreases |ids| - i
  {
    if i < |ids| {
      var before := Run(w, others[i], rules);
      var o := RefreshOne(before, ids[i], workspace, stamp, rules);
      assert ids[i..][1..] == ids[i + 1..] && others[i..][1..] == others[i + 1..];
      if !o.Failed? {
        SweepIsApplyAll(AfterRefresh(before, ids[i], o), ids, workspace, stamp, others, rules, i + 1, between, refresh);
      }
    }
  }

  /** The surveys listed, the oldest first, rows having the newest first. */
  function StaleAmong(w: World, rows: seq<nat>, workspace: nat): seq<(nat, Option<string>)> {
    if rows == [] then []
    else
      var id := rows[|rows| - 1];
      (match Listed(w, id, workspace) case None => [] case Some(hold) => [(id, hold)]) + StaleAmong(w, rows[..|rows| - 1], workspace)
  }

  lemma NoneListed(w: World, workspace: nat)
    ensures StaleAmong(w, [], workspace) == []
  {
  }

  lemma OneMoreListed(w: World, rows: seq<nat>, i: nat, workspace: nat)
    requires i < |rows|
    ensures StaleAmong(w, rows[..i + 1], workspace)
         == (match Listed(w, rows[i], workspace) case None => [] case Some(hold) => [(rows[i], hold)]) + StaleAmong(w, rows[..i], workspace)
  {
    hide Listed;
    assert rows[..i + 1][..i] == rows[..i];
  }
}
