/**
 * Links from a task to the rewards granted when it is completed and to the
 * punishments assigned when it is missed (the task_rewards and
 * task_punishments tables), and the two loops that hand them out.
 */
module TaskConsequences {
  import opened Wrappers
  import opened Dates
  import opened Types
  import opened Query
  import opened Assignments
  import opened Rewards
  import opened Punishments

  /** A row of task_rewards or task_punishments; itemId is the reward or the punishment. */
  datatype TaskLink = TaskLink(taskId: Uuid, itemId: Uuid)

  /**
   * The errors of the link operations. The lookups of a task or an item
   * that the error type also names are not made by these operations.
   */
  datatype ConsequenceError = AlreadyExists | AssociationNotFound

  function LinkOf(taskId: Uuid, itemId: Uuid): TaskLink -> bool
  {
    (l: TaskLink) => l.taskId == taskId && l.itemId == itemId
  }

  function NotLinkOf(taskId: Uuid, itemId: Uuid): TaskLink -> bool
  {
    (l: TaskLink) => !(l.taskId == taskId && l.itemId == itemId)
  }

  /** The join condition: a link of the task whose item exists. */
  function JoinsTask(taskId: Uuid, items: set<Uuid>): TaskLink -> bool
  {
    (l: TaskLink) => l.taskId == taskId && l.itemId in items
  }

  /** SELECT COUNT(*) ... WHERE task_id = ? AND item_id = ? is positive. */
  predicate Linked(links: seq<TaskLink>, taskId: Uuid, itemId: Uuid)
  {
    Count(links, LinkOf(taskId, itemId)) > 0
  }

  predicate LinksDistinct(links: seq<TaskLink>)
  {
    forall i, j :: 0 <= i < j < |links| ==> links[i] != links[j]
  }

  lemma LinkedIff(links: seq<TaskLink>, taskId: Uuid, itemId: Uuid)
    ensures Linked(links, taskId, itemId) <==> TaskLink(taskId, itemId) in links
  {
    CountPositive(links, LinkOf(taskId, itemId));
    if TaskLink(taskId, itemId) in links {
      var i :| 0 <= i < |links| && links[i] == TaskLink(taskId, itemId);
      assert LinkOf(taskId, itemId)(links[i]);
    }
  }

  /** The task_rewards or the task_punishments table. */
  class LinkTable {
    var links: seq<TaskLink>

    constructor ()
      ensures links == []
    {
      links := [];
    }

    /**
     * add_task_reward / add_task_punishment: AlreadyExists when the link
     * is there, otherwise the link is inserted.
     */
    method AddLink(taskId: Uuid, itemId: Uuid) returns (res: Result<(), ConsequenceError>)
      modifies this
      ensures Linked(old(links), taskId, itemId) ==> res == Err(AlreadyExists) && links == old(links)
      ensures !Linked(old(links), taskId, itemId) ==>
        res == Ok(()) && links == old(links) + [TaskLink(taskId, itemId)]
      ensures Linked(links, taskId, itemId)
      ensures old(LinksDistinct(links)) ==> LinksDistinct(links)
    {
      if Count(links, LinkOf(taskId, itemId)) > 0 {
        return Err(AlreadyExists);
      }
      AddKeepsDistinct(links, taskId, itemId);
      links := links + [TaskLink(taskId, itemId)];
      LinkedIff(links, taskId, itemId);
      res := Ok(());
    }

    /**
     * remove_task_reward / remove_task_punishment: every matching row is
     * deleted, and AssociationNotFound when there was none.
     */
    method RemoveLink(taskId: Uuid, itemId: Uuid) returns (res: Result<(), ConsequenceError>)
      modifies this
      ensures !Linked(old(links), taskId, itemId) ==> res == Err(AssociationNotFound) && links == old(links)
      ensures Linked(old(links), taskId, itemId) ==>
        res == Ok(()) && links == Filter(old(links), NotLinkOf(taskId, itemId))
      ensures !Linked(links, taskId, itemId)
    {
      var remaining := Filter(links, NotLinkOf(taskId, itemId));
      RemoveUnlinks(links, taskId, itemId);
      if |links| == |remaining| {
        return Err(AssociationNotFound);
      }
      links := remaining;
      res := Ok(());
    }
  }

  /** The DELETE removes the link, and it affected a row exactly when the link was there. */
  lemma RemoveUnlinks(links: seq<TaskLink>, taskId: Uuid, itemId: Uuid)
    ensures !Linked(Filter(links, NotLinkOf(taskId, itemId)), taskId, itemId)
    ensures |Filter(links, NotLinkOf(taskId, itemId))| == |links| <==> !Linked(links, taskId, itemId)
    ensures !Linked(links, taskId, itemId) ==> Filter(links, NotLinkOf(taskId, itemId)) == links
  {
    var r := Filter(links, NotLinkOf(taskId, itemId));
    LinkedIff(r, taskId, itemId);
    CountFilter(links, NotLinkOf(taskId, itemId));
    CountSplit(links, LinkOf(taskId, itemId), NotLinkOf(taskId, itemId), (l: TaskLink) => true);
    CountAll(links);
    if !Linked(links, taskId, itemId) {
      LinkedIff(links, taskId, itemId);
      FilterAll(links, NotLinkOf(taskId, itemId));
    }
  }

  lemma {:induction false} CountAll(links: seq<TaskLink>)
    ensures Count(links, (l: TaskLink) => true) == |links|
  {
    if links != [] {
      CountAll(links[1..]);
    }
  }

  lemma AddKeepsDistinct(links: seq<TaskLink>, taskId: Uuid, itemId: Uuid)
    requires !Linked(links, taskId, itemId)
    ensures LinksDistinct(links) ==> LinksDistinct(links + [TaskLink(taskId, itemId)])
  {
    LinkedIff(links, taskId, itemId);
  }

  /** Removing a link just added gives the table back. */
  lemma AddThenRemove(links: seq<TaskLink>, taskId: Uuid, itemId: Uuid)
    requires !Linked(links, taskId, itemId)
    ensures Filter(links + [TaskLink(taskId, itemId)], NotLinkOf(taskId, itemId)) == links
  {
    FilterAppend(links, [TaskLink(taskId, itemId)], NotLinkOf(taskId, itemId));
    RemoveUnlinks(links, taskId, itemId);
    assert Filter([TaskLink(taskId, itemId)], NotLinkOf(taskId, itemId)) == [];
  }

  /** Removing one link leaves every other link in place. */
  lemma RemoveKeepsOthers(links: seq<TaskLink>, taskId: Uuid, itemId: Uuid, other: TaskLink)
    requires other in links && other != TaskLink(taskId, itemId)
    ensures other in Filter(links, NotLinkOf(taskId, itemId))
  {
    var i :| 0 <= i < |links| && links[i] == other;
    assert NotLinkOf(taskId, itemId)(links[i]);
  }

  // ---------------------------------------------------------------------
  // The linked items, and handing them out

  function ItemsOf(links: seq<TaskLink>): (r: seq<Uuid>)
    ensures |r| == |links|
    ensures forall i :: 0 <= i < |links| ==> r[i] == links[i].itemId
  {
    if links == [] then [] else [links[0].itemId] + ItemsOf(links[1..])
  }

  /** ORDER BY name over items known by their names. */
  function NameKey(names: map<Uuid, string>): Uuid -> seq<int>
  {
    (id: Uuid) => if id in names then IntsOfString(names[id]) else []
  }

  function RewardNames(rewards: map<Uuid, Reward>): (m: map<Uuid, string>)
    ensures m.Keys == rewards.Keys
  {
    map id | id in rewards :: rewards[id].name
  }

  function PunishmentNames(punishments: map<Uuid, Punishment>): (m: map<Uuid, string>)
    ensures m.Keys == punishments.Keys
  {
    map id | id in punishments :: punishments[id].name
  }

  /**
   * get_task_rewards / get_task_punishments: the items INNER JOINed with
   * the task's links, ordered by name; one entry per link.
   */
  function LinkedIds(links: seq<TaskLink>, names: map<Uuid, string>, taskId: Uuid): (r: seq<Uuid>)
    ensures forall i :: 0 <= i < |r| ==> r[i] in names && TaskLink(taskId, r[i]) in links
    ensures forall l :: l in links && l.taskId == taskId && l.itemId in names ==> l.itemId in r
    ensures |r| == Count(links, JoinsTask(taskId, names.Keys))
    ensures SortedBy(r, NameKey(names))
  {
    var kept := Filter(links, JoinsTask(taskId, names.Keys));
    var ids := ItemsOf(kept);
    var r := SortBy(ids, NameKey(names));
    CountFilter(links, JoinsTask(taskId, names.Keys));
    LinkedFromLinks(links, names, taskId, ids, r);
    LinksReachLinked(links, names, taskId, ids, r);
    r
  }

  lemma LinkedFromLinks(links: seq<TaskLink>, names: map<Uuid, string>, taskId: Uuid, ids: seq<Uuid>, r: seq<Uuid>)
    requires ids == ItemsOf(Filter(links, JoinsTask(taskId, names.Keys))) && multiset(r) == multiset(ids)
    ensures forall i :: 0 <= i < |r| ==> r[i] in names && TaskLink(taskId, r[i]) in links
  {
    var kept := Filter(links, JoinsTask(taskId, names.Keys));
    forall i | 0 <= i < |r|
      ensures r[i] in names && TaskLink(taskId, r[i]) in links
    {
      InMultiset(r[i], r, ids);
      var k :| 0 <= k < |ids| && ids[k] == r[i];
      assert kept[k] in links && JoinsTask(taskId, names.Keys)(kept[k]);
      assert kept[k] == TaskLink(taskId, r[i]);
    }
  }

  lemma LinksReachLinked(links: seq<TaskLink>, names: map<Uuid, string>, taskId: Uuid, ids: seq<Uuid>, r: seq<Uuid>)
    requires ids == ItemsOf(Filter(links, JoinsTask(taskId, names.Keys))) && multiset(r) == multiset(ids)
    ensures forall l :: l in links && l.taskId == taskId && l.itemId in names ==> l.itemId in r
  {
    var kept := Filter(links, JoinsTask(taskId, names.Keys));
    forall l | l in links && l.taskId == taskId && l.itemId in names
      ensures l.itemId in r
    {
      var i :| 0 <= i < |links| && links[i] == l;
      assert JoinsTask(taskId, names.Keys)(links[i]);
      var k :| 0 <= k < |kept| && kept[k] == l;
      assert ids[k] == l.itemId;
      InMultiset(l.itemId, r, ids);
    }
  }

  /**
   * assign_task_completion_rewards: assign_reward for every reward linked
   * to the task, in name order, the k-th taking the fresh row id
   * newIds[k]; the fetched rows in that order (AssignEach).
   */
  method AssignTaskCompletionRewards(store: RewardStore, links: seq<TaskLink>, taskId: Uuid, userId: Uuid,
                                     householdId: Uuid, now: Instant, newIds: seq<Uuid>)
    returns (given: seq<Assignment>)
    requires store.Valid() && FreshIds(store.userRewards, newIds)
    requires |newIds| == |LinkedIds(links, RewardNames(store.rewards), taskId)|
    modifies store
    ensures store.Valid() && store.rewards == old(store.rewards)
    ensures (store.userRewards, given)
      == AssignEach(old(store.userRewards), LinkedIds(links, RewardNames(old(store.rewards)), taskId),
                    userId, householdId, now, newIds)
  {
    var ids := LinkedIds(links, RewardNames(store.rewards), taskId);
    ghost var rows0 := store.userRewards;
    given := [];
    var k := 0;
    while k < |ids|
      invariant 0 <= k <= |ids| && store.rewards == old(store.rewards)
      invariant FreshIds(rows0, newIds[..k])
      invariant (store.userRewards, given) == AssignEach(rows0, ids[..k], userId, householdId, now, newIds[..k])
      invariant store.Valid()
    {
      AssignStep(rows0, ids, userId, householdId, now, newIds, k);
      var res := store.AssignReward(ids[k], userId, householdId, now, newIds[k]);
      given := given + [res.value];
      k := k + 1;
    }
    assert ids[..k] == ids && newIds[..k] == newIds;
  }

  /**
   * assign_missed_task_punishments: assign_punishment for every
   * punishment linked to the task, in name order (AssignEach).
   */
  method AssignMissedTaskPunishments(store: PunishmentStore, links: seq<TaskLink>, taskId: Uuid, userId: Uuid,
                                     householdId: Uuid, now: Instant, newIds: seq<Uuid>)
    returns (given: seq<Assignment>)
    requires store.Valid() && FreshIds(store.userPunishments, newIds)
    requires |newIds| == |LinkedIds(links, PunishmentNames(store.punishments), taskId)|
    modifies store
    ensures store.Valid() && store.punishments == old(store.punishments) && store.options == old(store.options)
    ensures (store.userPunishments, given)
      == AssignEach(old(store.userPunishments), LinkedIds(links, PunishmentNames(old(store.punishments)), taskId),
                    userId, householdId, now, newIds)
  {
    var ids := LinkedIds(links, PunishmentNames(store.punishments), taskId);
    ghost var rows0 := store.userPunishments;
    given := [];
    var k := 0;
    while k < |ids|
      invariant 0 <= k <= |ids| && store.punishments == old(store.punishments)
      invariant store.options == old(store.options)
      invariant FreshIds(rows0, newIds[..k])
      invariant (store.userPunishments, given) == AssignEach(rows0, ids[..k], userId, householdId, now, newIds[..k])
      invariant store.Valid()
    {
      AssignStep(rows0, ids, userId, householdId, now, newIds, k);
      var res := store.AssignPunishment(ids[k], userId, householdId, now, newIds[k]);
      given := given + [res.value];
      k := k + 1;
    }
    assert ids[..k] == ids && newIds[..k] == newIds;
  }

  /** One turn of the loop above: the next fresh id is still free and AssignEach takes one more step. */
  lemma AssignStep(rows: seq<Assignment>, ids: seq<Uuid>, userId: Uuid, householdId: Uuid, now: Instant,
                   newIds: seq<Uuid>, k: nat)
    requires FreshIds(rows, newIds) && |newIds| == |ids| && k < |ids|
    ensures FreshIds(rows, newIds[..k]) && FreshIds(rows, newIds[..k + 1])
    ensures var p := AssignEach(rows, ids[..k], userId, householdId, now, newIds[..k]);
      FindId(p.0, newIds[k]).None?
      && var q := Assign(p.0, ids[k], userId, householdId, now, newIds[k]);
      AssignEach(rows, ids[..k + 1], userId, householdId, now, newIds[..k + 1]) == (q.0, p.1 + [q.1])
  {
    assert ids[..k + 1][..k] == ids[..k] && newIds[..k + 1][..k] == newIds[..k];
    assert newIds[k] !in newIds[..k];
  }

  /** Every returned row is the user's row of the linked item in the same place (one per link). */
  lemma GivenRows(rows: seq<Assignment>, links: seq<TaskLink>, names: map<Uuid, string>, taskId: Uuid, userId: Uuid,
                  householdId: Uuid, now: Instant, newIds: seq<Uuid>)
    requires FreshIds(rows, newIds) && |newIds| == |LinkedIds(links, names, taskId)|
    ensures var ids := LinkedIds(links, names, taskId);
      var r := AssignEach(rows, ids, userId, householdId, now, newIds);
      |r.1| == Count(links, JoinsTask(taskId, names.Keys))
      && forall k :: 0 <= k < |ids| ==> OfTriple(r.1[k], userId, ids[k], householdId) && TaskLink(taskId, ids[k]) in links
  {
    var ids := LinkedIds(links, names, taskId);
    AssignEachRows(rows, ids, userId, householdId, now, newIds);
  }
}
