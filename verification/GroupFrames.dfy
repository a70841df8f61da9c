/** When a group command is accepted and what it then writes (`src/service/account_service.rs`, lines 251-362). */
module GroupFrames {
  import opened Wrappers
  import opened Entities
  import opened AccountGroups

  /** A group may sit at the top level, or under another group of its budget that is not below it. */
  ghost predicate MaySit(groups: GroupMap, id: AccountGroupId, budget: BudgetId, parent: Option<AccountGroupId>) {
    parent.None?
    || var p := parent.value;
       p != id && p in groups && groups[p].budgetId == budget && forall k: nat :: Ancestor(groups, p, k) != Some(id)
  }

  /** Why a group may not sit under a parent: the first of the tests that fails. */
  lemma {:induction false} VerdictExactly(groups: GroupMap, id: AccountGroupId, budget: BudgetId, parent: Option<AccountGroupId>)
    ensures var v := Validation(groups, id, budget, parent);
            && (v.None? <==> MaySit(groups, id, budget, parent))
            && (v == Some(GroupSelfParent) <==> parent == Some(id))
            && (v == Some(GroupNotFound) <==> parent.Some? && parent != Some(id) && parent.value !in groups)
            && (v == Some(GroupBudgetsDiffer) <==>
                  parent.Some? && parent != Some(id) && parent.value in groups && groups[parent.value].budgetId != budget)
            && v != Some(AccountNotFound) && v != Some(GroupNotEmpty)
  {
    if parent.Some? && parent.value != id && parent.value in groups && groups[parent.value].budgetId == budget {
      assert OnChain(groups, parent.value, id) <==> exists k: nat :: Ancestor(groups, parent.value, k) == Some(id);
    }
  }

  /** A command that fails leaves everything as it was. */
  lemma FailureChangesNothing(s: State, c: Command)
    requires Apply(s, c).error.Some?
    ensures Apply(s, c).state == s
  {
    hide Validation, HasMembers, MovedChildren, MovedAccounts;
  }

  /** A new group is stored as given. */
  lemma CreateWrites(s: State, group: AccountGroup)
    ensures var r := Apply(s, Create(group));
            && (r.error.None? <==> MaySit(s.groups, group.id, group.budgetId, group.parentGroupId))
            && (r.error.None? ==> r.state == s.(groups := s.groups[group.id := group]))
  {
    VerdictExactly(s.groups, group.id, group.budgetId, group.parentGroupId);
    hide Validation, MaySit;
  }

  /** A moved group changes its parent and its position and nothing else, and no other group or account changes. */
  lemma MoveWrites(s: State, id: AccountGroupId, parent: Option<AccountGroupId>, sortOrder: int)
    ensures var r := Apply(s, Move(id, parent, sortOrder));
            && (r.error.None? <==> id in s.groups && MaySit(s.groups, id, s.groups[id].budgetId, parent))
            && (r.error.None? ==>
                  && id in r.state.groups
                  && var before, after := s.groups[id], r.state.groups[id];
                     && r.state == s.(groups := s.groups[id := after])
                     && after.parentGroupId == parent && after.sortOrder == sortOrder
                     && after.id == before.id && after.budgetId == before.budgetId && after.name == before.name)
  {
    if id in s.groups {
      VerdictExactly(s.groups, id, s.groups[id].budgetId, parent);
    }
    hide Validation, MaySit;
  }

  /** An account put in a group of its budget, or in none, changes its group and its position and nothing else. */
  lemma SetAccountWrites(s: State, account: AccountId, group: Option<AccountGroupId>, sortOrder: int)
    ensures var r := Apply(s, SetAccount(account, group, sortOrder));
            && (r.error.None? <==>
                  && account in s.accounts
                  && (group.Some? ==> group.value in s.groups && s.groups[group.value].budgetId == s.accounts[account].budgetId))
            && (r.error.None? ==>
                  && account in r.state.accounts
                  && var before, after := s.accounts[account], r.state.accounts[account];
                     && r.state == s.(accounts := s.accounts[account := after])
                     && after.groupId == group && after.sortOrder == sortOrder
                     && after.(groupId := before.groupId, sortOrder := before.sortOrder) == before)
  {
  }

  /** The groups and accounts that sit directly in a group. */
  predicate SitsIn(s: State, id: AccountGroupId, g: AccountGroupId) {
    g in s.groups && s.groups[g].parentGroupId == Some(id)
  }

  predicate AccountSitsIn(s: State, id: AccountGroupId, a: AccountId) {
    a in s.accounts && s.accounts[a].groupId == Some(id)
  }

  lemma MembersSit(s: State, id: AccountGroupId)
    ensures HasMembers(s, id) <==> (exists g :: SitsIn(s, id, g)) || (exists a :: AccountSitsIn(s, id, a))
  {
    if exists g :: g in s.groups && s.groups[g].parentGroupId == Some(id) {
      var g :| g in s.groups && s.groups[g].parentGroupId == Some(id);
      assert SitsIn(s, id, g);
    }
    if exists a :: a in s.accounts && s.accounts[a].groupId == Some(id) {
      var a :| a in s.accounts && s.accounts[a].groupId == Some(id);
      assert AccountSitsIn(s, id, a);
    }
  }

  /**
   A deleted group goes alone. Without a destination it must be empty; with one, everything that sat
   directly in it sits in the destination afterwards, unchanged otherwise, and nothing else moves.
   */
  lemma {:induction false} DeleteWrites(s: State, id: AccountGroupId, moveTo: Option<Option<AccountGroupId>>)
    ensures var r := Apply(s, Delete(id, moveTo));
            && (r.error.None? <==>
                  && id in s.groups
                  && (moveTo.None? ==> (forall g :: !SitsIn(s, id, g)) && (forall a :: !AccountSitsIn(s, id, a)))
                  && (moveTo.Some? ==> MaySit(s.groups, id, s.groups[id].budgetId, moveTo.value)))
            && (r.error.None? ==>
                  && r.state.groups.Keys == s.groups.Keys - {id} && r.state.accounts.Keys == s.accounts.Keys
                  && (forall g :: g in r.state.groups ==>
                        && var before, after := s.groups[g], r.state.groups[g];
                           && after.parentGroupId == (if SitsIn(s, id, g) then moveTo.value else before.parentGroupId)
                           && after.(parentGroupId := before.parentGroupId) == before)
                  && (forall a :: a in r.state.accounts ==>
                        && var before, after := s.accounts[a], r.state.accounts[a];
                           && after.groupId == (if AccountSitsIn(s, id, a) then moveTo.value else before.groupId)
                           && after.(groupId := before.groupId) == before))
  {
    if id in s.groups && moveTo.Some? {
      VerdictExactly(s.groups, id, s.groups[id].budgetId, moveTo.value);
    }
    assert HasMembers(s, id) <==> (exists g :: SitsIn(s, id, g)) || (exists a :: AccountSitsIn(s, id, a)) by {
      MembersSit(s, id);
    }
    hide Validation, MaySit, HasMembers;
  }
}
