/** The tree of account groups (`src/service/account_service.rs`, lines 251-361 and 406-431). */
module AccountGroups {
  import opened Wrappers
  import opened Entities
  import opened Ledgers

  type GroupMap = map<AccountGroupId, AccountGroup>

  datatype State = State(groups: GroupMap, accounts: map<AccountId, Account>)

  datatype GroupError = AccountNotFound | GroupNotFound | GroupSelfParent | GroupCycle | GroupNotEmpty | GroupBudgetsDiffer

  datatype Outcome = Outcome(state: State, error: Option<GroupError>)

  // ----- Chains of parents --------------------------------------------------------------------

  /** The `k`-th group up from `g`, following parent links as they are. */
  function Ancestor(groups: GroupMap, g: AccountGroupId, k: nat): Option<AccountGroupId> {
    if k == 0 then Some(g)
    else
      var below := Ancestor(groups, g, k - 1);
      if below.Some? && below.value in groups then groups[below.value].parentGroupId else None
  }

  /** `id` is `g` or one of the groups above it. */
  ghost predicate OnChain(groups: GroupMap, g: AccountGroupId, id: AccountGroupId) {
    exists k: nat :: Ancestor(groups, g, k) == Some(id)
  }

  /** A rank that falls along every parent link, each of which stays within the budget. */
  ghost predicate Ranked(groups: GroupMap, rank: map<AccountGroupId, nat>) {
    && rank.Keys == groups.Keys
    && forall g :: g in groups ==>
         && groups[g].id == g
         && (groups[g].parentGroupId.Some? ==>
               var p := groups[g].parentGroupId.value;
               p in groups && rank[p] < rank[g] && groups[p].budgetId == groups[g].budgetId)
  }

  /** Accounts sit in groups that exist and belong to their budget. */
  ghost predicate Housed(s: State) {
    forall a :: a in s.accounts && s.accounts[a].groupId.Some? ==>
      var g := s.accounts[a].groupId.value;
      g in s.groups && s.groups[g].budgetId == s.accounts[a].budgetId
  }

  ghost predicate Forest(s: State) {
    Housed(s) && exists rank :: Ranked(s.groups, rank)
  }

  /** Following parents from a ranked group only ever leads down the ranks, within one budget. */
  lemma {:induction false} ChainFalls(groups: GroupMap, rank: map<AccountGroupId, nat>, g: AccountGroupId, k: nat)
    requires Ranked(groups, rank) && g in groups && Ancestor(groups, g, k).Some?
    ensures var a := Ancestor(groups, g, k).value;
            a in groups && rank[a] + k <= rank[g] && groups[a].budgetId == groups[g].budgetId
  {
    if k > 0 {
      ChainFalls(groups, rank, g, k - 1);
    }
  }

  /** In a forest no group is its own ancestor, every chain of parents ends, and all of it is one budget. */
  lemma ForestHasNoCycle(s: State, g: AccountGroupId, k: nat)
    requires Forest(s) && g in s.groups && k > 0
    ensures Ancestor(s.groups, g, k) != Some(g)
    ensures exists depth: nat :: Ancestor(s.groups, g, depth) == None
    ensures Ancestor(s.groups, g, k).Some? ==>
              Ancestor(s.groups, g, k).value in s.groups
              && s.groups[Ancestor(s.groups, g, k).value].budgetId == s.groups[g].budgetId
  {
    var rank :| Ranked(s.groups, rank);
    if Ancestor(s.groups, g, k).Some? {
      ChainFalls(s.groups, rank, g, k);
    }
    if Ancestor(s.groups, g, rank[g] + 1).Some? {
      ChainFalls(s.groups, rank, g, rank[g] + 1);
    }
  }

  lemma {:induction false} AncestorOfParent(groups: GroupMap, g: AccountGroupId, p: AccountGroupId, k: nat)
    requires g in groups && groups[g].parentGroupId == Some(p)
    ensures Ancestor(groups, g, k + 1) == Ancestor(groups, p, k)
  {
    if k == 0 {
      assert Ancestor(groups, g, 1) == groups[g].parentGroupId;
    } else {
      AncestorOfParent(groups, g, p, k - 1);
    }
  }

  lemma {:induction false} NothingAboveRoot(groups: GroupMap, g: AccountGroupId, k: nat)
    requires g in groups ==> groups[g].parentGroupId == None
    ensures Ancestor(groups, g, k + 1) == None
  {
    if k > 0 {
      NothingAboveRoot(groups, g, k - 1);
    }
  }

  /** Being on the chain, one link at a time. */
  lemma ChainStep(groups: GroupMap, g: AccountGroupId, id: AccountGroupId)
    requires g in groups
    ensures OnChain(groups, g, id) <==>
            g == id || (groups[g].parentGroupId.Some? && OnChain(groups, groups[g].parentGroupId.value, id))
  {
    if OnChain(groups, g, id) && g != id {
      var k: nat :| Ancestor(groups, g, k) == Some(id);
      assert k > 0;
      if groups[g].parentGroupId.Some? {
        AncestorOfParent(groups, g, groups[g].parentGroupId.value, k - 1);
      } else {
        NothingAboveRoot(groups, g, k - 1);
      }
    }
    if g == id {
      assert Ancestor(groups, g, 0) == Some(id);
    }
    if groups[g].parentGroupId.Some? && OnChain(groups, groups[g].parentGroupId.value, id) {
      var p := groups[g].parentGroupId.value;
      var k: nat :| Ancestor(groups, p, k) == Some(id);
      AncestorOfParent(groups, g, p, k);
    }
  }

  // ----- The commands -------------------------------------------------------------------------

  /** Whether a group may be put under a parent, and why not. */
  ghost function Validation(groups: GroupMap, id: AccountGroupId, budget: BudgetId, parent: Option<AccountGroupId>)
    : Option<GroupError>
  {
    match parent
    case None => None
    case Some(p) =>
      if p == id then Some(GroupSelfParent)
      else if p !in groups then Some(GroupNotFound)
      else if groups[p].budgetId != budget then Some(GroupBudgetsDiffer)
      else if OnChain(groups, p, id) then Some(GroupCycle)
      else None
  }

  function MovedChildren(groups: GroupMap, id: AccountGroupId, parent: Option<AccountGroupId>): GroupMap {
    map g | g in groups ::
      if groups[g].parentGroupId == Some(id) then groups[g].(parentGroupId := parent) else groups[g]
  }

  function MovedAccounts(accounts: map<AccountId, Account>, id: AccountGroupId, parent: Option<AccountGroupId>)
    : map<AccountId, Account>
  {
    map a | a in accounts :: if accounts[a].groupId == Some(id) then accounts[a].(groupId := parent) else accounts[a]
  }

  predicate HasMembers(s: State, id: AccountGroupId) {
    || (exists g :: g in s.groups && s.groups[g].parentGroupId == Some(id))
    || (exists a :: a in s.accounts && s.accounts[a].groupId == Some(id))
  }

  ghost function CreateGroup(s: State, group: AccountGroup): Outcome {
    var invalid := Validation(s.groups, group.id, group.budgetId, group.parentGroupId);
    if invalid.Some? then Outcome(s, invalid) else Outcome(s.(groups := s.groups[group.id := group]), None)
  }

  ghost function MoveGroup(s: State, id: AccountGroupId, parent: Option<AccountGroupId>, sortOrder: int): Outcome {
    if id !in s.groups then Outcome(s, Some(GroupNotFound))
    else
      var invalid := Validation(s.groups, id, s.groups[id].budgetId, parent);
      if invalid.Some? then Outcome(s, invalid)
      else
        var moved := s.groups[id].(parentGroupId := parent, sortOrder := sortOrder);
        Outcome(s.(groups := s.groups[id := moved]), None)
  }

  ghost function SetAccountGroup(s: State, account: AccountId, group: Option<AccountGroupId>, sortOrder: int): Outcome {
    if account !in s.accounts then Outcome(s, Some(AccountNotFound))
    else if group.Some? && group.value !in s.groups then Outcome(s, Some(GroupNotFound))
    else if group.Some? && s.groups[group.value].budgetId != s.accounts[account].budgetId then Outcome(s, Some(GroupBudgetsDiffer))
    else
      var moved := s.accounts[account].(groupId := group, sortOrder := sortOrder);
      Outcome(s.(accounts := s.accounts[account := moved]), None)
  }

  /** `moveTo` is where the members go: nowhere said, to the top level, or to a group. */
  ghost function DeleteGroup(s: State, id: AccountGroupId, moveTo: Option<Option<AccountGroupId>>): Outcome {
    if id !in s.groups then Outcome(s, Some(GroupNotFound))
    else if moveTo.None? then
      if HasMembers(s, id) then Outcome(s, Some(GroupNotEmpty)) else Outcome(s.(groups := s.groups - {id}), None)
    else
      var invalid := Validation(s.groups, id, s.groups[id].budgetId, moveTo.value);
      if invalid.Some? then Outcome(s, invalid)
      else
        Outcome(State(MovedChildren(s.groups, id, moveTo.value) - {id}, MovedAccounts(s.accounts, id, moveTo.value)), None)
  }

  // ----- The forest is kept -------------------------------------------------------------------

  /** Lifts the subtree of `id` above the rank of a group outside it. */
  ghost function Lifted(groups: GroupMap, rank: map<AccountGroupId, nat>, id: AccountGroupId, lift: nat)
    : (r: map<AccountGroupId, nat>)
    requires Ranked(groups, rank)
    ensures r.Keys == groups.Keys
    ensures forall g :: g in groups ==> r[g] == rank[g] + if OnChain(groups, g, id) then lift else 0
  {
    map g | g in groups :: rank[g] + if OnChain(groups, g, id) then lift else 0
  }

  lemma LiftedKeepsOrder(groups: GroupMap, rank: map<AccountGroupId, nat>, id: AccountGroupId, lift: nat, g: AccountGroupId)
    requires Ranked(groups, rank) && g in groups && g != id && groups[g].parentGroupId.Some?
    ensures Lifted(groups, rank, id, lift)[groups[g].parentGroupId.value] < Lifted(groups, rank, id, lift)[g]
  {
    ChainStep(groups, g, id);
  }

  lemma CreateKeepsForest(s: State, group: AccountGroup)
    requires Forest(s) && group.id !in s.groups
    ensures Forest(CreateGroup(s, group).state)
  {
    if CreateGroup(s, group).error.None? {
      var rank :| Ranked(s.groups, rank);
      var above := if group.parentGroupId.Some? then rank[group.parentGroupId.value] + 1 else 0;
      assert Ranked(s.groups[group.id := group], rank[group.id := above]);
    }
  }

  /** Under a group outside its subtree, the subtree ranks above that group and everything else stays. */
  lemma MovedRanked(groups: GroupMap, rank: map<AccountGroupId, nat>, id: AccountGroupId, p: AccountGroupId, moved: AccountGroup)
    requires Ranked(groups, rank) && id in groups && p in groups && !OnChain(groups, p, id)
    requires moved.id == id && moved.parentGroupId == Some(p)
    requires moved.budgetId == groups[id].budgetId == groups[p].budgetId
    ensures Ranked(groups[id := moved], Lifted(groups, rank, id, rank[p] + 1))
  {
    assert Ancestor(groups, id, 0) == Some(id);
    assert OnChain(groups, id, id);
    hide OnChain;
    var lifted := Lifted(groups, rank, id, rank[p] + 1);
    forall g | g in groups && g != id && groups[g].parentGroupId.Some?
      ensures lifted[groups[g].parentGroupId.value] < lifted[g]
    {
      LiftedKeepsOrder(groups, rank, id, rank[p] + 1, g);
    }
  }

  lemma MoveKeepsForest(s: State, id: AccountGroupId, parent: Option<AccountGroupId>, sortOrder: int)
    requires Forest(s)
    ensures Forest(MoveGroup(s, id, parent, sortOrder).state)
  {
    hide OnChain;
    var after := MoveGroup(s, id, parent, sortOrder);
    if after.error.None? {
      var rank :| Ranked(s.groups, rank);
      if parent.None? {
        assert Ranked(after.state.groups, rank);
      } else {
        MovedRanked(s.groups, rank, id, parent.value, after.state.groups[id]);
      }
      assert Housed(after.state);
    }
  }

  lemma SetAccountKeepsForest(s: State, account: AccountId, group: Option<AccountGroupId>, sortOrder: int)
    requires Forest(s)
    ensures Forest(SetAccountGroup(s, account, group, sortOrder).state)
  {
  }

  /** Children moved under a group outside the subtree still rank above their parent. */
  lemma MovedChildrenRanked(groups: GroupMap, rank: map<AccountGroupId, nat>, id: AccountGroupId, p: AccountGroupId)
    requires Ranked(groups, rank) && id in groups
    requires Validation(groups, id, groups[id].budgetId, Some(p)).None?
    ensures Ranked(MovedChildren(groups, id, Some(p)) - {id}, Lifted(groups, rank, id, rank[p] + 1) - {id})
  {
    hide OnChain;
    var lift := rank[p] + 1;
    var lifted := Lifted(groups, rank, id, lift);
    var after := MovedChildren(groups, id, Some(p)) - {id};
    forall g | g in after
      ensures after[g].id == g
      ensures after[g].parentGroupId.Some? ==>
                var q := after[g].parentGroupId.value;
                q in after && lifted[q] < lifted[g] && after[q].budgetId == after[g].budgetId
    {
      if groups[g].parentGroupId == Some(id) {
        ChainStep(groups, g, id);
        ChainStep(groups, id, id);
      } else if groups[g].parentGroupId.Some? {
        LiftedKeepsOrder(groups, rank, id, lift, g);
      }
    }
  }

  lemma MovedAccountsHoused(s: State, id: AccountGroupId, parent: Option<AccountGroupId>)
    requires Housed(s) && id in s.groups && Validation(s.groups, id, s.groups[id].budgetId, parent).None?
    ensures Housed(State(MovedChildren(s.groups, id, parent) - {id}, MovedAccounts(s.accounts, id, parent)))
  {
    hide OnChain;
  }

  lemma DeleteKeepsForest(s: State, id: AccountGroupId, moveTo: Option<Option<AccountGroupId>>)
    requires Forest(s)
    ensures Forest(DeleteGroup(s, id, moveTo).state)
    ensures DeleteGroup(s, id, moveTo).error.None? ==> id !in DeleteGroup(s, id, moveTo).state.groups
  {
    hide OnChain, MovedAccounts;
    var after := DeleteGroup(s, id, moveTo);
    if after.error.None? {
      var rank :| Ranked(s.groups, rank);
      if moveTo.None? {
        assert Ranked(after.state.groups, rank - {id});
        assert Housed(after.state);
      } else {
        MovedAccountsHoused(s, id, moveTo.value);
        if moveTo.value.None? {
          assert Ranked(after.state.groups, rank - {id});
        } else {
          MovedChildrenRanked(s.groups, rank, id, moveTo.value.value);
        }
      }
    }
  }

  datatype Command =
    | Create(group: AccountGroup)
    | Move(id: AccountGroupId, parent: Option<AccountGroupId>, sortOrder: int)
    | SetAccount(account: AccountId, newGroup: Option<AccountGroupId>, sortOrder: int)
    | Delete(id: AccountGroupId, moveTo: Option<Option<AccountGroupId>>)

  ghost function Apply(s: State, c: Command): Outcome {
    match c
    case Create(group) => CreateGroup(s, group)
    case Move(id, parent, sortOrder) => MoveGroup(s, id, parent, sortOrder)
    case SetAccount(account, group, sortOrder) => SetAccountGroup(s, account, group, sortOrder)
    case Delete(id, moveTo) => DeleteGroup(s, id, moveTo)
  }

  ghost predicate FreshGroups(s: State, commands: seq<Command>)
    decreases |commands|
  {
    commands == [] ||
    ((commands[0].Create? ==> commands[0].group.id !in s.groups)
     && FreshGroups(Apply(s, commands[0]).state, commands[1..]))
  }

  ghost function Run(s: State, commands: seq<Command>): State
    decreases |commands|
  {
    if commands == [] then s else Run(Apply(s, commands[0]).state, commands[1..])
  }

  /** Every run of group commands keeps the forest: no cycle, nothing dangling, one budget per tree. */
  lemma {:induction false} RunKeepsForest(s: State, commands: seq<Command>)
    requires Forest(s) && FreshGroups(s, commands)
    ensures Forest(Run(s, commands))
    decreases |commands|
  {
    hide Forest, CreateGroup, MoveGroup, SetAccountGroup, DeleteGroup;
    if commands != [] {
      match commands[0] {
        case Create(group) => CreateKeepsForest(s, group);
        case Move(id, parent, sortOrder) => MoveKeepsForest(s, id, parent, sortOrder);
        case SetAccount(account, group, sortOrder) => SetAccountKeepsForest(s, account, group, sortOrder);
        case Delete(id, moveTo) => DeleteKeepsForest(s, id, moveTo);
      }
      RunKeepsForest(Apply(s, commands[0]).state, commands[1..]);
    }
  }

  /** A group under the given parent, or at the top level, of a budget. */
  predicate Sibling(groups: GroupMap, g: AccountGroupId, budget: BudgetId, parent: Option<AccountGroupId>) {
    g in groups && groups[g].budgetId == budget && groups[g].parentGroupId == parent
  }

  lemma {:induction false} EndedStaysEnded(groups: GroupMap, g: AccountGroupId, k: nat, j: nat)
    requires Ancestor(groups, g, k) == None && k <= j
    ensures Ancestor(groups, g, j) == None
  {
    if k < j {
      EndedStaysEnded(groups, g, k, j - 1);
    }
  }

  /** A chain that ended without meeting `id` never meets it. */
  lemma ChainEnded(groups: GroupMap, g: AccountGroupId, id: AccountGroupId, k: nat)
    requires Ancestor(groups, g, k) == None
    requires forall j: nat :: j < k ==> Ancestor(groups, g, j) != Some(id)
    ensures !OnChain(groups, g, id)
  {
    if OnChain(groups, g, id) {
      var j: nat :| Ancestor(groups, g, j) == Some(id);
      if k <= j {
        EndedStaysEnded(groups, g, k, j);
      }
    }
  }

  // ----- The service --------------------------------------------------------------------------

  ghost function View(ledger: Ledger): State
    reads ledger
  {
    State(ledger.accountGroups, ledger.accounts)
  }

  function ErrorOf<T>(r: Result<T, GroupError>): Option<GroupError> {
    if r.Ok? then None else Some(r.error)
  }

  class AccountGroupService {
    const ledger: Ledger

    constructor (ledger: Ledger)
      ensures this.ledger == ledger
    {
      this.ledger := ledger;
    }

    /** The walk up the parents; it ends because the forest ranks every group above its parent. */
    method ValidateGroupParent(id: AccountGroupId, budget: BudgetId, parent: Option<AccountGroupId>)
      returns (r: Result<(), GroupError>)
      requires Forest(View(ledger))
      ensures ErrorOf(r) == Validation(ledger.accountGroups, id, budget, parent)
    {
      if parent == Some(id) {
        return Err(GroupSelfParent);
      }
      var groups := ledger.accountGroups;
      ghost var rank :| Ranked(groups, rank);
      var cursor := parent;
      ghost var k := 0;
      while cursor.Some?
        invariant parent.Some? ==> cursor == Ancestor(groups, parent.value, k)
        invariant parent.None? ==> cursor.None?
        invariant k > 0 ==> parent.Some? && parent.value in groups && groups[parent.value].budgetId == budget
        invariant parent.Some? ==> forall j: nat :: j < k ==> Ancestor(groups, parent.value, j) != Some(id)
        decreases if cursor.None? then 0 else if cursor.value in rank then rank[cursor.value] + 2 else 1
      {
        var parentId := cursor.value;
        if parentId == id {
          assert OnChain(groups, parent.value, id);
          return Err(GroupCycle);
        }
        if k > 0 {
          ChainFalls(groups, rank, parent.value, k);
        }
        if parentId !in groups {
          return Err(GroupNotFound);
        }
        if groups[parentId].budgetId != budget {
          return Err(GroupBudgetsDiffer);
        }
        cursor := groups[parentId].parentGroupId;
        k := k + 1;
      }
      if parent.Some? {
        ChainEnded(groups, parent.value, id, k);
      }
      return Ok(());
    }

    /** One past the greatest position among the siblings, or the first position. */
    method NextSortOrder(budget: BudgetId, parent: Option<AccountGroupId>) returns (next: int)
      ensures forall g :: Sibling(ledger.accountGroups, g, budget, parent) ==> ledger.accountGroups[g].sortOrder < next
      ensures if exists g :: Sibling(ledger.accountGroups, g, budget, parent) then
                exists g :: Sibling(ledger.accountGroups, g, budget, parent) && ledger.accountGroups[g].sortOrder == next - 1
              else next == 0
    {
      var groups := ledger.accountGroups;
      var last: Option<int> := None;
      var remaining := groups.Keys;
      while remaining != {}
        invariant remaining <= groups.Keys
        invariant forall g :: Sibling(groups, g, budget, parent) && g !in remaining ==>
                    last.Some? && groups[g].sortOrder <= last.value
        invariant last.Some? ==> exists g :: Sibling(groups, g, budget, parent) && groups[g].sortOrder == last.value
        decreases |remaining|
      {
        var g :| g in remaining;
        if Sibling(groups, g, budget, parent) {
          if last.None? || last.value < groups[g].sortOrder {
            last := Some(groups[g].sortOrder);
          }
        }
        remaining := remaining - {g};
      }
      next := (if last.None? then -1 else last.value) + 1;
    }

    /** A new group goes after its siblings; its identifier is drawn fresh. */
    method CreateAccountGroup(id: AccountGroupId, budget: BudgetId, name: string, parent: Option<AccountGroupId>)
      returns (r: Result<AccountGroup, GroupError>)
      requires Forest(View(ledger))
      modifies ledger`accountGroups
      ensures r.Ok? ==>
                && r.value.id == id && r.value.budgetId == budget && r.value.parentGroupId == parent && r.value.name == name
                && Outcome(View(ledger), None) == Apply(old(View(ledger)), Create(r.value))
                && forall g :: Sibling(old(ledger.accountGroups), g, budget, parent) ==>
                     old(ledger.accountGroups)[g].sortOrder < r.value.sortOrder
      ensures r.Err? ==> View(ledger) == old(View(ledger)) && Validation(ledger.accountGroups, id, budget, parent) == Some(r.error)
      ensures id !in old(ledger.accountGroups) ==> Forest(View(ledger))
    {
      hide Forest;
      ghost var before := View(ledger);
      var valid := ValidateGroupParent(id, budget, parent);
      if valid.Err? {
        return Err(valid.error);
      }
      var sortOrder := NextSortOrder(budget, parent);
      var group := AccountGroup(id, budget, parent, name, sortOrder);
      if id !in ledger.accountGroups {
        CreateKeepsForest(before, group);
      }
      ledger.accountGroups := ledger.accountGroups[id := group];
      return Ok(group);
    }

    method MoveAccountGroup(id: AccountGroupId, parent: Option<AccountGroupId>, sortOrder: int)
      returns (r: Result<(), GroupError>)
      requires Forest(View(ledger))
      modifies ledger`accountGroups
      ensures Outcome(View(ledger), ErrorOf(r)) == Apply(old(View(ledger)), Move(id, parent, sortOrder))
      ensures Forest(View(ledger))
    {
      hide Forest;
      MoveKeepsForest(View(ledger), id, parent, sortOrder);
      if id !in ledger.accountGroups {
        return Err(GroupNotFound);
      }
      var group := ledger.accountGroups[id];
      var _ :- ValidateGroupParent(id, group.budgetId, parent);
      ledger.accountGroups := ledger.accountGroups[id := group.(parentGroupId := parent, sortOrder := sortOrder)];
      return Ok(());
    }

    method AssignAccount(account: AccountId, group: Option<AccountGroupId>, sortOrder: int)
      returns (r: Result<(), GroupError>)
      modifies ledger`accounts
      ensures Outcome(View(ledger), ErrorOf(r)) == Apply(old(View(ledger)), SetAccount(account, group, sortOrder))
      ensures old(Forest(View(ledger))) ==> Forest(View(ledger))
    {
      hide Forest;
      if Forest(View(ledger)) {
        SetAccountKeepsForest(View(ledger), account, group, sortOrder);
      }
      if account !in ledger.accounts {
        return Err(AccountNotFound);
      }
      if group.Some? {
        if group.value !in ledger.accountGroups {
          return Err(GroupNotFound);
        }
        if ledger.accountGroups[group.value].budgetId != ledger.accounts[account].budgetId {
          return Err(GroupBudgetsDiffer);
        }
      }
      ledger.accounts := ledger.accounts[account := ledger.accounts[account].(groupId := group, sortOrder := sortOrder)];
      return Ok(());
    }

    method DeleteAccountGroup(id: AccountGroupId, moveTo: Option<Option<AccountGroupId>>)
      returns (r: Result<(), GroupError>)
      requires Forest(View(ledger))
      modifies ledger`accountGroups, ledger`accounts
      ensures Outcome(View(ledger), ErrorOf(r)) == Apply(old(View(ledger)), Delete(id, moveTo))
      ensures Forest(View(ledger))
    {
      hide Forest;
      DeleteKeepsForest(View(ledger), id, moveTo);
      if id !in ledger.accountGroups {
        return Err(GroupNotFound);
      }
      var group := ledger.accountGroups[id];
      if moveTo.None? && HasMembers(State(ledger.accountGroups, ledger.accounts), id) {
        return Err(GroupNotEmpty);
      }
      if moveTo.Some? {
        var _ :- ValidateGroupParent(id, group.budgetId, moveTo.value);
        ledger.accountGroups := MovedChildren(ledger.accountGroups, id, moveTo.value);
        ledger.accounts := MovedAccounts(ledger.accounts, id, moveTo.value);
      }
      ledger.accountGroups := ledger.accountGroups - {id};
      return Ok(());
    }
  }
}
