/** User accounts and the rule that the last active administrator can be neither
    demoted nor deactivated. The table is keyed by id; usernames are unique. */
module Accounts {
  import opened Common

  type Id = string
  type Username = string

  datatype Role = USER | ADMIN | SYSTEM

  datatype User = User(username: Username, role: Role, active: bool)

  type Table = map<Id, User>

  datatype Status = Done | NotFound | Conflict | LastAdmin

  ghost predicate UniqueNames(t: Table) {
    forall a, b {:trigger t[a], t[b]} :: a in t && b in t && t[a].username == t[b].username ==> a == b
  }

  // ---------------------------------------------------------------------- storage

  function IdsNamed(t: Table, name: Username): set<Id> {
    set id | id in t && t[id].username == name
  }

  ghost predicate FoundByName(t: Table, name: Username, found: Option<Id>) {
    match found
    case Some(id) => id in t && t[id].username == name
    case None => forall id :: id in t ==> t[id].username != name
  }

  /** The account an identifier stands for: its id first, then its username. */
  ghost predicate Resolves(t: Table, identifier: string, found: Option<Id>) {
    if identifier in t then found == Some(identifier) else FoundByName(t, identifier, found)
  }

  predicate IsActiveAdmin(u: User) {
    u.role == ADMIN && u.active
  }

  function ActiveAdmins(t: Table): set<Id> {
    set id | id in t && IsActiveAdmin(t[id])
  }

  class UserStorage {
    var users: Table

    constructor (users: Table)
      ensures this.users == users
    {
      this.users := users;
    }

    /** The primary key and the unique index both reject duplicates with one error. */
    method CreateUser(id: Id, user: User) returns (created: bool)
      modifies this
      ensures created <==> id !in old(users) && forall other :: other in old(users) ==> old(users)[other].username != user.username
      ensures users == if created then old(users)[id := user] else old(users)
      ensures old(UniqueNames(users)) ==> UniqueNames(users)
    {
      created := id !in users && IdsNamed(users, user.username) == {};
      if created {
        forall other | other in users
          ensures users[other].username != user.username
        {
          assert other !in IdsNamed(users, user.username);
        }
        users := users[id := user];
      } else if id !in users {
        var other :| other in IdsNamed(users, user.username);
        assert users[other].username == user.username;
      }
    }

    method GetUserByUsername(name: Username) returns (found: Option<Id>)
      ensures FoundByName(users, name, found)
    {
      var ids := IdsNamed(users, name);
      if ids == {} {
        forall id | id in users
          ensures users[id].username != name
        {
          assert id !in ids;
        }
        return None;
      }
      var id :| id in ids;
      return Some(id);
    }

    method GetUserByIdOrUsername(identifier: string) returns (found: Option<Id>)
      ensures Resolves(users, identifier, found)
    {
      if identifier in users {
        return Some(identifier);
      }
      found := GetUserByUsername(identifier);
    }

    /** The counting query, one row at a time. */
    method CountActiveAdmins() returns (count: nat)
      ensures count == |ActiveAdmins(users)|
    {
      count := 0;
      var rest := users.Keys;
      assert ActiveAdmins(users) * rest == ActiveAdmins(users);
      while rest != {}
        invariant rest <= users.Keys
        invariant count + |ActiveAdmins(users) * rest| == |ActiveAdmins(users)|
      {
        var id :| id in rest;
        CountOneLess(ActiveAdmins(users), rest, id);
        rest := rest - {id};
        if IsActiveAdmin(users[id]) {
          count := count + 1;
        }
      }
    }

    /** Resolves the identifier again and updates the row found. */
    method UpdateUserRole(identifier: string, role: Role) returns (updated: Option<Id>)
      modifies this
      ensures Resolves(old(users), identifier, updated)
      ensures users == if updated.Some? then old(users)[updated.value := old(users)[updated.value].(role := role)]
                       else old(users)
    {
      updated := GetUserByIdOrUsername(identifier);
      if updated.Some? {
        users := users[updated.value := users[updated.value].(role := role)];
      }
    }

    method UpdateUserStatus(identifier: string, active: bool) returns (updated: Option<Id>)
      modifies this
      ensures Resolves(old(users), identifier, updated)
      ensures users == if updated.Some? then old(users)[updated.value := old(users)[updated.value].(active := active)]
                       else old(users)
    {
      updated := GetUserByIdOrUsername(identifier);
      if updated.Some? {
        users := users[updated.value := users[updated.value].(active := active)];
      }
    }
  }

  // --------------------------------------------------------------------- requests

  /** What an administrator can ask of the account routes; creation carries the
      generated id. */
  datatype Request =
    | CreateAccount(id: Id, user: User)
    | ChangeRole(identifier: string, role: Role)
    | SetActive(identifier: string, active: bool)

  /** The row a role or status change would write. */
  function Changed(u: User, req: Request): User {
    match req
    case CreateAccount(_, _) => u
    case ChangeRole(_, role) => u.(role := role)
    case SetActive(_, active) => u.(active := active)
  }

  /** The guard of both handlers: an active administrator would stop being one, and at
      most one is counted. */
  predicate Guarded(t: Table, target: Id, u: User)
    requires target in t
  {
    IsActiveAdmin(t[target]) && !IsActiveAdmin(u) && |ActiveAdmins(t)| <= 1
  }

  ghost predicate ChangeOutcome(t: Table, target: Id, u: User, t': Table, status: Status)
    requires target in t
  {
    if Guarded(t, target, u) then t' == t && status == LastAdmin
    else t' == t[target := u] && status == Done
  }

  /** What a request does: it touches the account its identifier stands for and no other. */
  ghost predicate Outcome(t: Table, req: Request, found: Option<Id>, t': Table, status: Status) {
    if req.CreateAccount? then
      var accepted := req.id !in t && forall other :: other in t ==> t[other].username != req.user.username;
      if accepted then t' == t[req.id := req.user] && status == Done else t' == t && status == Conflict
    else
      && Resolves(t, req.identifier, found)
      && match found
         case None => t' == t && status == NotFound
         case Some(target) => ChangeOutcome(t, target, Changed(t[target], req), t', status)
  }

  /** The change would leave the cluster, which has an active administrator, without. */
  ghost predicate TakesLastAdmin(t: Table, target: Id, u: User) {
    ActiveAdmins(t) != {} && ActiveAdmins(t[target := u]) == {}
  }

  /** The guard, a test of one account and a count, decides exactly whether the change
      would take away the last active administrator. */
  lemma GuardIsExact(t: Table, target: Id, u: User)
    requires target in t
    ensures Guarded(t, target, u) <==> TakesLastAdmin(t, target, u)
  {
    var before, after := ActiveAdmins(t), ActiveAdmins(t[target := u]);
    assert after == if IsActiveAdmin(u) then before + {target} else before - {target};
    if target in before {
      assert before == (before - {target}) + {target};
    }
  }

  // The handlers. None of them awaits between its check and its update.

  method CreateUserAccount(storage: UserStorage, id: Id, user: User) returns (status: Status)
    modifies storage
    ensures Outcome(old(storage.users), CreateAccount(id, user), None, storage.users, status)
    ensures old(UniqueNames(storage.users)) ==> UniqueNames(storage.users)
  {
    var existing := storage.GetUserByUsername(user.username);
    if existing.Some? {
      return Conflict;
    }
    var created := storage.CreateUser(id, user);
    status := if created then Done else Conflict;
  }

  method ChangeUserRole(storage: UserStorage, identifier: string, role: Role)
    returns (status: Status, target: Option<Id>)
    modifies storage
    ensures Outcome(old(storage.users), ChangeRole(identifier, role), target, storage.users, status)
  {
    target := storage.GetUserByIdOrUsername(identifier);
    if target.None? {
      return NotFound, target;
    }
    var user := storage.users[target.value];
    if user.role == ADMIN && user.active && role != ADMIN {
      var admins := storage.CountActiveAdmins();
      if admins <= 1 {
        return LastAdmin, target;
      }
    }
    var updated := storage.UpdateUserRole(target.value, role);
    status := Done;
  }

  method SetUserActiveStatus(storage: UserStorage, identifier: string, active: bool)
    returns (status: Status, target: Option<Id>)
    modifies storage
    ensures Outcome(old(storage.users), SetActive(identifier, active), target, storage.users, status)
  {
    target := storage.GetUserByIdOrUsername(identifier);
    if target.None? {
      return NotFound, target;
    }
    var user := storage.users[target.value];
    if user.role == ADMIN && user.active && !active {
      var admins := storage.CountActiveAdmins();
      if admins <= 1 {
        return LastAdmin, target;
      }
    }
    var updated := storage.UpdateUserStatus(target.value, active);
    status := Done;
  }

  // ------------------------------------------------------------------------- runs

  /** One handled request. */
  datatype Handled = Handled(request: Request, found: Option<Id>, status: Status)

  ghost predicate IsRun(tables: seq<Table>, log: seq<Handled>) {
    && |tables| == |log| + 1
    && UniqueNames(tables[0])
    && forall i {:trigger log[i]} :: 0 <= i < |log| ==>
         Outcome(tables[i], log[i].request, log[i].found, tables[i + 1], log[i].status)
  }

  /** A change is refused exactly if it would take away the last active administrator. */
  lemma RefusedExactly(t: Table, req: Request, found: Option<Id>, t': Table, status: Status)
    requires Outcome(t, req, found, t', status) && !req.CreateAccount?
    ensures status == LastAdmin <==>
            found.Some? && TakesLastAdmin(t, found.value, Changed(t[found.value], req))
  {
    if found.Some? {
      GuardIsExact(t, found.value, Changed(t[found.value], req));
    }
  }

  lemma StepKeeps(t: Table, req: Request, found: Option<Id>, t': Table, status: Status)
    requires Outcome(t, req, found, t', status)
    ensures UniqueNames(t) ==> UniqueNames(t')
    ensures ActiveAdmins(t) != {} ==> ActiveAdmins(t') != {}
    ensures t.Keys <= t'.Keys
  {
    if req.CreateAccount? {
      if status == Done && ActiveAdmins(t) != {} {
        var admin :| admin in ActiveAdmins(t);
        assert admin in ActiveAdmins(t');
      }
    } else if found.Some? {
      GuardIsExact(t, found.value, Changed(t[found.value], req));
    }
  }

  /** The last administrator survives every sequence of account creations, role changes
      and status changes; accounts never disappear and usernames stay unique. */
  lemma {:induction false} LastAdminSurvives(tables: seq<Table>, log: seq<Handled>, i: nat)
    requires IsRun(tables, log) && i <= |log| && ActiveAdmins(tables[0]) != {}
    ensures exists id :: id in tables[i] && tables[i][id].role == ADMIN && tables[i][id].active
    ensures ActiveAdmins(tables[i]) != {} && UniqueNames(tables[i]) && tables[0].Keys <= tables[i].Keys
  {
    if i > 0 {
      LastAdminSurvives(tables, log, i - 1);
      var h := log[i - 1];
      StepKeeps(tables[i - 1], h.request, h.found, tables[i], h.status);
    }
    var admin :| admin in ActiveAdmins(tables[i]);
  }

  // ------------------------------------------------------------- what requests leave

  /** A request that is done leaves exactly what it asked for: the account it stands for
      has the role or status asked for and is otherwise as it was, a created account is
      the one given, and every other row is untouched. */
  lemma DoneLeaves(t: Table, req: Request, found: Option<Id>, t': Table, status: Status)
    requires Outcome(t, req, found, t', status)
    ensures status != Done ==> t' == t
    ensures status == Done ==>
              match req
              case CreateAccount(id, user) => id !in t && t' == t[id := user]
              case ChangeRole(identifier, role) =>
                && found.Some? && Resolves(t, identifier, found)
                && t' == t[found.value := User(t[found.value].username, role, t[found.value].active)]
              case SetActive(identifier, active) =>
                && found.Some? && Resolves(t, identifier, found)
                && t' == t[found.value := User(t[found.value].username, t[found.value].role, active)]
  {
  }

  /** The request was done, and created the account or gave it a role. */
  predicate GaveRole(h: Handled, id: Id) {
    h.status == Done
    && ((h.request.CreateAccount? && h.request.id == id) || (h.request.ChangeRole? && h.found == Some(id)))
  }

  predicate GaveStatus(h: Handled, id: Id) {
    h.status == Done
    && ((h.request.CreateAccount? && h.request.id == id) || (h.request.SetActive? && h.found == Some(id)))
  }

  /** On every run, an account's role is the one given by the latest done request that
      gave it one, or the one it had at the start. */
  lemma {:induction false} RoleIsLatest(tables: seq<Table>, log: seq<Handled>, i: nat, id: Id) returns (j: int)
    requires IsRun(tables, log) && i <= |log| && id in tables[i]
    ensures -1 <= j < i && forall k :: j < k < i ==> !GaveRole(log[k], id)
    ensures j >= 0 ==>
              && GaveRole(log[j], id)
              && var req := log[j].request;
                 tables[i][id].role == if req.CreateAccount? then req.user.role else req.role
    ensures j == -1 ==> id in tables[0] && tables[i][id].role == tables[0][id].role
  {
    j := i - 1;
    if i > 0 {
      var h := log[i - 1];
      DoneLeaves(tables[i - 1], h.request, h.found, tables[i], h.status);
      if !GaveRole(h, id) {
        j := RoleIsLatest(tables, log, i - 1, id);
      }
    }
  }

  /** The same for its status. */
  lemma {:induction false} StatusIsLatest(tables: seq<Table>, log: seq<Handled>, i: nat, id: Id) returns (j: int)
    requires IsRun(tables, log) && i <= |log| && id in tables[i]
    ensures -1 <= j < i && forall k :: j < k < i ==> !GaveStatus(log[k], id)
    ensures j >= 0 ==>
              && GaveStatus(log[j], id)
              && var req := log[j].request;
                 tables[i][id].active == if req.CreateAccount? then req.user.active else req.active
    ensures j == -1 ==> id in tables[0] && tables[i][id].active == tables[0][id].active
  {
    j := i - 1;
    if i > 0 {
      var h := log[i - 1];
      DoneLeaves(tables[i - 1], h.request, h.found, tables[i], h.status);
      if !GaveStatus(h, id) {
        j := StatusIsLatest(tables, log, i - 1, id);
      }
    }
  }

  /** With unique usernames an identifier stands for one account, even when it is one
      user's id and another's username: the id wins, so a refused or performed change is
      always about the account whose id it is. */
  lemma IdentifierIsUnambiguous(t: Table, identifier: string, a: Option<Id>, b: Option<Id>)
    requires UniqueNames(t) && Resolves(t, identifier, a) && Resolves(t, identifier, b)
    ensures a == b
    ensures identifier in t ==> a == Some(identifier)
    ensures a.Some? ==> a.value in t && Resolves(t, a.value, a)
  {
    if identifier !in t && a.Some? && b.Some? {
      assert t[a.value].username == t[b.value].username;
    }
  }
}
