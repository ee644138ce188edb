/** The server's HTTP routes over an in-memory database: registration and login with a
    session, the group routes and the expense routes, each guarded by the session. */
module Api {
  import opened Seqs
  import opened LedgerTypes

  datatype DbUser = DbUser(id: string, username: string, password: string, name: string, email: string)

  /** A stored group; `members` holds user ids, which `populate('members')` resolves. */
  datatype DbGroup = DbGroup(
    id: string,
    name: string,
    gtype: GroupType,
    currency: string,
    createdBy: string,
    members: seq<string>)

  /** A group as the routes send it, with its members resolved to user records. */
  datatype PopulatedGroup = PopulatedGroup(group: DbGroup, members: seq<DbUser>)

  datatype Body =
    | NoBody
    | Msg(text: string)
    | OneUser(user: DbUser)
    | OneGroup(group: PopulatedGroup)
    | Groups(groups: seq<PopulatedGroup>)
    | OneExpense(expense: Expense)
    | Expenses(expenses: seq<Expense>)

  datatype Reply = Reply(status: int, body: Body)

  const Unauthorized: Reply := Reply(401, NoBody)

  /** `POST /api/groups`'s body: `type` and `members` may be missing, and `type` is
      whatever string the client sent. */
  datatype GroupRequest = GroupRequest(name: string, gtype: Option<string>, members: Option<seq<string>>)

  /** `POST /api/expenses`'s body. Any field may be missing; a `paidBy` in the body is
      accepted and ignored, and `splitType` is whatever string the client sent. */
  datatype ExpenseRequest = ExpenseRequest(
    groupId: string,
    title: string,
    amount: Option<real>,
    paidBy: Option<string>,
    splitType: Option<string>,
    category: Option<string>,
    date: Option<int>,
    participants: seq<string>)

  // ---- The schemas' enumerations ----

  /** The strings the group schema's `type` enum admits. */
  function GroupTypeName(t: GroupType): string {
    match t
    case Trip => "Trip"
    case Home => "Home"
    case Couple => "Couple"
    case OtherType => "Other"
  }

  /** The enum check on a group's `type`: the type a string names, if any. */
  function ParseGroupType(s: string): (r: Option<GroupType>)
    ensures r.Some? ==> GroupTypeName(r.value) == s
    ensures forall t :: s == GroupTypeName(t) ==> r == Some(t)
  {
    if s == "Trip" then Some(Trip)
    else if s == "Home" then Some(Home)
    else if s == "Couple" then Some(Couple)
    else if s == "Other" then Some(OtherType)
    else None
  }

  /** The strings the expense schema's `splitType` enum admits. */
  function SplitTypeName(t: SplitType): string {
    match t
    case Equal => "EQUAL"
    case Percentage => "PERCENTAGE"
    case Exact => "EXACT"
  }

  /** The enum check on an expense's `splitType`. */
  function ParseSplitType(s: string): (r: Option<SplitType>)
    ensures r.Some? ==> SplitTypeName(r.value) == s
    ensures forall t :: s == SplitTypeName(t) ==> r == Some(t)
  {
    if s == "EQUAL" then Some(Equal)
    else if s == "PERCENTAGE" then Some(Percentage)
    else if s == "EXACT" then Some(Exact)
    else None
  }

  /** A schema field with an enum and a default: a missing value takes the default, a
      present one must be admitted by `parse`. */
  function EnumField<T>(given: Option<string>, parse: string -> Option<T>, default: T): Option<T> {
    match given
    case None => Some(default)
    case Some(s) => parse(s)
  }

  // ---- Lookups ----

  function HasUsername(username: string): DbUser -> bool {
    (u: DbUser) => u.username == username
  }

  function HasUserId(id: string): DbUser -> bool {
    (u: DbUser) => u.id == id
  }

  function HasDbGroupId(id: string): DbGroup -> bool {
    (g: DbGroup) => g.id == id
  }

  /** `User.findOne({ username })`: the first user with that name. */
  function FindByUsername(users: seq<DbUser>, username: string): (r: Option<DbUser>)
    ensures r.None? <==> forall i :: 0 <= i < |users| ==> users[i].username != username
    ensures r.Some? ==> r.value.username == username
    ensures r.Some? ==> exists i :: (0 <= i < |users| && users[i] == r.value
      && forall j :: 0 <= j < i ==> users[j].username != username)
  {
    Find(users, HasUsername(username))
  }

  /** `User.findById(id)`: the user with that id, the first should two share it. */
  function FindUserById(users: seq<DbUser>, id: string): (r: Option<DbUser>)
    ensures r.None? <==> forall i :: 0 <= i < |users| ==> users[i].id != id
    ensures r.Some? ==> r.value.id == id
    ensures r.Some? ==> exists i :: (0 <= i < |users| && users[i] == r.value
      && forall j :: 0 <= j < i ==> users[j].id != id)
  {
    Find(users, HasUserId(id))
  }

  /** `Group.findById(id)`. */
  function FindGroupById(groups: seq<DbGroup>, id: string): (r: Option<DbGroup>)
    ensures r.None? <==> forall i :: 0 <= i < |groups| ==> groups[i].id != id
    ensures r.Some? ==> r.value.id == id
    ensures r.Some? ==> exists i :: (0 <= i < |groups| && groups[i] == r.value
      && forall j :: 0 <= j < i ==> groups[j].id != id)
  {
    Find(groups, HasDbGroupId(id))
  }

  /** `populate('members')` on an array: each id resolved to its user, in order; an id
      with no user is left out. */
  function ResolveMembers(ids: seq<string>, users: seq<DbUser>): (r: seq<DbUser>)
    ensures |r| <= |ids|
    ensures forall i :: 0 <= i < |r| ==> r[i] in users && r[i].id in ids
    ensures forall i :: 0 <= i < |ids| && FindUserById(users, ids[i]).Some? ==> FindUserById(users, ids[i]).value in r
  {
    if ids == [] then []
    else
      var rest := ResolveMembers(ids[1..], users);
      assert forall i :: 1 <= i < |ids| ==> ids[i] == ids[1..][i - 1];
      match FindUserById(users, ids[0])
      case None => rest
      case Some(u) => [u] + rest
  }

  /** An id that names a stored user. */
  function Resolvable(users: seq<DbUser>): string -> bool {
    (id: string) => FindUserById(users, id).Some?
  }

  function UserIds(us: seq<DbUser>): (ids: seq<string>)
    ensures |ids| == |us|
    ensures forall i :: 0 <= i < |us| ==> ids[i] == us[i].id
  {
    if us == [] then [] else [us[0].id] + UserIds(us[1..])
  }

  /** The resolved members follow the stored order: their ids are the resolvable ids
      of the list, in place and with repetitions. */
  lemma {:induction false} ResolveMembersInOrder(ids: seq<string>, users: seq<DbUser>)
    ensures UserIds(ResolveMembers(ids, users)) == Filter(ids, Resolvable(users))
  {
    if ids != [] {
      ResolveMembersInOrder(ids[1..], users);
      var rest := ResolveMembers(ids[1..], users);
      match FindUserById(users, ids[0])
      case None =>
      case Some(u) =>
        assert ResolveMembers(ids, users) == [u] + rest;
        assert UserIds([u] + rest) == [u.id] + UserIds(rest);
    }
  }

  function Populate(g: DbGroup, users: seq<DbUser>): PopulatedGroup {
    PopulatedGroup(g, ResolveMembers(g.members, users))
  }

  function PopulateAll(gs: seq<DbGroup>, users: seq<DbUser>): (r: seq<PopulatedGroup>)
    ensures |r| == |gs|
    ensures forall i :: 0 <= i < |gs| ==> r[i] == Populate(gs[i], users)
  {
    if gs == [] then [] else [Populate(gs[0], users)] + PopulateAll(gs[1..], users)
  }

  // ---- The pure rules ----

  /** The login check: the user with that name, provided the password matches. */
  function CheckLogin(users: seq<DbUser>, username: string, password: string): (r: Option<DbUser>)
    ensures r.Some? ==> r.value in users && r.value.username == username && r.value.password == password
    ensures r.None? <==> (FindByUsername(users, username).None?
                          || FindByUsername(users, username).value.password != password)
  {
    match FindByUsername(users, username)
    case None => None
    case Some(u) => if u.password != password then None else Some(u)
  }

  /** `[...new Set([...(members || []), userId])]`: the requested members, each once,
      with the creator added. */
  function MemberIdsFor(members: Option<seq<string>>, userId: string): (ids: seq<string>)
    ensures Distinct(ids)
    ensures userId in ids
    ensures forall m :: m in members.GetOr([]) ==> m in ids
    ensures forall m :: m in ids ==> m == userId || m in members.GetOr([])
  {
    var requested := members.GetOr([]);
    var all := requested + [userId];
    assert all[|all| - 1] == userId;
    assert forall i :: 0 <= i < |requested| ==> all[i] == requested[i];
    Dedupe(all)
  }

  /** The creator goes last unless the request already names them, and the requested
      members keep the order of their first occurrence. */
  lemma MemberIdsOrder(members: Option<seq<string>>, userId: string)
    ensures userId !in members.GetOr([]) ==>
      MemberIdsFor(members, userId) == Dedupe(members.GetOr([])) + [userId]
    ensures userId in members.GetOr([]) ==>
      MemberIdsFor(members, userId) == Dedupe(members.GetOr([]))
  {
    DedupeSnoc(members.GetOr([]), userId);
  }

  /** A missing `members` is treated as an empty one. */
  lemma MissingMembersAreNone(userId: string)
    ensures MemberIdsFor(None, userId) == [userId]
  {
    MemberIdsOrder(None, userId);
    assert Dedupe<string>([]) == [];
  }

  /** The `$or` query of `GET /api/expenses`: the user paid it or shares it. */
  function Involves(userId: string): Expense -> bool {
    (e: Expense) => e.paidBy == userId || userId in e.participants
  }

  function VisibleExpenses(es: seq<Expense>, userId: string): (r: seq<Expense>)
    ensures forall i :: 0 <= i < |r| ==> r[i] in es && (r[i].paidBy == userId || userId in r[i].participants)
    ensures forall i :: 0 <= i < |es| && (es[i].paidBy == userId || userId in es[i].participants) ==> es[i] in r
  {
    Filter(es, Involves(userId))
  }

  /** An expense the user neither paid nor shares is never sent to them. */
  lemma UninvolvedExpenseIsHidden(es: seq<Expense>, userId: string, e: Expense)
    requires e.paidBy != userId && userId !in e.participants
    ensures e !in VisibleExpenses(es, userId)
  {
  }

  /** `Expense.create({ ...req.body, paidBy: userId })`: none when the schema refuses
      the document (a required field missing, a `splitType` outside its enum), otherwise
      the body with the payer overridden and the schema's defaults filled in. */
  function CreatedExpense(body: ExpenseRequest, userId: string, id: string, now: int): (r: Option<Expense>)
    ensures r.None? <==> body.groupId == "" || body.title == "" || body.amount.None?
                         || (body.splitType.Some? && ParseSplitType(body.splitType.value).None?)
    ensures r.Some? ==> r.value.paidBy == userId && r.value.id == id
    ensures r.Some? ==> r.value.groupId == body.groupId && r.value.title == body.title
    ensures r.Some? ==> Some(r.value.amount) == body.amount
    ensures r.Some? ==> body.splitType.None? ==> r.value.splitType == Equal
    ensures r.Some? ==> body.splitType.Some? ==> SplitTypeName(r.value.splitType) == body.splitType.value
    ensures r.Some? ==> r.value.category == body.category.GetOr(OtherCategory)
    ensures r.Some? ==> r.value.date == body.date.GetOr(now)
    ensures r.Some? ==> r.value.participants == body.participants
  {
    if body.groupId == "" || body.title == "" || body.amount.None? then None
    else
      match EnumField(body.splitType, ParseSplitType, Equal)
      case None => None
      case Some(split) =>
        Some(Expense(id, body.groupId, body.title, body.amount.value, userId, split,
                     body.category.GetOr(OtherCategory), body.date.GetOr(now), body.participants))
  }

  /** The body's `paidBy` has no effect on the created expense. */
  lemma PaidByIsOverridden(body: ExpenseRequest, claimed: string, userId: string, id: string, now: int)
    ensures CreatedExpense(body.(paidBy := Some(claimed)), userId, id, now)
         == CreatedExpense(body.(paidBy := None), userId, id, now)
  {
  }

  /** `Group.create(...)`: none when the name is missing or `type` is outside its enum;
      otherwise the session user is the creator and a member, and the group is priced
      in dollars. */
  function CreatedGroup(body: GroupRequest, userId: string, id: string): (r: Option<DbGroup>)
    ensures r.None? <==> body.name == "" || (body.gtype.Some? && ParseGroupType(body.gtype.value).None?)
    ensures r.Some? ==> r.value.id == id && r.value.name == body.name
    ensures r.Some? ==> body.gtype.None? ==> r.value.gtype == OtherType
    ensures r.Some? ==> body.gtype.Some? ==> GroupTypeName(r.value.gtype) == body.gtype.value
    ensures r.Some? ==> r.value.currency == "$" && r.value.createdBy == userId
    ensures r.Some? ==> r.value.members == MemberIdsFor(body.members, userId) && userId in r.value.members
  {
    if body.name == "" then None
    else
      match EnumField(body.gtype, ParseGroupType, OtherType)
      case None => None
      case Some(t) => Some(DbGroup(id, body.name, t, "$", userId, MemberIdsFor(body.members, userId)))
  }

  /** `Group.find({ members: userId })`. */
  function IsMemberOf(userId: string): DbGroup -> bool {
    (g: DbGroup) => userId in g.members
  }

  /** The creator of a group made through the route always sees it in their list. */
  lemma CreatorSeesNewGroup(gs: seq<DbGroup>, body: GroupRequest, userId: string, id: string)
    ensures CreatedGroup(body, userId, id).Some? ==>
      var g := CreatedGroup(body, userId, id).value;
      g in Filter(gs + [g], IsMemberOf(userId))
  {
    if CreatedGroup(body, userId, id).Some? {
      var g := CreatedGroup(body, userId, id).value;
      assert (gs + [g])[|gs|] == g;
    }
  }

  /** The database's three collections and the requester's session, which holds the
      signed-in user's id once register or login sets it. */
  class Server {
    var users: seq<DbUser>
    var groups: seq<DbGroup>
    var expenses: seq<Expense>
    var session: Option<string>

    /** No two users share a username, which the register route keeps so; every user
        has a non-empty id of its own, as a fresh `ObjectId` is; and a session names a
        non-empty id, so `!req.session.userId` holds exactly when there is no session. */
    predicate Valid()
      reads this
    {
      && (forall i, j :: 0 <= i < j < |users| ==> users[i].username != users[j].username)
      && (forall i, j :: 0 <= i < j < |users| ==> users[i].id != users[j].id)
      && (forall i :: 0 <= i < |users| ==> users[i].id != "")
      && (session.Some? ==> session.value != "")
    }

    constructor()
      ensures users == [] && groups == [] && expenses == [] && session == None
      ensures Valid()
    {
      users := [];
      groups := [];
      expenses := [];
      session := None;
    }

    /** `POST /api/auth/register`. A taken username is refused with 400 and nothing
        changes; a missing username or password fails the user schema's `required` check with
        500; otherwise the user is stored and signed in. */
    method Register(username: string, password: string, name: string, email: string, id: string)
      returns (r: Reply)
      requires Valid()
      requires id != "" && FindUserById(users, id).None?
      modifies this
      ensures Valid()
      ensures groups == old(groups) && expenses == old(expenses)
      ensures FindByUsername(old(users), username).Some? ==>
        r == Reply(400, Msg("Username already exists")) && unchanged(this)
      ensures FindByUsername(old(users), username).None? && (username == "" || password == "") ==>
        r == Reply(500, Msg("Error registering user")) && unchanged(this)
      ensures FindByUsername(old(users), username).None? && username != "" && password != "" ==>
        && users == old(users) + [DbUser(id, username, password, name, email)]
        && session == Some(id)
        && r == Reply(201, OneUser(DbUser(id, username, password, name, email)))
    {
      if FindByUsername(users, username).Some? {
        return Reply(400, Msg("Username already exists"));
      }
      if username == "" || password == "" {
        return Reply(500, Msg("Error registering user"));
      }
      var user := DbUser(id, username, password, name, email);
      users := users + [user];
      session := Some(id);
      r := Reply(201, OneUser(user));
    }

    /** `POST /api/auth/login`: 401 unless a user has the name and the password matches;
        then that user is signed in. */
    method Login(username: string, password: string) returns (r: Reply)
      requires Valid()
      modifies this
      ensures Valid()
      ensures users == old(users) && groups == old(groups) && expenses == old(expenses)
      ensures CheckLogin(old(users), username, password).None? ==>
        r == Reply(401, Msg("Invalid credentials")) && session == old(session)
      ensures CheckLogin(old(users), username, password).Some? ==>
        var u := CheckLogin(old(users), username, password).value;
        session == Some(u.id) && r == Reply(200, OneUser(u))
    {
      var found := CheckLogin(users, username, password);
      if found.None? {
        return Reply(401, Msg("Invalid credentials"));
      }
      session := Some(found.value.id);
      r := Reply(200, OneUser(found.value));
    }

    /** `POST /api/auth/logout`: the session is destroyed. */
    method Logout() returns (r: Reply)
      requires Valid()
      modifies this
      ensures Valid()
      ensures session == None && r == Reply(200, NoBody)
      ensures users == old(users) && groups == old(groups) && expenses == old(expenses)
    {
      session := None;
      r := Reply(200, NoBody);
    }

    /** `GET /api/auth/me`: the signed-in user, or 401. */
    method Me() returns (r: Reply)
      ensures session.None? ==> r == Unauthorized
      ensures session.Some? && FindUserById(users, session.value).None? ==> r == Unauthorized
      ensures session.Some? && FindUserById(users, session.value).Some? ==>
        r == Reply(200, OneUser(FindUserById(users, session.value).value))
    {
      if session.None? {
        return Unauthorized;
      }
      var user := FindUserById(users, session.value);
      if user.None? {
        return Unauthorized;
      }
      r := Reply(200, OneUser(user.value));
    }

    /** `GET /api/groups`: the groups that list the user as a member, populated. */
    method ListGroups() returns (r: Reply)
      ensures session.None? ==> r == Unauthorized
      ensures session.Some? ==> r == Reply(200, Groups(PopulateAll(Filter(groups, IsMemberOf(session.value)), users)))
      ensures r.status == 200 ==> forall i :: 0 <= i < |r.body.groups| ==>
        r.body.groups[i].group in groups && session.value in r.body.groups[i].group.members
    {
      if session.None? {
        return Unauthorized;
      }
      r := Reply(200, Groups(PopulateAll(Filter(groups, IsMemberOf(session.value)), users)));
    }

    /** `POST /api/groups`: 401 without a session, 500 when the schema refuses the
        group; otherwise the group is stored and sent back populated. */
    method CreateGroup(body: GroupRequest, id: string) returns (r: Reply)
      modifies this
      ensures users == old(users) && expenses == old(expenses) && session == old(session)
      ensures old(session).None? ==> r == Unauthorized && groups == old(groups)
      ensures old(session).Some? && CreatedGroup(body, old(session).value, id).None? ==>
        r == Reply(500, Msg("Error creating group")) && groups == old(groups)
      ensures old(session).Some? && body.name == "" ==> r.status == 500
      ensures old(session).Some? && CreatedGroup(body, old(session).value, id).Some? ==>
        var g := CreatedGroup(body, old(session).value, id).value;
        groups == old(groups) + [g] && r == Reply(201, OneGroup(Populate(g, users)))
    {
      if session.None? {
        return Unauthorized;
      }
      var created := CreatedGroup(body, session.value, id);
      if created.None? {
        return Reply(500, Msg("Error creating group"));
      }
      groups := groups + [created.value];
      r := Reply(201, OneGroup(Populate(created.value, users)));
    }

    /** `GET /api/groups/:id`: 401 without a session, 404 for an unknown id. Membership
        is not checked: any signed-in user can read any group. */
    method GetGroup(id: string) returns (r: Reply)
      ensures session.None? ==> r == Unauthorized
      ensures session.Some? && FindGroupById(groups, id).None? ==> r == Reply(404, Msg("Group not found"))
      ensures session.Some? && FindGroupById(groups, id).Some? ==>
        r == Reply(200, OneGroup(Populate(FindGroupById(groups, id).value, users)))
    {
      if session.None? {
        return Unauthorized;
      }
      var g := FindGroupById(groups, id);
      if g.None? {
        return Reply(404, Msg("Group not found"));
      }
      r := Reply(200, OneGroup(Populate(g.value, users)));
    }

    /** `POST /api/expenses`: 401 without a session, 500 when the schema refuses the
        expense; otherwise it is stored with the session user as payer. */
    method CreateExpense(body: ExpenseRequest, id: string, now: int) returns (r: Reply)
      modifies this
      ensures users == old(users) && groups == old(groups) && session == old(session)
      ensures old(session).None? ==> r == Unauthorized && expenses == old(expenses)
      ensures old(session).Some? && CreatedExpense(body, old(session).value, id, now).None? ==>
        r == Reply(500, Msg("Error creating expense")) && expenses == old(expenses)
      ensures old(session).Some? && (body.groupId == "" || body.title == "" || body.amount.None?) ==>
        r.status == 500
      ensures old(session).Some? && CreatedExpense(body, old(session).value, id, now).Some? ==>
        var e := CreatedExpense(body, old(session).value, id, now).value;
        expenses == old(expenses) + [e] && r == Reply(201, OneExpense(e))
    {
      if session.None? {
        return Unauthorized;
      }
      var created := CreatedExpense(body, session.value, id, now);
      if created.None? {
        return Reply(500, Msg("Error creating expense"));
      }
      expenses := expenses + [created.value];
      r := Reply(201, OneExpense(created.value));
    }

    /** `GET /api/expenses`: exactly the expenses the user paid or shares. */
    method ListExpenses() returns (r: Reply)
      ensures session.None? ==> r == Unauthorized
      ensures session.Some? ==> r == Reply(200, Expenses(VisibleExpenses(expenses, session.value)))
    {
      if session.None? {
        return Unauthorized;
      }
      r := Reply(200, Expenses(VisibleExpenses(expenses, session.value)));
    }
  }
}
