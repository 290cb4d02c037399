/**
 * The live Flask backend of app.py as an in-memory store: the client, team
 * member, project and payment tables, and the `project_team_members` join
 * table keyed by `(project_id, team_member_id)` with its `role` column. Each
 * request handler that changes the store is a method of `Store`; a handler
 * that only reads it is a function.
 */
module Backend {
  import opened JsBuiltins
  import opened Api

  /** A calendar date (the `payment_date` column). */
  datatype Date = Date(year: nat, month: nat, day: nat)

  /** `a` is the same day as `b` or later: the order of `ORDER BY payment_date DESC`. */
  predicate NotBefore(a: Date, b: Date) {
    a.year > b.year || (a.year == b.year && (a.month > b.month || (a.month == b.month && a.day >= b.day)))
  }

  datatype ProjectRow = ProjectRow(name: string, clientId: Id, description: Option<string>, status: string)

  datatype PaymentRow = PaymentRow(
    id: Id,
    clientId: Id,
    projectId: Id,
    totalAmount: real,
    paidAmount: real,
    paymentDate: Date)

  /** The primary key of `project_team_members`: `(project_id, team_member_id)`. */
  type Pair = (Id, Id)

  /**
   * The error envelopes: the four 404 messages of the team routes, and
   * `ServerError` for every exception the handlers turn into
   * `{'error': str(e), 'status': 'error'}`.
   */
  datatype Error = ProjectNotFound | TeamMemberNotFound | AlreadyAssigned | NotAssigned | ServerError

  datatype Outcome = Done | Failed(error: Error)

  /** The `role` a pair gets when the request names none (the column default too). */
  const DefaultRole: string := "Member"

  /** The `status` `add_project` stores when the body has none. */
  const DefaultStatus: string := "Ongoing"

  // ---------------------------------------------------------------------------
  // The join table
  // ---------------------------------------------------------------------------

  /** The team members assigned to project `p`. */
  function MembersOf(team: map<Pair, string>, p: Id): set<Id> {
    set k | k in team && k.0 == p :: k.1
  }

  /** A new pair changes the membership of its own project only, by exactly that member. */
  lemma MembersAfterInsert(team: map<Pair, string>, p: Id, m: Id, role: string, q: Id)
    ensures MembersOf(team[(p, m) := role], q) == MembersOf(team, q) + (if q == p then {m} else {})
  {
    var after := team[(p, m) := role];
    forall x | x in MembersOf(after, q) ensures x in MembersOf(team, q) + (if q == p then {m} else {}) {
      if (q, x) != (p, m) {
        assert (q, x) in team;
      }
    }
    forall x | x in MembersOf(team, q) + (if q == p then {m} else {}) ensures x in MembersOf(after, q) {
      assert (q, x) in after;
    }
  }

  /** Deleting a pair changes the membership of its own project only, by exactly that member. */
  lemma MembersAfterDelete(team: map<Pair, string>, p: Id, m: Id, q: Id)
    ensures MembersOf(team - {(p, m)}, q) == MembersOf(team, q) - (if q == p then {m} else {})
  {
    var after := team - {(p, m)};
    forall x | x in MembersOf(team, q) - (if q == p then {m} else {}) ensures x in MembersOf(after, q) {
      assert (q, x) in after;
    }
  }

  /**
   * The join table after `update_project`: the rows of other projects are
   * kept, and project `p` is given exactly the members `keep`, each with the
   * default role.
   */
  function Relinked(team: map<Pair, string>, p: Id, keep: set<Id>): map<Pair, string> {
    (map k | k in team && k.0 != p :: team[k]) + (map m | m in keep :: (p, m) := DefaultRole)
  }

  /** After a relink, `p` has exactly the kept members (with the default role) and no other project changes. */
  lemma RelinkedMembership(team: map<Pair, string>, p: Id, keep: set<Id>, q: Id)
    ensures MembersOf(Relinked(team, p, keep), q) == if q == p then keep else MembersOf(team, q)
    ensures forall m :: m in keep ==> Relinked(team, p, keep)[(p, m)] == DefaultRole
    ensures forall k :: k in team && k.0 != p ==> k in Relinked(team, p, keep) && Relinked(team, p, keep)[k] == team[k]
  {
    var after := Relinked(team, p, keep);
    if q == p {
      forall x | x in keep ensures x in MembersOf(after, q) {
        assert (p, x) in after;
      }
    } else {
      forall x | x in MembersOf(team, q) ensures x in MembersOf(after, q) {
        assert (q, x) in after;
      }
    }
  }

  /**
   * The ids of a request's `team_members` that name an existing team member
   * (the others are skipped by `if team_member:`).
   */
  function ExistingIds(requested: seq<Option<Id>>, members: map<Id, string>): (r: set<Id>)
    ensures forall m :: m in r <==> Some(m) in requested && m in members
  {
    set x | x in requested && x.Some? && x.value in members :: x.value
  }

  /** Every element of the request carries a `team_member_id` key (otherwise `member['team_member_id']` raises). */
  predicate AllKeyed(requested: seq<Option<Id>>) {
    forall i :: 0 <= i < |requested| ==> requested[i].Some?
  }

  /**
   * Some existing team member is requested twice. The ORM then appends the
   * same member twice to the project's collection, and the second insert
   * into `project_team_members` clashes with its primary key.
   */
  predicate RepeatsExisting(requested: seq<Option<Id>>, members: map<Id, string>) {
    exists i, j :: 0 <= i < j < |requested| && requested[i].Some? && requested[i] == requested[j] && requested[i].value in members
  }

  // ---------------------------------------------------------------------------
  // Payments: the listing and the dashboard sums
  // ---------------------------------------------------------------------------

  predicate SortedByDate(s: seq<PaymentRow>) {
    forall i, j :: 0 <= i < j < |s| ==> NotBefore(s[i].paymentDate, s[j].paymentDate)
  }

  /** Insert one row into a list sorted latest-first. */
  function InsertByDate(x: PaymentRow, s: seq<PaymentRow>): (r: seq<PaymentRow>)
    requires SortedByDate(s)
    ensures SortedByDate(r)
    ensures multiset(r) == multiset(s) + multiset{x}
  {
    if s == [] then [x]
    else if NotBefore(x.paymentDate, s[0].paymentDate) then
      [x] + s
    else
      var rest := InsertByDate(x, s[1..]);
      assert s == [s[0]] + s[1..];
      assert forall e :: e in rest ==> e in multiset(s[1..]) + multiset{x};
      assert forall i :: 0 <= i < |rest| ==> NotBefore(s[0].paymentDate, rest[i].paymentDate) by {
        forall i | 0 <= i < |rest| ensures NotBefore(s[0].paymentDate, rest[i].paymentDate) {
          assert rest[i] in multiset(s[1..]) + multiset{x};
          if rest[i] != x {
            assert rest[i] in s[1..];
          }
        }
      }
      [s[0]] + rest
  }

  /** `ORDER BY payment_date DESC`: the rows latest-first, a permutation of the input. */
  function SortByDate(s: seq<PaymentRow>): (r: seq<PaymentRow>)
    ensures SortedByDate(r)
    ensures multiset(r) == multiset(s)
  {
    if s == [] then []
    else
      assert s == [s[0]] + s[1..];
      InsertByDate(s[0], SortByDate(s[1..]))
  }

  /** The payments that survive the inner joins with `clients` and `projects`, in table order. */
  function Joined(payments: seq<PaymentRow>, clients: map<Id, string>, projects: map<Id, ProjectRow>): (r: seq<PaymentRow>)
    ensures forall x :: x in r <==> x in payments && x.clientId in clients && x.projectId in projects
    ensures forall x :: x in r ==> x.clientId in clients && x.projectId in projects
    ensures forall x :: multiset(r)[x] == (if x.clientId in clients && x.projectId in projects then multiset(payments)[x] else 0)
  {
    if payments == [] then []
    else
      var x := payments[0];
      assert payments == [x] + payments[1..];
      (if x.clientId in clients && x.projectId in projects then [x] else []) + Joined(payments[1..], clients, projects)
  }

  function DigitChar(d: nat): (c: char)
    requires d < 10
    ensures IsDigit(c) && DigitValue(c) == d
  {
    ('0' as int + d) as char
  }

  /** Decimal text of a natural number. */
  function NatText(n: nat): (t: string)
    ensures t != [] && forall i :: 0 <= i < |t| ==> IsDigit(t[i])
    ensures DigitsValue(t) == n
  {
    if n < 10 then [DigitChar(n)] else NatText(n / 10) + [DigitChar(n % 10)]
  }

  /** Decimal text left-padded with zeros to `width` characters. */
  function Padded(n: nat, width: nat): (r: string)
    ensures |r| >= width && r != []
    ensures forall i :: 0 <= i < |r| ==> IsDigit(r[i])
  {
    var t := NatText(n);
    if |t| >= width then t else seq(width - |t|, _ => '0') + t
  }

  /** `strftime('%Y-%m-%d')`. */
  function IsoText(d: Date): (t: string)
    ensures t != "" && 'T' !in t
    ensures forall i :: 0 <= i < |t| ==> IsDigit(t[i]) || t[i] == '-'
  {
    Padded(d.year, 4) + "-" + Padded(d.month, 2) + "-" + Padded(d.day, 2)
  }

  /** One row of the JSON listing, with `pending_amount` computed by the query. */
  function ListingOf(x: PaymentRow, clients: map<Id, string>, projects: map<Id, ProjectRow>): (r: PaymentListing)
    requires x.clientId in clients && x.projectId in projects
    ensures r.pendingAmount + r.paidAmount == r.totalAmount
    ensures r.id == x.id && r.totalAmount == x.totalAmount && r.paidAmount == x.paidAmount
    ensures r.clientName == clients[x.clientId] && r.projectName == projects[x.projectId].name
    ensures r.paymentDate == IsoText(x.paymentDate)
    ensures r.projectId.None?
  {
    PaymentListing(x.id, x.totalAmount, x.paidAmount, x.totalAmount - x.paidAmount,
                   IsoText(x.paymentDate), clients[x.clientId], projects[x.projectId].name, None)
  }

  /** One `ListingOf` per row, in order. */
  function Listings(rows: seq<PaymentRow>, clients: map<Id, string>, projects: map<Id, ProjectRow>): (r: seq<PaymentListing>)
    requires forall i :: 0 <= i < |rows| ==> rows[i].clientId in clients && rows[i].projectId in projects
    ensures |r| == |rows|
    ensures forall i :: 0 <= i < |r| ==> r[i] == ListingOf(rows[i], clients, projects)
  {
    seq(|rows|, i requires 0 <= i < |rows| => ListingOf(rows[i], clients, projects))
  }

  function TotalSum(s: seq<PaymentRow>): real {
    if s == [] then 0.0 else s[0].totalAmount + TotalSum(s[1..])
  }

  function PaidSum(s: seq<PaymentRow>): real {
    if s == [] then 0.0 else s[0].paidAmount + PaidSum(s[1..])
  }

  /** `SUM(total_amount - paid_amount)`, 0 over no rows (the `or 0`). */
  function PendingSum(s: seq<PaymentRow>): real {
    if s == [] then 0.0 else (s[0].totalAmount - s[0].paidAmount) + PendingSum(s[1..])
  }

  /** The dashboard's pending sum is the total sum less the paid sum. */
  lemma {:induction false} PendingSumIsDifference(s: seq<PaymentRow>)
    ensures PendingSum(s) == TotalSum(s) - PaidSum(s)
  {
    if s != [] {
      PendingSumIsDifference(s[1..]);
    }
  }

  /** The ids of a listing whose ids are pairwise distinct are as many as its entries. */
  lemma {:induction false} DistinctIdsCount(xs: seq<TeamListing>)
    ensures (forall i, j :: 0 <= i < j < |xs| ==> xs[i].id != xs[j].id) ==>
              |set i | 0 <= i < |xs| :: xs[i].id| == |xs|
  {
    if xs != [] && forall i, j :: 0 <= i < j < |xs| ==> xs[i].id != xs[j].id {
      var rest := xs[1..];
      assert forall i, j :: 0 <= i < j < |rest| ==> rest[i].id != rest[j].id by {
        forall i, j | 0 <= i < j < |rest| ensures rest[i].id != rest[j].id {
          assert rest[i] == xs[i + 1] && rest[j] == xs[j + 1];
        }
      }
      DistinctIdsCount(rest);
      var ids := set i | 0 <= i < |xs| :: xs[i].id;
      var restIds := set i | 0 <= i < |rest| :: rest[i].id;
      assert ids == {xs[0].id} + restIds by {
        forall m | m in ids ensures m in {xs[0].id} + restIds {
          var i :| 0 <= i < |xs| && xs[i].id == m;
          if i > 0 {
            assert rest[i - 1].id == m;
          }
        }
        forall m | m in restIds ensures m in ids {
          var i :| 0 <= i < |rest| && rest[i].id == m;
          assert xs[i + 1].id == m;
        }
      }
      assert xs[0].id !in restIds by {
        forall i | 0 <= i < |rest| ensures rest[i].id != xs[0].id {
          assert rest[i] == xs[i + 1];
        }
      }
    }
  }

  datatype Dashboard = Dashboard(
    totalClients: nat,
    totalTeamMembers: nat,
    totalProjects: nat,
    totalAmount: real,
    pendingAmount: real,
    totalPayments: nat)

  /**
   * The foreign keys outside the join table: `projects.client_id`
   * (app.py:897), `payments.client_id` and `payments.project_id`
   * (app.py:909-910); and every project id below the next one issued.
   */
  ghost predicate TablesLinked(clients: map<Id, string>, projects: map<Id, ProjectRow>, payments: seq<PaymentRow>, nextId: Id) {
    && (forall q :: q in projects ==> projects[q].clientId in clients && q < nextId)
    && (forall i :: 0 <= i < |payments| ==> payments[i].clientId in clients && payments[i].projectId in projects)
  }

  // ---------------------------------------------------------------------------
  // The store and its request handlers
  // ---------------------------------------------------------------------------

  class Store {
    var clients: map<Id, string>
    var members: map<Id, string>
    var projects: map<Id, ProjectRow>
    var team: map<Pair, string>
    var payments: seq<PaymentRow>
    /** The id the next inserted project receives. */
    var nextProjectId: Id

    /**
     * The foreign keys of the schema (both ends of a join-table pair, and
     * those of `TablesLinked`) and fresh project ids.
     */
    ghost predicate Valid()
      reads this
    {
      && (forall k :: k in team ==> k.0 in projects && k.1 in members)
      && TablesLinked(clients, projects, payments, nextProjectId)
    }

    /**
     * A store holding the given tables, with no team pairs yet; `nextId` is
     * the auto-increment counter of `projects`.
     */
    constructor (clients: map<Id, string>, members: map<Id, string>, projects: map<Id, ProjectRow>,
                 payments: seq<PaymentRow>, nextId: Id)
      requires TablesLinked(clients, projects, payments, nextId)
      ensures Valid()
      ensures this.clients == clients && this.members == members && this.projects == projects
      ensures this.payments == payments && nextProjectId == nextId && team == map[]
    {
      this.clients := clients;
      this.members := members;
      this.projects := projects;
      this.payments := payments;
      team := map[];
      nextProjectId := nextId;
    }

    /** `POST /api/projects/<project_id>/team` (`assign_team_member`). */
    method AssignTeamMember(projectId: Id, memberId: Option<Id>, role: Option<string>) returns (outcome: Outcome)
      requires Valid()
      modifies this
      ensures Valid()
      ensures clients == old(clients) && members == old(members) && projects == old(projects)
      ensures payments == old(payments) && nextProjectId == old(nextProjectId)
      ensures projectId !in projects ==> outcome == Failed(ProjectNotFound)
      ensures projectId in projects && (memberId.None? || memberId.value !in members) ==>
                outcome == Failed(TeamMemberNotFound)
      ensures projectId in projects && memberId.Some? && memberId.value in members && (projectId, memberId.value) in old(team) ==>
                outcome == Failed(AlreadyAssigned)
      ensures outcome.Done? <==>
                projectId in projects && memberId.Some? && memberId.value in members && (projectId, memberId.value) !in old(team)
      ensures team == if outcome.Done? then old(team)[(projectId, memberId.value) := role.GetOr(DefaultRole)] else old(team)
    {
      if projectId !in projects {
        return Failed(ProjectNotFound);
      }
      if memberId.None? || memberId.value !in members {
        return Failed(TeamMemberNotFound);
      }
      var m := memberId.value;
      if (projectId, m) in team {
        return Failed(AlreadyAssigned);
      }
      team := team[(projectId, m) := role.GetOr(DefaultRole)];
      outcome := Done;
    }

    /** `DELETE /api/projects/<project_id>/team/<team_member_id>` (`remove_team_member`). */
    method RemoveTeamMember(projectId: Id, memberId: Id) returns (outcome: Outcome)
      requires Valid()
      modifies this
      ensures Valid()
      ensures clients == old(clients) && members == old(members) && projects == old(projects)
      ensures payments == old(payments) && nextProjectId == old(nextProjectId)
      ensures projectId !in projects ==> outcome == Failed(ProjectNotFound)
      ensures projectId in projects && memberId !in members ==> outcome == Failed(TeamMemberNotFound)
      ensures projectId in projects && memberId in members && (projectId, memberId) !in old(team) ==>
                outcome == Failed(NotAssigned)
      ensures outcome.Done? <==> (projectId, memberId) in old(team) && projectId in projects && memberId in members
      ensures team == if outcome.Done? then old(team) - {(projectId, memberId)} else old(team)
    {
      if projectId !in projects {
        return Failed(ProjectNotFound);
      }
      if memberId !in members {
        return Failed(TeamMemberNotFound);
      }
      if (projectId, memberId) !in team {
        return Failed(NotAssigned);
      }
      team := team - {(projectId, memberId)};
      outcome := Done;
    }

    /**
     * `PUT /api/projects/<id>` (`update_project`). A missing row is a 404; an
     * element without `team_member_id`, or a NULL in a NOT NULL column
     * (`name`, `client_id`, `status`) or an unknown client, raises before the
     * commit and nothing is stored. Otherwise the fields are overwritten and
     * the project's membership becomes the requested ids that exist.
     */
    method UpdateProject(id: Id, req: ProjectRequest) returns (outcome: Outcome)
      requires Valid()
      modifies this
      ensures Valid()
      ensures clients == old(clients) && members == old(members)
      ensures payments == old(payments) && nextProjectId == old(nextProjectId)
      ensures id !in old(projects) ==> outcome == Failed(ProjectNotFound)
      ensures outcome.Done? <==>
                id in old(projects) && AllKeyed(req.teamMembers) && req.name.Some? && req.clientId.Some?
                && req.clientId.value in clients && req.status.Some?
      ensures outcome.Failed? ==> projects == old(projects) && team == old(team)
      ensures outcome.Done? ==>
                projects == old(projects)[id := ProjectRow(req.name.value, req.clientId.value, req.description, req.status.value)]
                && team == Relinked(old(team), id, ExistingIds(req.teamMembers, members))
    {
      if id !in projects {
        return Failed(ProjectNotFound);
      }
      if !AllKeyed(req.teamMembers) || req.name.None? || req.clientId.None? || req.clientId.value !in clients || req.status.None? {
        return Failed(ServerError);
      }
      projects := projects[id := ProjectRow(req.name.value, req.clientId.value, req.description, req.status.value)];
      team := Relinked(team, id, ExistingIds(req.teamMembers, members));
      outcome := Done;
    }

    /**
     * `POST /api/projects` (`add_project`). The project row is committed first
     * (a NULL name or client, or an unknown client, fails that commit and
     * nothing is stored); the status defaults to "Ongoing". Then the
     * requested members that exist are attached; an element without
     * `team_member_id` raises after the first commit, and an existing member
     * requested twice fails the second commit, so in both cases the project
     * stays, without members, and the reply is an error.
     */
    method AddProject(req: ProjectRequest) returns (outcome: Outcome, created: Option<Id>)
      requires Valid()
      modifies this
      ensures Valid()
      ensures clients == old(clients) && members == old(members) && payments == old(payments)
      ensures created.None? <==> req.name.None? || req.clientId.None? || req.clientId.value !in clients
      ensures created.None? ==> outcome == Failed(ServerError) && projects == old(projects) && team == old(team)
                                && nextProjectId == old(nextProjectId)
      ensures created.Some? ==>
                created.value == old(nextProjectId) && created.value !in old(projects)
                && nextProjectId == old(nextProjectId) + 1
                && projects == old(projects)[created.value :=
                     ProjectRow(req.name.value, req.clientId.value, req.description, req.status.GetOr(DefaultStatus))]
      ensures created.Some? ==>
                outcome == (if AllKeyed(req.teamMembers) && !RepeatsExisting(req.teamMembers, members) then Done
                            else Failed(ServerError))
      ensures created.Some? ==>
                team == if outcome.Done? then Relinked(old(team), created.value, ExistingIds(req.teamMembers, members))
                        else old(team)
    {
      if req.name.None? || req.clientId.None? || req.clientId.value !in clients {
        return Failed(ServerError), None;
      }
      var id := nextProjectId;
      projects := projects[id := ProjectRow(req.name.value, req.clientId.value, req.description, req.status.GetOr(DefaultStatus))];
      nextProjectId := nextProjectId + 1;
      created := Some(id);
      if !AllKeyed(req.teamMembers) || RepeatsExisting(req.teamMembers, members) {
        return Failed(ServerError), created;
      }
      team := Relinked(team, id, ExistingIds(req.teamMembers, members));
      outcome := Done;
    }

    /**
     * `xs` is a faithful `team_members` array of project `p` in
     * `GET /api/projects`: each assigned member once, with its name and role.
     */
    ghost function ListsTeamOf(xs: seq<TeamListing>, p: Id): (b: bool)
      reads this
      ensures b ==> (set i | 0 <= i < |xs| :: xs[i].id) == MembersOf(team, p)
      ensures b ==> |xs| == |MembersOf(team, p)|
    {
      DistinctIdsCount(xs);
      && (forall i, j :: 0 <= i < j < |xs| ==> xs[i].id != xs[j].id)
      && (forall i :: 0 <= i < |xs| ==> (p, xs[i].id) in team && xs[i].id in members
                                        && xs[i].name == members[xs[i].id] && xs[i].role == team[(p, xs[i].id)])
      && (forall m :: m in MembersOf(team, p) ==> exists i :: 0 <= i < |xs| && xs[i].id == m)
    }

    /**
     * The rows `GET /api/payments` lists: the payments whose client and
     * project exist (the inner joins), latest payment date first.
     */
    function ListedRows(): (rows: seq<PaymentRow>)
      reads this
      ensures SortedByDate(rows)
      ensures multiset(rows) == multiset(Joined(payments, clients, projects))
      ensures |rows| == |Joined(payments, clients, projects)|
      ensures forall i :: 0 <= i < |rows| ==> rows[i].clientId in clients && rows[i].projectId in projects
    {
      var joined := Joined(payments, clients, projects);
      var rows := SortByDate(joined);
      assert |rows| == |multiset(rows)| == |multiset(joined)| == |joined|;
      assert forall i :: 0 <= i < |rows| ==> rows[i].clientId in clients && rows[i].projectId in projects by {
        forall i | 0 <= i < |rows| ensures rows[i].clientId in clients && rows[i].projectId in projects {
          assert rows[i] in multiset(rows);
          assert rows[i] in joined;
        }
      }
      rows
    }

    /** `GET /api/payments`: one listing per listed row, in the same order, with its pending amount and date text. */
    function ListPayments(): (r: seq<PaymentListing>)
      reads this
      ensures |r| == |Joined(payments, clients, projects)|
      ensures |r| == |ListedRows()| && forall i :: 0 <= i < |r| ==> r[i].id == ListedRows()[i].id
      ensures forall i :: 0 <= i < |r| ==> r[i].pendingAmount == r[i].totalAmount - r[i].paidAmount
      ensures forall i :: 0 <= i < |r| ==> r[i].paymentDate == IsoText(ListedRows()[i].paymentDate) && r[i].paymentDate != ""
      ensures forall i :: 0 <= i < |r| ==> r[i].projectId.None?
      ensures forall i :: 0 <= i < |r| ==> r[i] == ListingOf(ListedRows()[i], clients, projects)
    {
      Listings(ListedRows(), clients, projects)
    }

    /** `GET /api/dashboard-data`. */
    function DashboardData(): (d: Dashboard)
      reads this
      ensures d.totalClients == |clients| && d.totalTeamMembers == |members| && d.totalProjects == |projects|
      ensures d.totalPayments == |payments|
      ensures d.totalAmount == TotalSum(payments) && d.pendingAmount == PendingSum(payments)
      ensures d.pendingAmount == d.totalAmount - PaidSum(payments)
      ensures payments == [] ==> d.totalAmount == 0.0 && d.pendingAmount == 0.0
    {
      PendingSumIsDifference(payments);
      Dashboard(|clients|, |members|, |projects|, TotalSum(payments), PendingSum(payments), |payments|)
    }
  }
}
