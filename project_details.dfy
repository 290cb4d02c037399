/**
 * The logic of the projects page (src/components/ProjectDetailsPage.js): the
 * team-member selection with its add and remove handlers, the full-replace
 * save of a project's team against the backend, the submit guard and
 * payload of the project form, and the payment summary of a project.
 */
module ProjectDetails {
  import opened JsBuiltins
  import opened Api
  import opened Backend

  // ---------------------------------------------------------------------------
  // The selection list
  // ---------------------------------------------------------------------------

  /**
   * An element of `selectedTeamMembers`: either a `{team_member_id,
   * team_member_name}` object built by the add handler, or a `{id, name,
   * role}` object as `GET /api/projects` lists a project's team.
   */
  datatype TeamEntry =
    | Chosen(teamMemberId: Id, teamMemberName: string)
    | Listed(id: Id, name: string, role: string)

  /** `member.team_member_id`: undefined (None) on a listed entry. */
  function IdField(e: TeamEntry): Option<Id> {
    match e
    case Chosen(m, _) => Some(m)
    case Listed(_, _, _) => None
  }

  /** The ids the entries of a selection carry. */
  function DefinedIds(s: seq<TeamEntry>): set<Id> {
    set e | e in s && e.Chosen? :: e.teamMemberId
  }

  /** No id occurs twice among the entries that carry one. */
  predicate DistinctIds(s: seq<TeamEntry>) {
    forall i, j :: 0 <= i < j < |s| && IdField(s[i]).Some? ==> IdField(s[i]) != IdField(s[j])
  }

  lemma DefinedIdsAt(s: seq<TeamEntry>, m: Id)
    ensures m in DefinedIds(s) <==> exists i :: 0 <= i < |s| && IdField(s[i]) == Some(m)
  {
    if m in DefinedIds(s) {
      var e :| e in s && e.Chosen? && e.teamMemberId == m;
      var i :| 0 <= i < |s| && s[i] == e;
      assert IdField(s[i]) == Some(m);
    }
  }

  lemma DefinedIdsAppend(s: seq<TeamEntry>, e: TeamEntry)
    ensures DefinedIds(s + [e]) == DefinedIds(s) + (if e.Chosen? then {e.teamMemberId} else {})
  {
    var t := s + [e];
    forall x | x in DefinedIds(s) ensures x in DefinedIds(t) {
      var y :| y in s && y.Chosen? && y.teamMemberId == x;
      assert y in t;
    }
    if e.Chosen? {
      assert e in t;
    }
  }

  lemma DefinedIdsCons(s: seq<TeamEntry>)
    requires s != []
    ensures DefinedIds(s) == DefinedIds(s[1..]) + (if s[0].Chosen? then {s[0].teamMemberId} else {})
  {
    assert s == [s[0]] + s[1..];
    forall x | x in DefinedIds(s[1..]) ensures x in DefinedIds(s) {
      var y :| y in s[1..] && y.Chosen? && y.teamMemberId == x;
      assert y in s;
    }
  }

  /** What the add button does with the dropdown's value. */
  datatype AddResult = Unchanged | DuplicateWarning | Appended(selection: seq<TeamEntry>)

  /**
   * `handleAddTeamMember`: nothing for an empty dropdown; a warning and no
   * change for an id already selected; nothing for an id missing from the
   * loaded roster; otherwise the roster's member is appended as a new
   * `{team_member_id, team_member_name}` entry.
   */
  function AddSelection(selection: seq<TeamEntry>, chosen: Option<Id>, roster: seq<Choice>): (r: AddResult)
    ensures chosen.None? ==> r == Unchanged
    ensures chosen.Some? && chosen.value in DefinedIds(selection) ==> r == DuplicateWarning
    ensures r == DuplicateWarning ==> chosen.Some? && chosen.value in DefinedIds(selection)
    ensures r.Appended? <==>
              chosen.Some? && chosen.value !in DefinedIds(selection) && exists c :: c in roster && c.id == chosen.value
    ensures r.Appended? ==>
              exists i :: 0 <= i < |roster| && roster[i].id == chosen.value
                          && (forall j :: 0 <= j < i ==> roster[j].id != chosen.value)
                          && r.selection == selection + [Chosen(roster[i].id, roster[i].name)]
  {
    if chosen.None? then Unchanged
    else
      DefinedIdsAt(selection, chosen.value);
      if FindIndex(selection, e => IdField(e) == chosen).Some? then DuplicateWarning
      else
        match FindIndex(roster, (c: Choice) => c.id == chosen.value)
        case None => Unchanged
        case Some(i) => Appended(selection + [Chosen(roster[i].id, roster[i].name)])
  }

  /** An accepted add keeps the selection free of duplicate ids and adds exactly the chosen id. */
  lemma AddKeepsDistinct(selection: seq<TeamEntry>, chosen: Option<Id>, roster: seq<Choice>)
    requires DistinctIds(selection)
    requires AddSelection(selection, chosen, roster).Appended?
    ensures DistinctIds(AddSelection(selection, chosen, roster).selection)
    ensures DefinedIds(AddSelection(selection, chosen, roster).selection) == DefinedIds(selection) + {chosen.value}
  {
    var s := AddSelection(selection, chosen, roster).selection;
    var e := s[|selection|];
    assert s == selection + [e];
    DefinedIdsAt(selection, chosen.value);
    DefinedIdsAppend(selection, e);
  }

  /**
   * `handleRemoveTeamMember`: keeps exactly the entries whose
   * `team_member_id` differs from the given one, in their order.
   */
  function RemoveSelection(selection: seq<TeamEntry>, id: Option<Id>): (r: seq<TeamEntry>)
    ensures forall e :: e in r <==> e in selection && IdField(e) != id
    ensures |r| <= |selection|
  {
    if selection == [] then []
    else if IdField(selection[0]) != id then [selection[0]] + RemoveSelection(selection[1..], id)
    else RemoveSelection(selection[1..], id)
  }

  /** Removing from a concatenation removes from each part: the kept entries keep their order. */
  lemma {:induction false} RemoveDistributes(a: seq<TeamEntry>, b: seq<TeamEntry>, id: Option<Id>)
    ensures RemoveSelection(a + b, id) == RemoveSelection(a, id) + RemoveSelection(b, id)
  {
    if a != [] {
      assert (a + b)[0] == a[0];
      assert (a + b)[1..] == a[1..] + b;
      RemoveDistributes(a[1..], b, id);
    } else {
      assert a + b == b;
    }
  }

  /** Removing an id no entry carries changes nothing. */
  lemma {:induction false} RemoveAbsent(s: seq<TeamEntry>, id: Option<Id>)
    requires forall i :: 0 <= i < |s| ==> IdField(s[i]) != id
    ensures RemoveSelection(s, id) == s
  {
    if s != [] {
      var t := s[1..];
      assert forall i :: 0 <= i < |t| ==> IdField(t[i]) != id by {
        forall i | 0 <= i < |t| ensures IdField(t[i]) != id {
          assert t[i] == s[i + 1];
        }
      }
      RemoveAbsent(t, id);
      assert [s[0]] + t == s;
    }
  }

  /** Removing the id just added gives back the selection before the add. */
  lemma RemoveUndoesAdd(selection: seq<TeamEntry>, chosen: Option<Id>, roster: seq<Choice>)
    requires AddSelection(selection, chosen, roster).Appended?
    ensures RemoveSelection(AddSelection(selection, chosen, roster).selection, chosen) == selection
  {
    var s := AddSelection(selection, chosen, roster).selection;
    var e := s[|selection|];
    assert s == selection + [e];
    DefinedIdsAt(selection, chosen.value);
    RemoveDistributes(selection, [e], chosen);
    RemoveAbsent(selection, chosen);
    assert RemoveSelection([e], chosen) == [];
  }

  /** A removal keeps the selection free of duplicates and takes exactly the given id out of it. */
  lemma {:induction false} RemoveDropsId(selection: seq<TeamEntry>, m: Id)
    requires DistinctIds(selection)
    ensures DistinctIds(RemoveSelection(selection, Some(m)))
    ensures DefinedIds(RemoveSelection(selection, Some(m))) == DefinedIds(selection) - {m}
  {
    if selection != [] {
      var e := selection[0];
      var tail := selection[1..];
      assert DistinctIds(tail) by {
        forall i, j | 0 <= i < j < |tail| && IdField(tail[i]).Some?
          ensures IdField(tail[i]) != IdField(tail[j])
        {
          assert tail[i] == selection[i + 1] && tail[j] == selection[j + 1];
        }
      }
      RemoveDropsId(tail, m);
      DefinedIdsCons(selection);
      var rest := RemoveSelection(tail, Some(m));
      if IdField(e) != Some(m) {
        var r := [e] + rest;
        assert r[1..] == rest;
        DefinedIdsCons(r);
        forall i, j | 0 <= i < j < |r| && IdField(r[i]).Some?
          ensures IdField(r[i]) != IdField(r[j])
        {
          if i == 0 {
            assert r[j] in tail;
            var k :| 0 <= k < |tail| && tail[k] == r[j];
            assert selection[k + 1] == r[j];
          } else {
            assert r[i] == rest[i - 1] && r[j] == rest[j - 1];
          }
        }
      }
    }
  }

  // ---------------------------------------------------------------------------
  // Loading a project's team into the selection
  // ---------------------------------------------------------------------------

  /**
   * The selection as the page builds it from a listed project
   * (`project.team_members || []`): the `{id, name, role}` objects are kept
   * as they are, so none of them carries a `team_member_id`.
   */
  function LoadedEntries(listing: seq<TeamListing>): (r: seq<TeamEntry>)
    ensures |r| == |listing|
    ensures forall i :: 0 <= i < |r| ==> r[i].Listed? && r[i].id == listing[i].id
    ensures DefinedIds(r) == {}
  {
    seq(|listing|, i requires 0 <= i < |listing| => Listed(listing[i].id, listing[i].name, listing[i].role))
  }

  /**
   * The selection built from a listed project with each member turned into
   * the `{team_member_id, team_member_name}` shape the handlers read.
   */
  function MemberEntries(listing: seq<TeamListing>): (r: seq<TeamEntry>)
    ensures |r| == |listing|
    ensures forall i :: 0 <= i < |r| ==> IdField(r[i]) == Some(listing[i].id)
    ensures forall m :: m in DefinedIds(r) <==> exists i :: 0 <= i < |listing| && listing[i].id == m
  {
    var r := seq(|listing|, i requires 0 <= i < |listing| => Chosen(listing[i].id, listing[i].name));
    forall m | m in DefinedIds(r) ensures exists i :: 0 <= i < |listing| && listing[i].id == m {
      DefinedIdsAt(r, m);
    }
    forall m | exists i :: 0 <= i < |listing| && listing[i].id == m ensures m in DefinedIds(r) {
      var i :| 0 <= i < |listing| && listing[i].id == m;
      assert r[i] in r;
    }
    r
  }

  /** A listing without repeated ids gives a selection without repeated ids. */
  lemma MemberEntriesDistinct(listing: seq<TeamListing>)
    requires forall i, j :: 0 <= i < j < |listing| ==> listing[i].id != listing[j].id
    ensures DistinctIds(MemberEntries(listing))
  {
  }

  // ---------------------------------------------------------------------------
  // Saving the team (handleSaveTeamMembers)
  // ---------------------------------------------------------------------------

  /** The role the save posts for every member. */
  const SaveRole: string := "Member"

  /** A request the save sends: a DELETE of a pair or a POST of a pair. */
  datatype Request = DeleteRequest(project: Id, member: Option<Id>) | PostRequest(project: Id, member: Option<Id>, role: string)

  /**
   * The requests of a save that nothing aborts: one DELETE per entry of the
   * project's current team, then one POST per selected entry, each in list
   * order, whether or not the member is in both lists.
   */
  function FullReplace(p: Id, current: seq<TeamEntry>, selected: seq<TeamEntry>): (r: seq<Request>)
    ensures |r| == |current| + |selected|
    ensures forall i :: 0 <= i < |current| ==> r[i] == DeleteRequest(p, IdField(current[i]))
    ensures forall j :: 0 <= j < |selected| ==> r[|current| + j] == PostRequest(p, IdField(selected[j]), SaveRole)
  {
    seq(|current| + |selected|, i requires 0 <= i < |current| + |selected| =>
      if i < |current| then DeleteRequest(p, IdField(current[i]))
      else PostRequest(p, IdField(selected[i - |current|]), SaveRole))
  }

  /**
   * The join table after the DELETE requests: project `p` loses the members
   * whose ids the current entries carry (a DELETE of a pair that is not
   * assigned, or of `.../team/undefined`, changes nothing).
   */
  function AfterDeletes(team: map<Pair, string>, p: Id, current: seq<TeamEntry>): (r: map<Pair, string>)
    ensures forall k :: k in r <==> k in team && !(k.0 == p && k.1 in DefinedIds(current))
    ensures forall k :: k in r ==> r[k] == team[k]
  {
    map k | k in team && !(k.0 == p && k.1 in DefinedIds(current)) :: team[k]
  }

  /** How far the POST loop got: whether all succeeded, how many were sent, the resulting join table. */
  datatype Replay = Replay(ok: bool, posted: nat, team: map<Pair, string>)

  /**
   * The backend accepts the POST of `e` against the join table `team`: the
   * project exists, the entry carries the id of an existing member, and
   * that pair is not assigned yet.
   */
  predicate Assignable(team: map<Pair, string>, projects: map<Id, ProjectRow>, members: map<Id, string>,
                       p: Id, e: TeamEntry) {
    p in projects && IdField(e).Some? && IdField(e).value in members && (p, IdField(e).value) !in team
  }

  /** The join table with project `p` given the members `ids` (role "Member") on top of what it has. */
  function WithMembers(team: map<Pair, string>, p: Id, ids: set<Id>): (r: map<Pair, string>)
    ensures forall k :: k in r <==> k in team || (k.0 == p && k.1 in ids)
    ensures forall m :: m in ids ==> r[(p, m)] == SaveRole
    ensures forall k :: k in team && !(k.0 == p && k.1 in ids) ==> r[k] == team[k]
  {
    team + map m | m in ids :: (p, m) := SaveRole
  }

  lemma WithNoMembers(team: map<Pair, string>, p: Id)
    ensures WithMembers(team, p, {}) == team
  {
  }

  lemma WithMembersInsert(team: map<Pair, string>, p: Id, m: Id, ids: set<Id>)
    ensures WithMembers(team[(p, m) := SaveRole], p, ids) == WithMembers(team, p, {m} + ids)
  {
    var a := WithMembers(team[(p, m) := SaveRole], p, ids);
    var b := WithMembers(team, p, {m} + ids);
    forall k | k in a ensures k in b && a[k] == b[k] {
      WithMembersInsertAt(team, p, m, ids, k);
    }
    assert a.Keys == b.Keys;
  }

  lemma WithMembersInsertAt(team: map<Pair, string>, p: Id, m: Id, ids: set<Id>, k: Pair)
    requires k in WithMembers(team[(p, m) := SaveRole], p, ids)
    ensures k in WithMembers(team, p, {m} + ids)
    ensures WithMembers(team[(p, m) := SaveRole], p, ids)[k] == WithMembers(team, p, {m} + ids)[k]
  {
    if !(k.0 == p && k.1 in {m} + ids) {
      assert WithMembers(team[(p, m) := SaveRole], p, ids)[k] == team[(p, m) := SaveRole][k];
    }
  }

  /** Adding members to `p` changes the membership of `p` only, by exactly those members. */
  lemma MembersWithMembers(team: map<Pair, string>, p: Id, ids: set<Id>, q: Id)
    ensures MembersOf(WithMembers(team, p, ids), q) == MembersOf(team, q) + (if q == p then ids else {})
  {
    var after := WithMembers(team, p, ids);
    forall x | x in MembersOf(after, q) ensures x in MembersOf(team, q) + (if q == p then ids else {}) {
      if (q, x) in team {
        assert x in MembersOf(team, q);
      }
    }
    forall x | x in MembersOf(team, q) + (if q == p then ids else {}) ensures x in MembersOf(after, q) {
      assert (q, x) in after;
    }
  }

  /**
   * The POST loop against the join table: each selected entry is assigned in
   * order, and the first POST the backend refuses (unknown project, no or an
   * unknown `team_member_id`, a pair already assigned) ends the loop.
   */
  function PostAll(team: map<Pair, string>, projects: map<Id, ProjectRow>, members: map<Id, string>,
                   p: Id, selected: seq<TeamEntry>): (r: Replay)
    ensures r.posted <= |selected|
    ensures r.ok ==> r.posted == |selected|
    ensures !r.ok ==> 1 <= r.posted
    decreases |selected|
  {
    if selected == [] then Replay(true, 0, team)
    else if Assignable(team, projects, members, p, selected[0]) then
      var m := IdField(selected[0]).value;
      var rest := PostAll(team[(p, m) := SaveRole], projects, members, p, selected[1..]);
      Replay(rest.ok, rest.posted + 1, rest.team)
    else
      Replay(false, 1, team)
  }

  /** How many POSTs of a replay were accepted. */
  function Accepted(r: Replay): (n: nat)
    requires r.ok || r.posted >= 1
    ensures n <= r.posted && (r.ok ==> n == r.posted) && (!r.ok ==> n + 1 == r.posted)
  {
    if r.ok then r.posted else r.posted - 1
  }

  /**
   * The join table after the first `k` entries are posted: the first entry
   * posted separately from the rest.
   */
  lemma PrefixShift(team: map<Pair, string>, p: Id, selected: seq<TeamEntry>, k: nat)
    requires selected != [] && selected[0].Chosen? && 1 <= k <= |selected|
    ensures WithMembers(team[(p, selected[0].teamMemberId) := SaveRole], p, DefinedIds(selected[1..][..k - 1]))
            == WithMembers(team, p, DefinedIds(selected[..k]))
  {
    PrefixIds(selected, k);
    WithMembersInsert(team, p, selected[0].teamMemberId, DefinedIds(selected[1..][..k - 1]));
  }

  /** The ids of the first `k` entries: the first entry's and those of the next `k - 1`. */
  lemma PrefixIds(selected: seq<TeamEntry>, k: nat)
    requires selected != [] && selected[0].Chosen? && 1 <= k <= |selected|
    ensures DefinedIds(selected[..k]) == {selected[0].teamMemberId} + DefinedIds(selected[1..][..k - 1])
  {
    PrefixTail(selected, k);
    DefinedIdsCons(selected[..k]);
  }

  lemma PrefixTail(selected: seq<TeamEntry>, k: nat)
    requires 1 <= k <= |selected|
    ensures selected[..k] != [] && selected[..k][0] == selected[0] && selected[..k][1..] == selected[1..][..k - 1]
  {
  }

  /** A replay whose first POST was accepted: the rest of it, shifted by one. */
  lemma AcceptedFirst(team: map<Pair, string>, projects: map<Id, ProjectRow>,
                      members: map<Id, string>, p: Id, selected: seq<TeamEntry>)
    requires selected != [] && Assignable(team, projects, members, p, selected[0])
    ensures selected[0].Chosen?
    ensures var r := PostAll(team, projects, members, p, selected);
            var rest := PostAll(team[(p, selected[0].teamMemberId) := SaveRole], projects, members, p, selected[1..]);
            r == Replay(rest.ok, rest.posted + 1, rest.team) && Accepted(r) == Accepted(rest) + 1
  {
  }

  /** The join table a replay leaves: project `p` given the ids of the accepted entries. */
  lemma {:induction false} PostAllTeam(team: map<Pair, string>, projects: map<Id, ProjectRow>,
                                       members: map<Id, string>, p: Id, selected: seq<TeamEntry>)
    ensures var r := PostAll(team, projects, members, p, selected);
            r.team == WithMembers(team, p, DefinedIds(selected[..Accepted(r)]))
    decreases |selected|
  {
    if selected != [] && Assignable(team, projects, members, p, selected[0]) {
      AcceptedFirst(team, projects, members, p, selected);
      var after := team[(p, selected[0].teamMemberId) := SaveRole];
      PostAllTeam(after, projects, members, p, selected[1..]);
      PrefixShift(team, p, selected, Accepted(PostAll(after, projects, members, p, selected[1..])) + 1);
    } else {
      assert selected[..0] == [];
      WithNoMembers(team, p);
    }
  }

  lemma StepAssignable(team: map<Pair, string>, projects: map<Id, ProjectRow>,
                       members: map<Id, string>, p: Id, selected: seq<TeamEntry>, n: nat)
    requires selected != [] && selected[0].Chosen? && Assignable(team, projects, members, p, selected[0])
    requires n < |selected|
    requires forall k :: 0 <= k < n ==>
               Assignable(WithMembers(team[(p, selected[0].teamMemberId) := SaveRole], p, DefinedIds(selected[1..][..k])),
                          projects, members, p, selected[1..][k])
    ensures forall k :: 0 <= k < n + 1 ==>
              Assignable(WithMembers(team, p, DefinedIds(selected[..k])), projects, members, p, selected[k])
  {
    forall k | 0 <= k < n + 1
      ensures Assignable(WithMembers(team, p, DefinedIds(selected[..k])), projects, members, p, selected[k])
    {
      if k == 0 {
        assert selected[..0] == [];
        WithNoMembers(team, p);
      } else {
        PrefixShift(team, p, selected, k);
        assert selected[1..][k - 1] == selected[k];
      }
    }
  }

  /** Every accepted entry of a replay was assignable on the join table the earlier POSTs left. */
  lemma {:induction false} PostAllSteps(team: map<Pair, string>, projects: map<Id, ProjectRow>,
                                        members: map<Id, string>, p: Id, selected: seq<TeamEntry>)
    ensures var r := PostAll(team, projects, members, p, selected);
            forall k :: 0 <= k < Accepted(r) ==>
              Assignable(WithMembers(team, p, DefinedIds(selected[..k])), projects, members, p, selected[k])
    decreases |selected|
  {
    if selected != [] && Assignable(team, projects, members, p, selected[0]) {
      AcceptedFirst(team, projects, members, p, selected);
      var after := team[(p, selected[0].teamMemberId) := SaveRole];
      PostAllSteps(after, projects, members, p, selected[1..]);
      StepAssignable(team, projects, members, p, selected, Accepted(PostAll(after, projects, members, p, selected[1..])));
    }
  }

  lemma StepRefused(team: map<Pair, string>, projects: map<Id, ProjectRow>,
                    members: map<Id, string>, p: Id, selected: seq<TeamEntry>, n: nat)
    requires selected != [] && selected[0].Chosen? && n + 1 < |selected|
    requires !Assignable(WithMembers(team[(p, selected[0].teamMemberId) := SaveRole], p, DefinedIds(selected[1..][..n])),
                         projects, members, p, selected[1..][n])
    ensures !Assignable(WithMembers(team, p, DefinedIds(selected[..n + 1])), projects, members, p, selected[n + 1])
  {
    PrefixShift(team, p, selected, n + 1);
    assert selected[1..][n] == selected[n + 1];
  }

  /** A replay that fails stops at the entry after the accepted ones, which is not assignable on the table they left. */
  lemma {:induction false} PostAllRefusal(team: map<Pair, string>, projects: map<Id, ProjectRow>,
                                          members: map<Id, string>, p: Id, selected: seq<TeamEntry>)
    ensures var r := PostAll(team, projects, members, p, selected);
            !r.ok ==> !Assignable(WithMembers(team, p, DefinedIds(selected[..Accepted(r)])), projects, members, p,
                                  selected[Accepted(r)])
    decreases |selected|
  {
    if selected != [] && Assignable(team, projects, members, p, selected[0]) {
      AcceptedFirst(team, projects, members, p, selected);
      var after := team[(p, selected[0].teamMemberId) := SaveRole];
      PostAllRefusal(after, projects, members, p, selected[1..]);
      var rest := PostAll(after, projects, members, p, selected[1..]);
      if !rest.ok {
        StepRefused(team, projects, members, p, selected, Accepted(rest));
      }
    } else if selected != [] {
      assert selected[..0] == [];
      WithNoMembers(team, p);
    }
  }

  /** The POST loop succeeds exactly when every selected entry is assignable on the table the earlier POSTs left. */
  lemma PostAllSucceedsIff(team: map<Pair, string>, projects: map<Id, ProjectRow>,
                           members: map<Id, string>, p: Id, selected: seq<TeamEntry>)
    ensures PostAll(team, projects, members, p, selected).ok <==>
              forall k :: 0 <= k < |selected| ==>
                Assignable(WithMembers(team, p, DefinedIds(selected[..k])), projects, members, p, selected[k])
  {
    PostAllSteps(team, projects, members, p, selected);
    PostAllRefusal(team, projects, members, p, selected);
  }

  /**
   * The members the POST loop leaves: project `p` gains the ids of the
   * accepted entries (all the selected ids when the loop succeeds), and no
   * other project changes.
   */
  lemma PostAllMembers(team: map<Pair, string>, projects: map<Id, ProjectRow>,
                       members: map<Id, string>, p: Id, selected: seq<TeamEntry>, q: Id)
    ensures var r := PostAll(team, projects, members, p, selected);
            MembersOf(r.team, q) == MembersOf(team, q) + (if q == p then DefinedIds(selected[..Accepted(r)]) else {})
    ensures var r := PostAll(team, projects, members, p, selected);
            r.ok ==> MembersOf(r.team, p) == MembersOf(team, p) + DefinedIds(selected)
  {
    var r := PostAll(team, projects, members, p, selected);
    PostAllTeam(team, projects, members, p, selected);
    MembersWithMembers(team, p, DefinedIds(selected[..Accepted(r)]), q);
    MembersWithMembers(team, p, DefinedIds(selected[..Accepted(r)]), p);
    assert selected[..|selected|] == selected;
  }

  lemma AfterDeletesStep(team: map<Pair, string>, p: Id, s: seq<TeamEntry>, e: TeamEntry)
    ensures AfterDeletes(team, p, s + [e]) ==
            if e.Chosen? then AfterDeletes(team, p, s) - {(p, e.teamMemberId)} else AfterDeletes(team, p, s)
  {
    DefinedIdsAppend(s, e);
  }

  /**
   * One DELETE of the save, its reply ignored: the pair of an entry that
   * carries an id is no longer assigned; `.../team/undefined` changes nothing.
   */
  method DeleteEntry(store: Store, p: Id, e: TeamEntry)
    requires store.Valid()
    modifies store
    ensures store.Valid()
    ensures store.clients == old(store.clients) && store.members == old(store.members)
    ensures store.projects == old(store.projects) && store.payments == old(store.payments)
    ensures store.nextProjectId == old(store.nextProjectId)
    ensures store.team == if e.Chosen? then old(store.team) - {(p, e.teamMemberId)} else old(store.team)
  {
    if e.Chosen? {
      var outcome := store.RemoveTeamMember(p, e.teamMemberId);
      if outcome.Failed? {
        assert (p, e.teamMemberId) !in old(store.team);
        assert old(store.team) - {(p, e.teamMemberId)} == old(store.team);
      }
    }
  }

  /** The DELETE loop of the save: one request per current entry, replies ignored. */
  method SendDeletes(store: Store, p: Id, current: seq<TeamEntry>) returns (sent: seq<Request>)
    requires store.Valid()
    modifies store
    ensures store.Valid()
    ensures store.clients == old(store.clients) && store.members == old(store.members)
    ensures store.projects == old(store.projects) && store.payments == old(store.payments)
    ensures store.nextProjectId == old(store.nextProjectId)
    ensures store.team == AfterDeletes(old(store.team), p, current)
    ensures |sent| == |current| && forall k :: 0 <= k < |current| ==> sent[k] == DeleteRequest(p, IdField(current[k]))
  {
    sent := [];
    var i := 0;
    while i < |current|
      invariant 0 <= i <= |current|
      invariant store.Valid()
      invariant store.clients == old(store.clients) && store.members == old(store.members)
      invariant store.projects == old(store.projects) && store.payments == old(store.payments)
      invariant store.nextProjectId == old(store.nextProjectId)
      invariant store.team == AfterDeletes(old(store.team), p, current[..i])
      invariant |sent| == i && forall k :: 0 <= k < i ==> sent[k] == DeleteRequest(p, IdField(current[k]))
    {
      var e := current[i];
      assert current[..i + 1] == current[..i] + [e];
      AfterDeletesStep(old(store.team), p, current[..i], e);
      DeleteEntry(store, p, e);
      sent := sent + [DeleteRequest(p, IdField(e))];
      i := i + 1;
    }
    assert current[..|current|] == current;
  }

  /** The POST loop of the save: one request per selected entry until the first refused one. */
  method SendPosts(store: Store, p: Id, selected: seq<TeamEntry>) returns (ok: bool, sent: seq<Request>)
    requires store.Valid()
    modifies store
    ensures store.Valid()
    ensures store.clients == old(store.clients) && store.members == old(store.members)
    ensures store.projects == old(store.projects) && store.payments == old(store.payments)
    ensures store.nextProjectId == old(store.nextProjectId)
    ensures var r := PostAll(old(store.team), old(store.projects), old(store.members), p, selected);
            ok == r.ok && store.team == r.team && |sent| == r.posted
    ensures forall k :: 0 <= k < |sent| ==> sent[k] == PostRequest(p, IdField(selected[k]), SaveRole)
  {
    ghost var result := PostAll(store.team, store.projects, store.members, p, selected);
    sent := [];
    ok := true;
    var j := 0;
    while j < |selected|
      invariant 0 <= j <= |selected|
      invariant store.Valid()
      invariant store.clients == old(store.clients) && store.members == old(store.members)
      invariant store.projects == old(store.projects) && store.payments == old(store.payments)
      invariant store.nextProjectId == old(store.nextProjectId)
      invariant ok
      invariant var r := PostAll(store.team, store.projects, store.members, p, selected[j..]);
                result == Replay(r.ok, j + r.posted, r.team)
      invariant |sent| == j && forall k :: 0 <= k < j ==> sent[k] == PostRequest(p, IdField(selected[k]), SaveRole)
    {
      var e := selected[j];
      assert selected[j..][0] == e && selected[j..][1..] == selected[j + 1..];
      var outcome := store.AssignTeamMember(p, IdField(e), Some(SaveRole));
      sent := sent + [PostRequest(p, IdField(e), SaveRole)];
      if outcome.Failed? {
        ok := false;
        break;
      }
      j := j + 1;
    }
    assert ok ==> selected[j..] == [];
  }

  /**
   * `handleSaveTeamMembers` against the backend store: first a DELETE for
   * every entry of the project's current team, whose replies are ignored;
   * then a POST (role "Member") for every selected entry, stopping at the
   * first one that fails. `sent` is the requests in the order they are
   * sent; `ok` is whether the page reports success.
   */
  method SaveTeamMembers(store: Store, p: Id, current: seq<TeamEntry>, selected: seq<TeamEntry>)
    returns (ok: bool, sent: seq<Request>)
    requires store.Valid()
    modifies store
    ensures store.Valid()
    ensures store.clients == old(store.clients) && store.members == old(store.members)
    ensures store.projects == old(store.projects) && store.payments == old(store.payments)
    ensures store.nextProjectId == old(store.nextProjectId)
    ensures var r := PostAll(AfterDeletes(old(store.team), p, current), old(store.projects), old(store.members), p, selected);
            ok == r.ok && store.team == r.team && sent == FullReplace(p, current, selected)[..|current| + r.posted]
  {
    var deletes := SendDeletes(store, p, current);
    var posts;
    ok, posts := SendPosts(store, p, selected);
    sent := deletes + posts;
    ghost var full := FullReplace(p, current, selected);
    assert |sent| == |current| + |posts|;
    assert forall k :: 0 <= k < |sent| ==> sent[k] == full[k] by {
      forall k | 0 <= k < |sent| ensures sent[k] == full[k] {
        if k >= |current| {
          assert sent[k] == posts[k - |current|];
        }
      }
    }
  }

  /**
   * When every selected entry names an existing member, no id repeats and
   * none is still assigned, all POSTs succeed and the project gains exactly
   * those members; no other project changes.
   */
  lemma {:induction false} PostAllAssigns(team: map<Pair, string>, projects: map<Id, ProjectRow>,
                                          members: map<Id, string>, p: Id, selected: seq<TeamEntry>)
    requires p in projects
    requires forall i :: 0 <= i < |selected| ==> selected[i].Chosen? && selected[i].teamMemberId in members
    requires DistinctIds(selected)
    requires forall m :: m in DefinedIds(selected) ==> (p, m) !in team
    ensures PostAll(team, projects, members, p, selected).ok
    ensures MembersOf(PostAll(team, projects, members, p, selected).team, p) == MembersOf(team, p) + DefinedIds(selected)
    ensures forall q :: q != p ==> MembersOf(PostAll(team, projects, members, p, selected).team, q) == MembersOf(team, q)
    decreases |selected|
  {
    if selected != [] {
      var m := selected[0].teamMemberId;
      DefinedIdsCons(selected);
      var after := team[(p, m) := SaveRole];
      forall x | x in DefinedIds(selected[1..]) ensures (p, x) !in after {
        DefinedIdsAt(selected[1..], x);
        var i :| 0 <= i < |selected[1..]| && IdField(selected[1..][i]) == Some(x);
        assert IdField(selected[0]) != IdField(selected[i + 1]);
      }
      forall i, j | 0 <= i < j < |selected[1..]| && IdField(selected[1..][i]).Some?
        ensures IdField(selected[1..][i]) != IdField(selected[1..][j])
      {
        assert selected[1..][i] == selected[i + 1] && selected[1..][j] == selected[j + 1];
      }
      PostAllAssigns(after, projects, members, p, selected[1..]);
      forall q ensures MembersOf(after, q) == MembersOf(team, q) + (if q == p then {m} else {}) {
        MembersAfterInsert(team, p, m, SaveRole, q);
      }
    }
  }

  /**
   * A save converges when the current list names every member the project
   * has and the selection is clean: afterwards the project's members are
   * exactly the selected ids, and no other project changes.
   */
  lemma SaveConverges(team: map<Pair, string>, projects: map<Id, ProjectRow>, members: map<Id, string>,
                      p: Id, current: seq<TeamEntry>, selected: seq<TeamEntry>)
    requires p in projects
    requires MembersOf(team, p) <= DefinedIds(current)
    requires forall i :: 0 <= i < |selected| ==> selected[i].Chosen? && selected[i].teamMemberId in members
    requires DistinctIds(selected)
    ensures PostAll(AfterDeletes(team, p, current), projects, members, p, selected).ok
    ensures MembersOf(PostAll(AfterDeletes(team, p, current), projects, members, p, selected).team, p) == DefinedIds(selected)
    ensures forall q :: q != p ==>
              MembersOf(PostAll(AfterDeletes(team, p, current), projects, members, p, selected).team, q) == MembersOf(team, q)
  {
    var cleared := AfterDeletes(team, p, current);
    assert MembersOf(cleared, p) == {};
    forall q | q != p ensures MembersOf(cleared, q) == MembersOf(team, q) {
      forall x | x in MembersOf(team, q) ensures x in MembersOf(cleared, q) {
        assert (q, x) in cleared;
      }
    }
    PostAllAssigns(cleared, projects, members, p, selected);
  }

  /** A selected entry without a `team_member_id` makes its POST fail, so the save reports an error. */
  lemma {:induction false} PostAllFailsOnListedEntry(team: map<Pair, string>, projects: map<Id, ProjectRow>,
                                                     members: map<Id, string>, p: Id, selected: seq<TeamEntry>, i: nat)
    requires i < |selected| && selected[i].Listed?
    ensures !PostAll(team, projects, members, p, selected).ok
    ensures PostAll(team, projects, members, p, selected).posted <= i + 1
    decreases i
  {
    if i > 0 && Assignable(team, projects, members, p, selected[0]) {
      var m := IdField(selected[0]).value;
      PostAllFailsOnListedEntry(team[(p, m) := SaveRole], projects, members, p, selected[1..], i - 1);
    }
  }

  // ---------------------------------------------------------------------------
  // The project form (handleEditProject, handleSubmit)
  // ---------------------------------------------------------------------------

  /** A row of `GET /api/projects`, reduced to what the form reads. */
  datatype ProjectListing = ProjectListing(
    id: Id,
    name: string,
    clientId: Id,
    description: Option<string>,
    status: string,
    teamMembers: seq<TeamListing>)

  /** `formData` of the project dialog; a None client is the empty dropdown. */
  datatype ProjectForm = ProjectForm(name: string, clientId: Option<Id>, description: string, status: string)

  /** The form `handleEditProject` fills in: an absent description becomes '', an empty status "Ongoing". */
  function EditForm(project: ProjectListing): (f: ProjectForm)
    ensures f.name == project.name && f.clientId == Some(project.clientId)
    ensures f.status != "" && (project.status != "" ==> f.status == project.status)
    ensures project.status == "" ==> f.status == DefaultStatus
    ensures project.description.Some? ==> f.description == project.description.value
    ensures project.description.None? ==> f.description == ""
  {
    var status := if project.status == "" then DefaultStatus else project.status;
    ProjectForm(project.name, Some(project.clientId), project.description.GetOr(""), status)
  }

  /**
   * `handleEditProject` as written: the form takes the project's fields and
   * the selection its listed team as it is, so no entry carries a
   * `team_member_id`.
   */
  function EditProject(project: ProjectListing): (r: (ProjectForm, seq<TeamEntry>))
    ensures r.0 == EditForm(project)
    ensures |r.1| == |project.teamMembers|
    ensures forall i :: 0 <= i < |r.1| ==> r.1[i].Listed? && r.1[i].id == project.teamMembers[i].id
    ensures DefinedIds(r.1) == {}
  {
    (EditForm(project), LoadedEntries(project.teamMembers))
  }

  /**
   * `handleEditProject` with the loaded team turned into the
   * `{team_member_id, team_member_name}` shape the handlers and
   * `update_project` read.
   */
  function EditProjectNormalized(project: ProjectListing): (r: (ProjectForm, seq<TeamEntry>))
    ensures r.0 == EditForm(project)
    ensures |r.1| == |project.teamMembers|
    ensures forall i :: 0 <= i < |r.1| ==> IdField(r.1[i]) == Some(project.teamMembers[i].id)
  {
    (EditForm(project), MemberEntries(project.teamMembers))
  }

  /**
   * `handleSubmit`: refused when the name or the client is empty; otherwise
   * the form's fields and, in selection order, each entry's
   * `team_member_id`.
   */
  function ProjectPayload(f: ProjectForm, selection: seq<TeamEntry>): (r: Option<ProjectRequest>)
    ensures r.None? <==> f.name == "" || f.clientId.None?
    ensures r.Some? ==> r.value.name == Some(f.name) && r.value.clientId == f.clientId
    ensures r.Some? ==> r.value.description == Some(f.description) && r.value.status == Some(f.status)
    ensures r.Some? ==> |r.value.teamMembers| == |selection|
    ensures r.Some? ==> forall i :: 0 <= i < |selection| ==> r.value.teamMembers[i] == IdField(selection[i])
  {
    if f.name == "" || f.clientId.None? then None
    else
      var ids := seq(|selection|, i requires 0 <= i < |selection| => IdField(selection[i]));
      Some(ProjectRequest(Some(f.name), f.clientId, Some(f.description), Some(f.status), ids))
  }

  /**
   * The payload of a selection of members in the handlers' shape is fully
   * keyed, and the members `update_project` keeps are the selected ids that
   * exist.
   */
  lemma PayloadMembers(f: ProjectForm, selection: seq<TeamEntry>, members: map<Id, string>)
    requires ProjectPayload(f, selection).Some?
    requires forall i :: 0 <= i < |selection| ==> selection[i].Chosen?
    ensures AllKeyed(ProjectPayload(f, selection).value.teamMembers)
    ensures ExistingIds(ProjectPayload(f, selection).value.teamMembers, members) == DefinedIds(selection) * members.Keys
  {
    var ids := ProjectPayload(f, selection).value.teamMembers;
    forall m | m in DefinedIds(selection) * members.Keys ensures m in ExistingIds(ids, members) {
      DefinedIdsAt(selection, m);
      var i :| 0 <= i < |selection| && IdField(selection[i]) == Some(m);
      assert ids[i] == Some(m);
    }
    forall m | m in ExistingIds(ids, members) ensures m in DefinedIds(selection) {
      var i :| 0 <= i < |ids| && ids[i] == Some(m);
      assert selection[i] in selection;
    }
  }

  /** Editing a project and submitting unchanged keeps its team: the payload names exactly its listed members. */
  lemma EditKeepsTeam(project: ProjectListing, members: map<Id, string>)
    requires project.name != ""
    ensures ProjectPayload(EditProjectNormalized(project).0, EditProjectNormalized(project).1).Some?
    ensures AllKeyed(ProjectPayload(EditProjectNormalized(project).0, EditProjectNormalized(project).1).value.teamMembers)
    ensures forall m :: m in ExistingIds(ProjectPayload(EditProjectNormalized(project).0,
                                                        EditProjectNormalized(project).1).value.teamMembers, members)
              <==> m in members && exists i :: 0 <= i < |project.teamMembers| && project.teamMembers[i].id == m
  {
    var (f, s) := EditProjectNormalized(project);
    PayloadMembers(f, s, members);
  }

  // ---------------------------------------------------------------------------
  // The team-member field names as written
  // ---------------------------------------------------------------------------

  /**
   * As written, the team dialog is loaded with the listed `{id, name, role}`
   * objects. Project 1 has member 7; the user removes 7 and saves: the
   * remove click passes `undefined` and drops the entry, the DELETE goes to
   * `.../team/undefined`, no POST is sent, the page reports success, and 7
   * is still assigned.
   */
  lemma LoadedRemovalIsLost()
    ensures var team := map[(1, 7) := DefaultRole];
            var current := LoadedEntries([TeamListing(7, "Ann", DefaultRole)]);
            var selected := RemoveSelection(current, IdField(current[0]));
            var r := PostAll(AfterDeletes(team, 1, current), map[1 := ProjectRow("Site", 1, None, DefaultStatus)],
                             map[7 := "Ann"], 1, selected);
            selected == [] && r.ok && 7 in MembersOf(r.team, 1)
  {
    var team := map[(1, 7) := DefaultRole];
    var current := LoadedEntries([TeamListing(7, "Ann", DefaultRole)]);
    assert AfterDeletes(team, 1, current) == team;
    assert (1, 7) in team;
  }

  /**
   * As written, editing a project that has members and submitting sends
   * elements without `team_member_id`, which `update_project` refuses.
   */
  lemma LoadedEditPayloadUnkeyed(project: ProjectListing)
    requires project.name != "" && project.teamMembers != []
    ensures ProjectPayload(EditProject(project).0, EditProject(project).1).Some?
    ensures !AllKeyed(ProjectPayload(EditProject(project).0, EditProject(project).1).value.teamMembers)
  {
    var (f, s) := EditProject(project);
    assert ProjectPayload(f, s).value.teamMembers[0].None?;
  }

  /**
   * With the entries normalised, the same removal takes effect: the DELETE
   * of 7 lands and project 1 is left with no members.
   */
  lemma NormalizedRemovalApplies()
    ensures var team := map[(1, 7) := DefaultRole];
            var current := MemberEntries([TeamListing(7, "Ann", DefaultRole)]);
            var selected := RemoveSelection(current, IdField(current[0]));
            var r := PostAll(AfterDeletes(team, 1, current), map[1 := ProjectRow("Site", 1, None, DefaultStatus)],
                             map[7 := "Ann"], 1, selected);
            selected == [] && r.ok && MembersOf(r.team, 1) == {}
  {
    var team := map[(1, 7) := DefaultRole];
    var current := MemberEntries([TeamListing(7, "Ann", DefaultRole)]);
    var selected := RemoveSelection(current, IdField(current[0]));
    assert 7 in DefinedIds(current);
    SaveConverges(team, map[1 := ProjectRow("Site", 1, None, DefaultStatus)], map[7 := "Ann"], 1, current, selected);
  }

  /**
   * With the entries normalised, a save after loading a project's full team
   * leaves the project with exactly the selected members.
   */
  lemma SaveAfterLoadConverges(store: Store, p: Id, listing: seq<TeamListing>, selected: seq<TeamEntry>)
    requires p in store.projects
    requires store.ListsTeamOf(listing, p)
    requires forall i :: 0 <= i < |selected| ==> selected[i].Chosen? && selected[i].teamMemberId in store.members
    requires DistinctIds(selected)
    ensures PostAll(AfterDeletes(store.team, p, MemberEntries(listing)), store.projects, store.members, p, selected).ok
    ensures MembersOf(PostAll(AfterDeletes(store.team, p, MemberEntries(listing)), store.projects, store.members, p, selected).team, p)
            == DefinedIds(selected)
  {
    SaveConverges(store.team, store.projects, store.members, p, MemberEntries(listing), selected);
  }

  // ---------------------------------------------------------------------------
  // The payment summary of a project (generateProjectPDF)
  // ---------------------------------------------------------------------------

  /** A payment is the project's by `project_id`, or by equal non-empty names up to case. */
  function BelongsTo(x: PaymentListing, p: Id, name: string): (b: bool)
    ensures x.projectId == Some(p) ==> b
    ensures b && x.projectId != Some(p) ==> x.projectName != "" && name != "" && Lower(x.projectName) == Lower(name)
    ensures name == "" ==> (b <==> x.projectId == Some(p))
  {
    (x.projectId.Some? && x.projectId.value == p)
    || (x.projectName != "" && name != "" && SameText(x.projectName, name))
  }

  /** The payments of project `p` (named `name`), in listing order. */
  function PaymentsOfProject(rows: seq<PaymentListing>, p: Id, name: string): (r: seq<PaymentListing>)
    ensures forall x :: x in r <==> x in rows && BelongsTo(x, p, name)
    ensures forall x :: multiset(r)[x] == if BelongsTo(x, p, name) then multiset(rows)[x] else 0
    ensures |r| <= |rows|
  {
    if rows == [] then []
    else
      assert rows == [rows[0]] + rows[1..];
      if BelongsTo(rows[0], p, name) then [rows[0]] + PaymentsOfProject(rows[1..], p, name)
      else PaymentsOfProject(rows[1..], p, name)
  }

  function TotalOf(rows: seq<PaymentListing>): real {
    if rows == [] then 0.0 else rows[0].totalAmount + TotalOf(rows[1..])
  }

  function PaidOf(rows: seq<PaymentListing>): real {
    if rows == [] then 0.0 else rows[0].paidAmount + PaidOf(rows[1..])
  }

  function PendingOf(rows: seq<PaymentListing>): real {
    if rows == [] then 0.0 else rows[0].pendingAmount + PendingOf(rows[1..])
  }

  datatype PaymentSummary = PaymentSummary(totalAmount: real, paidAmount: real, pendingAmount: real)

  /**
   * `paymentInfo`: the total and paid amounts summed over the project's
   * payments, pending as their difference, all 0 when it has none.
   */
  function ProjectPaymentSummary(rows: seq<PaymentListing>, p: Id, name: string): (s: PaymentSummary)
    ensures s.totalAmount == TotalOf(PaymentsOfProject(rows, p, name))
    ensures s.paidAmount == PaidOf(PaymentsOfProject(rows, p, name))
    ensures s.pendingAmount == s.totalAmount - s.paidAmount
    ensures PaymentsOfProject(rows, p, name) == [] ==> s == PaymentSummary(0.0, 0.0, 0.0)
  {
    var matching := PaymentsOfProject(rows, p, name);
    if matching == [] then PaymentSummary(0.0, 0.0, 0.0)
    else
      var total := TotalOf(matching);
      var paid := PaidOf(matching);
      PaymentSummary(total, paid, total - paid)
  }

  /** On rows whose pending is total less paid, the summary's pending is the sum of their pending amounts. */
  lemma {:induction false} PendingOfConsistentRows(rows: seq<PaymentListing>)
    requires forall i :: 0 <= i < |rows| ==> rows[i].pendingAmount == rows[i].totalAmount - rows[i].paidAmount
    ensures PendingOf(rows) == TotalOf(rows) - PaidOf(rows)
  {
    if rows != [] {
      PendingOfConsistentRows(rows[1..]);
    }
  }

  lemma SummaryPendingIsSumOfPending(rows: seq<PaymentListing>, p: Id, name: string)
    requires forall i :: 0 <= i < |rows| ==> rows[i].pendingAmount == rows[i].totalAmount - rows[i].paidAmount
    ensures ProjectPaymentSummary(rows, p, name).pendingAmount == PendingOf(PaymentsOfProject(rows, p, name))
  {
    var matching := PaymentsOfProject(rows, p, name);
    assert forall i :: 0 <= i < |matching| ==> matching[i] in rows;
    PendingOfConsistentRows(matching);
  }

  /**
   * The backend's listing carries no `project_id`, so its payments are
   * matched to a project by name alone, and never to a project without one.
   */
  lemma ListedPaymentsMatchByName(rows: seq<PaymentListing>, p: Id, name: string)
    requires forall i :: 0 <= i < |rows| ==> rows[i].projectId.None?
    ensures forall x :: x in PaymentsOfProject(rows, p, name) <==>
              x in rows && x.projectName != "" && name != "" && SameText(x.projectName, name)
    ensures name == "" ==> ProjectPaymentSummary(rows, p, name) == PaymentSummary(0.0, 0.0, 0.0)
  {
  }
}
