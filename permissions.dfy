/** Authorization and row visibility: `GetPermission`, which decides whether a user may
    perform an action on a table, and `GetBranches`, the branches whose rows a user sees. */
module Permissions {
  import opened Base
  import opened Records

  /** The permission queries that can fail with a database error (as opposed to finding
      nothing). */
  datatype Faults = Faults(userLookup: bool, grantQuery: bool)

  /** A grant row that the permission query selects: same table and record, the action
      clause holds, and the grant is for the user's group or for the user. The action is
      bound as a query value, not a column name, so `actionClause` does not look at the row. */
  predicate GrantMatches(g: Grant, u: User, tbl: string, rec: int, act: string, actionClause: string -> bool)
  {
    g.tbl == tbl && g.rec == rec && actionClause(act) && (g.groupId == u.userGroup || g.userId == u.uid)
  }

  /** `db.First(&user, userId)`: the user with that primary key. */
  function FindUser(users: seq<User>, userId: int): Option<User>
  {
    First(users, (u: User) => u.uid == userId)
  }

  /** `GetPermission(userId, tbl, rec, act)`. */
  function GetPermission(users: seq<User>, grants: seq<Grant>, faults: Faults,
                         actionClause: string -> bool,
                         userId: int, tbl: string, rec: int, act: string): (r: bool)
    // fail closed: a failed or empty user lookup denies
    ensures faults.userLookup || FindUser(users, userId).None? ==> !r
    // administrators (group 1) are allowed everything
    ensures (!faults.userLookup && FindUser(users, userId).Some?
             && FindUser(users, userId).value.userGroup == 1) ==> r
    // everyone else needs a matching grant, and a failed grant query denies
    ensures (!faults.userLookup && FindUser(users, userId).Some?
             && FindUser(users, userId).value.userGroup != 1) ==>
              (r <==> !faults.grantQuery &&
                      exists i | 0 <= i < |grants| ::
                        GrantMatches(grants[i], FindUser(users, userId).value,
                                     tbl, rec, act, actionClause))
  {
    if faults.userLookup then false
    else
      match FindUser(users, userId)
      case None => false
      case Some(user) =>
        if user.userGroup == 1 then true
        else if faults.grantQuery then false
        else exists i | 0 <= i < |grants| :: GrantMatches(grants[i], user, tbl, rec, act, actionClause)
  }

  /** The grant rows with their action flag columns replaced: the permission decision does
      not change, because the query never reads those columns. */
  predicate SameScope(g: Grant, h: Grant)
  {
    g.tbl == h.tbl && g.rec == h.rec && g.groupId == h.groupId && g.userId == h.userId
  }

  lemma {:induction false} GrantFlagsIrrelevant(users: seq<User>, grants: seq<Grant>, other: seq<Grant>,
                                                faults: Faults, actionClause: string -> bool,
                                                userId: int, tbl: string, rec: int, act: string)
    requires |grants| == |other| && forall i | 0 <= i < |grants| :: SameScope(grants[i], other[i])
    ensures GetPermission(users, grants, faults, actionClause, userId, tbl, rec, act)
            == GetPermission(users, other, faults, actionClause, userId, tbl, rec, act)
  {
    var found := FindUser(users, userId);
    if !faults.userLookup && found.Some? && found.value.userGroup != 1 && !faults.grantQuery {
      var user := found.value;
      if exists i | 0 <= i < |grants| :: GrantMatches(grants[i], user, tbl, rec, act, actionClause) {
        var i :| 0 <= i < |grants| && GrantMatches(grants[i], user, tbl, rec, act, actionClause);
        assert GrantMatches(other[i], user, tbl, rec, act, actionClause);
      }
      if exists i | 0 <= i < |other| :: GrantMatches(other[i], user, tbl, rec, act, actionClause) {
        var i :| 0 <= i < |other| && GrantMatches(other[i], user, tbl, rec, act, actionClause);
        assert GrantMatches(grants[i], user, tbl, rec, act, actionClause);
      }
    }
  }

  /** When the action clause is false (as MySQL evaluates a non-numeric string compared
      with 1), only administrators are allowed anything. */
  lemma OnlyAdminsWithoutClause(users: seq<User>, grants: seq<Grant>, faults: Faults,
                                actionClause: string -> bool,
                                userId: int, tbl: string, rec: int, act: string)
    requires !actionClause(act)
    ensures GetPermission(users, grants, faults, actionClause, userId, tbl, rec, act) <==>
            !faults.userLookup && FindUser(users, userId).Some?
            && FindUser(users, userId).value.userGroup == 1
  {
  }

  /** The branches of the user's active staff-branch assignments, in table order. */
  function ActiveBranches(staff: seq<StaffBranch>, agent: int): (r: seq<int>)
    ensures forall b :: b in r <==> exists i | 0 <= i < |staff| ::
              staff[i].agent == agent && staff[i].status == 1 && staff[i].branch == b
  {
    if |staff| == 0 then []
    else
      var rest := ActiveBranches(staff[1..], agent);
      assert forall i | 1 <= i < |staff| :: staff[i] == staff[1..][i - 1];
      assert forall i | 0 <= i < |staff| - 1 :: staff[1..][i] == staff[i + 1];
      if staff[0].agent == agent && staff[0].status == 1 then [staff[0].branch] + rest else rest
  }

  /** The visible branches: [0] (meaning all) with read-all, else the active assignments
      with the user's own branch appended when it is positive and not among them. */
  function VisibleBranches(staff: seq<StaffBranch>, user: User, readAll: bool): seq<int>
  {
    if readAll then [0]
    else
      var active := ActiveBranches(staff, user.uid);
      if user.branch > 0 && user.branch !in active then active + [user.branch] else active
  }

  /** `GetBranches(c, user, readAll)`. */
  method GetBranches(staff: seq<StaffBranch>, user: User, readAll: bool) returns (branches: seq<int>)
    ensures branches == VisibleBranches(staff, user, readAll)
  {
    if readAll {
      branches := [0];
    } else {
      branches := ActiveBranches(staff, user.uid);
      var userBranch := user.branch;
      if userBranch > 0 {
        var found := false;
        var i := 0;
        while i < |branches|
          invariant 0 <= i <= |branches|
          invariant branches == ActiveBranches(staff, user.uid)
          invariant found <==> userBranch in branches[..i]
        {
          if branches[i] == userBranch {
            found := true;
            break;
          }
          i := i + 1;
        }
        assert branches[..|branches|] == branches;
        if !found {
          branches := branches + [userBranch];
        }
      }
    }
  }

  /** Without read-all a branch is visible iff the user is actively assigned to it or it is
      the user's own positive branch; the own branch is never listed more often than the
      assignments list it (and at least once). */
  lemma {:induction false} VisibleBranchesMembers(staff: seq<StaffBranch>, user: User, b: int)
    ensures b in VisibleBranches(staff, user, false) <==>
            (exists i | 0 <= i < |staff| :: staff[i].agent == user.uid && staff[i].status == 1 && staff[i].branch == b)
            || (b == user.branch && b > 0)
    ensures user.branch > 0 ==>
            multiset(VisibleBranches(staff, user, false))[user.branch]
            == (if user.branch in ActiveBranches(staff, user.uid)
                then multiset(ActiveBranches(staff, user.uid))[user.branch] else 1)
  {
    var active := ActiveBranches(staff, user.uid);
    if user.branch > 0 && user.branch !in active {
      assert multiset(active + [user.branch]) == multiset(active) + multiset{user.branch};
    }
  }

  /** With read-all the only "branch" is 0, which the lookups read as no restriction. */
  lemma ReadAllSeesAll(staff: seq<StaffBranch>, user: User)
    ensures VisibleBranches(staff, user, true) == [0]
  {
  }
}
