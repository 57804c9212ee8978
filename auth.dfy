/** Users, groups and the permission algebra of `onebase_api/models/auth.py`. */
module Auth {
  import opened Wrappers

  /** A group: its name and the permission strings it grants, in order. */
  datatype Group = Group(name: string, permissions: seq<string>)

  /** `onebase_common.settings.ADMIN_GROUPS`. The settings module is not part
      of this model; the tests rely on a group named "admin" being one. */
  const AdminGroups: set<string> := {"admin"}

  /** `all_permissions`: every group's permissions, in group order, duplicates kept. */
  function AllPermissionsOf(groups: seq<Group>): seq<string>
  {
    if groups == [] then []
    else AllPermissionsOf(groups[..|groups| - 1]) + groups[|groups| - 1].permissions
  }

  /** The list comprehension `[g for g in groups if g.name in ADMIN_GROUPS]`. */
  function AdminGroupsIn(groups: seq<Group>): seq<Group>
  {
    if groups == [] then []
    else (if groups[0].name in AdminGroups then [groups[0]] else []) + AdminGroupsIn(groups[1..])
  }

  /** `is_admin`: the comprehension above is non-empty. */
  predicate IsAdminOf(groups: seq<Group>)
  {
    |AdminGroupsIn(groups)| > 0
  }

  /** `can_any(*ps)`. */
  predicate CanAnyOf(groups: seq<Group>, ps: seq<string>)
  {
    IsAdminOf(groups) || exists i :: 0 <= i < |ps| && ps[i] in AllPermissionsOf(groups)
  }

  /** `can_all(*ps)`. */
  predicate CanAllOf(groups: seq<Group>, ps: seq<string>)
  {
    IsAdminOf(groups) || forall i :: 0 <= i < |ps| ==> ps[i] in AllPermissionsOf(groups)
  }

  class User {
    var groups: seq<Group>
    var apiKey: Option<string>

    constructor (groups: seq<Group>)
      ensures this.groups == groups && apiKey == None
    {
      this.groups := groups;
      apiKey := None;
    }

    /** `generate_api_key`: the random token is a parameter. */
    method GenerateApiKey(token: string)
      modifies this`apiKey
      ensures apiKey == Some(token)
    {
      apiKey := Some(token);
    }

    /** `all_permissions`: extends an accumulator group by group. */
    method AllPermissions() returns (perms: seq<string>)
      ensures perms == AllPermissionsOf(groups)
    {
      perms := [];
      var i := 0;
      while i < |groups|
        invariant 0 <= i <= |groups|
        invariant perms == AllPermissionsOf(groups[..i])
      {
        assert groups[..i + 1][..i] == groups[..i];
        perms := perms + groups[i].permissions;
        i := i + 1;
      }
      assert groups[..i] == groups;
    }

    /** `can_any`: admins pass; otherwise the first permission found wins. */
    method CanAny(ps: seq<string>) returns (r: bool)
      ensures r == CanAnyOf(groups, ps)
    {
      if IsAdminOf(groups) {
        return true;
      }
      var ap := AllPermissions();
      var i := 0;
      while i < |ps|
        invariant 0 <= i <= |ps|
        invariant forall j :: 0 <= j < i ==> ps[j] !in ap
      {
        if ps[i] in ap {
          return true;
        }
        i := i + 1;
      }
      return false;
    }

    /** `can_all`: admins pass; otherwise the first permission missing fails. */
    method CanAll(ps: seq<string>) returns (r: bool)
      ensures r == CanAllOf(groups, ps)
    {
      if IsAdminOf(groups) {
        return true;
      }
      var ap := AllPermissions();
      var i := 0;
      while i < |ps|
        invariant 0 <= i <= |ps|
        invariant forall j :: 0 <= j < i ==> ps[j] in ap
      {
        if ps[i] !in ap {
          return false;
        }
        i := i + 1;
      }
      return true;
    }
  }

  /** A permission is granted exactly when some group lists it. */
  lemma {:induction false} AllPermissionsMembership(groups: seq<Group>, p: string)
    ensures p in AllPermissionsOf(groups) <==> exists i :: 0 <= i < |groups| && p in groups[i].permissions
  {
    if groups != [] {
      var init := groups[..|groups| - 1];
      AllPermissionsMembership(init, p);
      if p in AllPermissionsOf(init) {
        var i :| 0 <= i < |init| && p in init[i].permissions;
        assert groups[i] == init[i];
      }
      if exists i :: 0 <= i < |groups| && p in groups[i].permissions {
        var i :| 0 <= i < |groups| && p in groups[i].permissions;
        if i < |init| {
          assert init[i] == groups[i];
        }
      }
    }
  }

  /** Nothing is merged or dropped: the list is as long as all groups' lists together. */
  function TotalPermissionCount(groups: seq<Group>): nat
  {
    if groups == [] then 0 else |groups[0].permissions| + TotalPermissionCount(groups[1..])
  }

  lemma {:induction false} AllPermissionsKeepsDuplicates(groups: seq<Group>)
    ensures |AllPermissionsOf(groups)| == TotalPermissionCount(groups)
  {
    if groups != [] {
      var init := groups[..|groups| - 1];
      AllPermissionsKeepsDuplicates(init);
      TotalCountSnoc(init, groups[|groups| - 1]);
      assert init + [groups[|groups| - 1]] == groups;
    }
  }

  lemma {:induction false} TotalCountSnoc(groups: seq<Group>, g: Group)
    ensures TotalPermissionCount(groups + [g]) == TotalPermissionCount(groups) + |g.permissions|
  {
    if groups != [] {
      assert (groups + [g])[1..] == groups[1..] + [g];
      TotalCountSnoc(groups[1..], g);
    }
  }

  /** `is_admin` holds iff some group's name is an admin group's name. */
  lemma {:induction false} IsAdminIff(groups: seq<Group>)
    ensures IsAdminOf(groups) <==> exists i :: 0 <= i < |groups| && groups[i].name in AdminGroups
  {
    if groups != [] {
      IsAdminIff(groups[1..]);
      if exists i :: 0 <= i < |groups[1..]| && groups[1..][i].name in AdminGroups {
        var i :| 0 <= i < |groups[1..]| && groups[1..][i].name in AdminGroups;
        assert groups[i + 1] == groups[1..][i];
      }
      if exists i :: 0 <= i < |groups| && groups[i].name in AdminGroups {
        var i :| 0 <= i < |groups| && groups[i].name in AdminGroups;
        if i > 0 {
          assert groups[1..][i - 1] == groups[i];
        }
      }
    }
  }

  /** An admin can do anything, even with an empty argument list. */
  lemma AdminCanEverything(groups: seq<Group>, ps: seq<string>)
    requires exists i :: 0 <= i < |groups| && groups[i].name in AdminGroups
    ensures CanAnyOf(groups, ps) && CanAllOf(groups, ps)
  {
    IsAdminIff(groups);
  }

  /** For a non-admin, `can_any()` is false and `can_all()` is true. */
  lemma EmptyArguments(groups: seq<Group>)
    requires !IsAdminOf(groups)
    ensures !CanAnyOf(groups, []) && CanAllOf(groups, [])
  {
  }

  /** For a non-empty argument list, `can_all` implies `can_any`. */
  lemma CanAllImpliesCanAny(groups: seq<Group>, ps: seq<string>)
    requires ps != []
    ensures CanAllOf(groups, ps) ==> CanAnyOf(groups, ps)
  {
    if CanAllOf(groups, ps) && !IsAdminOf(groups) {
      assert ps[0] in AllPermissionsOf(groups);
    }
  }

  /** The groups of the permission test: 'desktop' grants p1, 'another' grants p2. */
  lemma PermissionExamples()
    ensures var desktop := [Group("desktop", ["p1"]), Group("another", ["p2"])];
      && AllPermissionsOf(desktop) == ["p1", "p2"]
      && !IsAdminOf(desktop)
      && CanAllOf(desktop, ["p1", "p2"])
      && CanAnyOf(desktop, ["p1", "run_marathon"])
      && !CanAnyOf(desktop, ["save_the_world", "run_marathon"])
      && IsAdminOf([Group("admin", [])])
      && !CanAnyOf([], ["p1", "p2", "p3"])
  {
    var desktop := [Group("desktop", ["p1"]), Group("another", ["p2"])];
    assert desktop[..1] == [Group("desktop", ["p1"])];
    assert AllPermissionsOf(desktop) == ["p1", "p2"];
    assert "desktop" != "admin" && "another" != "admin";
    assert AdminGroupsIn(desktop) == [];
    assert "save_the_world" != "p1" && "save_the_world" != "p2";
    assert "run_marathon" != "p1" && "run_marathon" != "p2";
    assert ["p1", "run_marathon"][0] in AllPermissionsOf(desktop);
  }
}
