/**
 * `get_usernames`: the id -> name directory built from one `users.list`
 * response by a dict comprehension.
 */
module Directory {
  import opened SlackApi

  /** Python truthiness of an optional string: present and non-empty. */
  predicate Truthy(s: Option<string>) { s.Some? && s.value != "" }

  /**
   * `display_name or real_name or id`: a missing, null or empty display
   * name falls through to the real name, and likewise to the id.
   */
  function Name(m: Member): (r: string)
    ensures Truthy(m.profile.displayName) ==> r == m.profile.displayName.value
    ensures r == m.id || Truthy(m.profile.displayName)
      || (Truthy(m.profile.realName) && r == m.profile.realName.value)
    ensures r == "" ==> m.id == ""
  {
    if Truthy(m.profile.displayName) then m.profile.displayName.value
    else if Truthy(m.profile.realName) then m.profile.realName.value
    else m.id
  }

  /** No member after position i carries the id of member i. */
  predicate LastWithId(members: seq<Member>, i: nat)
    requires i < |members|
  {
    forall j :: i < j < |members| ==> members[j].id != members[i].id
  }

  /**
   * The comprehension `{user['id']: ... for user in members}`: it assigns
   * in list order, so for a repeated id the later member wins.
   */
  function NameMap(members: seq<Member>): (d: map<UserId, string>)
    ensures forall id :: id in d <==> exists i :: 0 <= i < |members| && members[i].id == id
    ensures forall i :: 0 <= i < |members| && LastWithId(members, i) ==> d[members[i].id] == Name(members[i])
  {
    if |members| == 0 then map[]
    else
      var last := members[|members| - 1];
      var d0 := NameMap(members[..|members| - 1]);
      assert forall i :: 0 <= i < |members| - 1 ==> members[..|members| - 1][i] == members[i];
      KeysStep(members, d0, d0[last.id := Name(last)]);
      NamesStep(members, d0);
      d0[last.id := Name(last)]
  }

  /** The last assignment of the comprehension adds the last member's id to the keys. */
  lemma KeysStep(members: seq<Member>, d0: map<UserId, string>, d: map<UserId, string>)
    requires |members| > 0
    requires forall id :: id in d0 <==> exists i :: 0 <= i < |members| - 1 && members[i].id == id
    requires d == d0[members[|members| - 1].id := Name(members[|members| - 1])]
    ensures forall id :: id in d <==> exists i :: 0 <= i < |members| && members[i].id == id
  {
    var init := members[..|members| - 1];
    forall id ensures id in d <==> exists i :: 0 <= i < |members| && members[i].id == id {
      if id in d0 {
        var i :| 0 <= i < |init| && members[i].id == id;
      }
      if exists i :: 0 <= i < |members| && members[i].id == id {
        var i :| 0 <= i < |members| && members[i].id == id;
      }
    }
  }

  /** The last assignment of the comprehension overwrites the name under the last member's id. */
  lemma NamesStep(members: seq<Member>, d0: map<UserId, string>)
    requires |members| > 0
    requires forall i :: 0 <= i < |members| - 1 && LastWithId(members[..|members| - 1], i) ==>
      members[i].id in d0 && d0[members[i].id] == Name(members[i])
    ensures var last := members[|members| - 1];
      forall i :: 0 <= i < |members| && LastWithId(members, i) ==>
        members[i].id in d0[last.id := Name(last)] && d0[last.id := Name(last)][members[i].id] == Name(members[i])
  {
    var init, last := members[..|members| - 1], members[|members| - 1];
    forall i | 0 <= i < |members| && LastWithId(members, i)
      ensures members[i].id in d0[last.id := Name(last)] && d0[last.id := Name(last)][members[i].id] == Name(members[i])
    {
      if i < |init| {
        assert LastWithId(init, i) by {
          forall j | i < j < |init| ensures init[j].id != init[i].id {
            assert init[j] == members[j];
          }
        }
      }
    }
  }

  /** `get_usernames`: the empty directory on a failed response, else the comprehension. */
  function GetUsernames(res: UserListResponse): (d: map<UserId, string>)
    ensures !res.ok ==> d == map[]
    ensures res.ok ==> forall id :: id in d <==> exists i :: 0 <= i < |res.members| && res.members[i].id == id
    ensures res.ok ==> forall i :: 0 <= i < |res.members| && LastWithId(res.members, i) ==>
      d[res.members[i].id] == Name(res.members[i])
  {
    if !res.ok then map[] else NameMap(res.members)
  }

  /**
   * Each name in the directory is the member's display name if it is
   * non-empty, else the real name if that is non-empty, else the id.
   */
  lemma NameFallback(res: UserListResponse, i: nat)
    requires res.ok && i < |res.members| && LastWithId(res.members, i)
    ensures var m, d := res.members[i], GetUsernames(res);
      && m.id in d
      && (Truthy(m.profile.displayName) ==> d[m.id] == m.profile.displayName.value)
      && (!Truthy(m.profile.displayName) && Truthy(m.profile.realName) ==> d[m.id] == m.profile.realName.value)
      && (!Truthy(m.profile.displayName) && !Truthy(m.profile.realName) ==> d[m.id] == m.id)
  {
  }
}
