/**
 * `discord/utils.py`: the helpers of the second Discord bot. Its
 * `prepare_username`, `permissions` and `admin_permissions` are the same
 * code as in `rwrs/discord/utils.py` and are modelled once, in
 * `RwrsDiscordUtils`; this module adds the event manager permissions.
 */
module DiscordUtils {
  import opened RwrsDiscordUtils

  /** `event_manager_permissions`: the admin permissions, then those named `jackmayol`. */
  function EventManagerPermissions(table: PermissionTable): (r: seq<Permission>)
    ensures |r| == |AdminPermissions(table)| + |Permissions(table, ["jackmayol"])|
    ensures r[..|AdminPermissions(table)|] == AdminPermissions(table)
    ensures r[|AdminPermissions(table)|..] == Permissions(table, ["jackmayol"])
  {
    AdminPermissions(table) + Permissions(table, ["jackmayol"])
  }

  /** Whoever passes an admin check passes an event manager check. */
  lemma AdminIsEventManager(table: PermissionTable, member: Member, i: nat)
    requires i < |AdminPermissions(table)| && Grants(AdminPermissions(table)[i], member)
    ensures exists j :: 0 <= j < |EventManagerPermissions(table)| && Grants(EventManagerPermissions(table)[j], member)
  {
    assert EventManagerPermissions(table)[i] == AdminPermissions(table)[i];
  }

  /** An event manager permission is an entry of the table named `myself` or `jackmayol`. */
  lemma EventManagerEntries(table: PermissionTable, p: Permission)
    ensures p in EventManagerPermissions(table) <==>
      exists k :: 0 <= k < |table| && table[k].0 in ["myself", "jackmayol"] && table[k].1 == p
  {
    var admin := AdminPermissions(table);
    var other := Permissions(table, ["jackmayol"]);
    assert p in admin + other <==> p in admin || p in other;
    if p in admin + other {
      if p in admin {
        var k :| 0 <= k < |table| && table[k].0 in ["myself"] && table[k].1 == p;
        assert table[k].0 in ["myself", "jackmayol"];
      } else {
        var k :| 0 <= k < |table| && table[k].0 in ["jackmayol"] && table[k].1 == p;
        assert table[k].0 in ["myself", "jackmayol"];
      }
    } else {
      forall k | 0 <= k < |table| && table[k].1 == p
        ensures table[k].0 !in ["myself", "jackmayol"]
      {
        assert table[k].0 !in ["myself"];
        assert table[k].0 !in ["jackmayol"];
      }
    }
  }
}
