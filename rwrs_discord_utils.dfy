/**
 * `rwrs/discord/utils.py`: the helpers of the Discord bot. The
 * `PERMISSIONS` table of the bot's constants is a parameter: its
 * `(name, permission)` items in order. The flag `g.UNDER_MAINTENANCE`
 * and the author of a command are inputs too.
 */
module RwrsDiscordUtils {
  import opened Wrappers
  import Text

  // ---------------------------------------------------------------- prepare_username

  /** The two characters backslash and hyphen that open an escaped username. */
  const EscapedDash: string := "\\-"

  /** `prepare_username`: upper-cased, with a leading backslash-hyphen unescaped to a hyphen. */
  function PrepareUsername(username: string): (r: string)
    ensures Text.StartsWith(Text.Upper(username), EscapedDash) ==> r == "-" + Text.Upper(username)[2..]
    ensures !Text.StartsWith(Text.Upper(username), EscapedDash) ==> r == Text.Upper(username)
  {
    var upper := Text.Upper(username);
    if !Text.StartsWith(upper, EscapedDash) then upper
    else
      Text.ReplaceFirstLeading(upper, EscapedDash, "-");
      Text.ReplaceFirst(upper, EscapedDash, "-")
  }

  /** A prepared username is upper-case and no longer escaped, so preparing it again changes nothing. */
  lemma PrepareUsernameIdempotent(username: string)
    ensures PrepareUsername(PrepareUsername(username)) == PrepareUsername(username)
  {
    var upper := Text.Upper(username);
    Text.UpperIdempotent(username);
    var r := PrepareUsername(username);
    if Text.StartsWith(upper, EscapedDash) {
      assert forall i :: 0 <= i < |r| ==> Text.UpperChar(r[i]) == r[i] by {
        forall i | 0 <= i < |r| ensures Text.UpperChar(r[i]) == r[i] {
          if i > 0 {
            assert r[i] == upper[i + 1];
          }
        }
      }
      assert Text.Upper(r) == r;
      assert r[0] == '-';
    }
  }

  // ---------------------------------------------------------------- compare_values

  /** `_compare`: up when the first value is larger, down when smaller, equal otherwise. */
  function CompareMark(source: int, target: int): (r: string)
    ensures r == "▲" <==> source > target
    ensures r == "▼" <==> source < target
    ensures r == "=" <==> source == target
  {
    if source > target then "▲" else if source < target then "▼" else "="
  }

  /** The mark seen from the other side. */
  function Mirror(mark: string): string
  {
    if mark == "▲" then "▼" else if mark == "▼" then "▲" else mark
  }

  /** `compare_values`: both marks separated by two spaces. */
  function CompareValues<P>(source: P, target: P, getter: P -> int): string
  {
    CompareMark(getter(source), getter(target)) + "  " + CompareMark(getter(target), getter(source))
  }

  /** The second mark is always the mirror of the first. */
  lemma CompareValuesMirror<P>(source: P, target: P, getter: P -> int)
    ensures var first := CompareMark(getter(source), getter(target));
      CompareValues(source, target, getter) == first + "  " + Mirror(first)
  {
  }

  // ---------------------------------------------------------------- permissions

  /** A permission entry: type 1 names a role, type 2 a user; `granted` is its `permission` flag. */
  datatype Permission = Permission(permType: int, id: int, granted: bool)

  /** The command author: its id and the ids of its roles. */
  datatype Member = Member(id: int, roles: seq<int>)

  type PermissionTable = seq<(string, Permission)>

  /** `permissions(names)`: the table's permissions whose name is listed, in table order. */
  function Permissions(table: PermissionTable, names: seq<string>): (r: seq<Permission>)
    ensures |r| <= |table|
    ensures forall p :: p in r <==> exists k :: 0 <= k < |table| && table[k].0 in names && table[k].1 == p
  {
    if table == [] then []
    else
      var rest := Permissions(table[1..], names);
      assert forall k :: 1 <= k < |table| ==> table[k] == table[1..][k - 1];
      (if table[0].0 in names then [table[0].1] else []) + rest
  }

  /** `admin_permissions`. */
  function AdminPermissions(table: PermissionTable): (r: seq<Permission>)
    ensures forall p :: p in r <==> exists k :: 0 <= k < |table| && table[k].0 == "myself" && table[k].1 == p
  {
    Permissions(table, ["myself"])
  }

  /** The test inside `has_permissions` for one entry. */
  predicate Grants(p: Permission, member: Member)
  {
    ((p.permType == 1 && p.id in member.roles) || (p.permType == 2 && p.id == member.id)) && p.granted
  }

  /** `has_permissions`: a search loop that stops at the first granting entry. */
  method HasPermissions(member: Member, permissions: seq<Permission>) returns (r: bool)
    ensures r <==> exists i :: 0 <= i < |permissions| && Grants(permissions[i], member)
  {
    for i := 0 to |permissions|
      invariant forall j :: 0 <= j < i ==> !Grants(permissions[j], member)
    {
      if Grants(permissions[i], member) {
        return true;
      }
    }
    return false;
  }

  /** What the wrapper of `check_maintenance` does: answer with the notice, or run the command. */
  datatype Gate = Refuse(message: string) | Proceed

  const MaintenanceNotice := ":wrench: RWRS is under ongoing maintenance! Please try again later."

  /**
   * `check_maintenance`: `author` is the author of the context argument,
   * `None` when the command got no arguments.
   */
  method CheckMaintenance(author: Option<Member>, underMaintenance: bool, table: PermissionTable) returns (r: Gate)
    ensures r.Refuse? <==> (author.Some? && underMaintenance
      && forall i :: 0 <= i < |AdminPermissions(table)| ==> !Grants(AdminPermissions(table)[i], author.value))
    ensures r.Refuse? ==> r.message == MaintenanceNotice
  {
    if author.Some? && underMaintenance {
      var allowed := HasPermissions(author.value, AdminPermissions(table));
      if !allowed {
        return Refuse(MaintenanceNotice);
      }
    }
    return Proceed;
  }
}
