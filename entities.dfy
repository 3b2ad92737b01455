/**
 * The entities that a guild member and a permission override refer to.
 * Users, guilds and roles are compared as values; a channel is an object
 * whose two override maps are updated in place.
 */
module Entities {
  import opened Base
  import opened JavaLong

  /** A role's colour, kept opaque: only whether a role has one matters here. */
  datatype Color = Color(rgb: int)

  datatype User = User(id: nat, name: string)

  datatype Guild = Guild(id: nat)

  /** A role of a guild; its colour is null when the role has none. */
  datatype Role = Role(id: nat, color: Option<Color>)

  /** What identifies a member: its user and its guild (see Members.Member.Equals). */
  datatype MemberKey = MemberKey(user: User, guild: Guild)

  /**
   * A committed permission override of one channel: its target (exactly one
   * of a member and a role) and its allowed and denied masks.
   */
  datatype PermissionOverride = PermissionOverride(
    channel: Channel, member: Option<MemberKey>, role: Option<Role>, allow: Mask, deny: Mask)

  /** A guild channel with its member-keyed and role-keyed permission overrides. */
  class Channel {
    const guild: Guild
    var memberOverrides: map<MemberKey, PermissionOverride>
    var roleOverrides: map<Role, PermissionOverride>

    constructor (guild: Guild)
      ensures this.guild == guild
      ensures memberOverrides == map[] && roleOverrides == map[]
    {
      this.guild := guild;
      memberOverrides := map[];
      roleOverrides := map[];
    }
  }
}
