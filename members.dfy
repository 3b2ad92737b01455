/**
 * A member of a guild (MemberImpl): a user in a guild, the set of roles it
 * holds and an optional nickname, with the names, role order, colour and
 * identity derived from them.
 */
module Members {
  import opened Base
  import opened JavaLong
  import opened Permissions
  import opened Entities

  /**
   * lt is a strict total order on the roles of s. It stands for Role's
   * natural order (Role.compareTo), which is not part of this model.
   */
  ghost predicate IsStrictTotalOrderOn(s: set<Role>, lt: (Role, Role) -> bool)
  {
    && (forall a :: a in s ==> !lt(a, a))
    && (forall a, b :: a in s && b in s && a != b ==> lt(a, b) || lt(b, a))
    && (forall a, b, c :: a in s && b in s && c in s && lt(a, b) && lt(b, c) ==> lt(a, c))
  }

  /** m is the greatest role of s under lt. */
  predicate IsGreatest(m: Role, s: set<Role>, lt: (Role, Role) -> bool)
  {
    m in s && forall x :: x in s && x != m ==> lt(x, m)
  }

  /** Every non-empty set of roles has a greatest role. */
  lemma {:induction false} GreatestExists(s: set<Role>, lt: (Role, Role) -> bool)
    requires s != {} && IsStrictTotalOrderOn(s, lt)
    ensures exists m :: IsGreatest(m, s, lt)
    decreases s
  {
    var y :| y in s;
    if s == {y} {
      assert IsGreatest(y, s, lt);
    } else {
      var rest := s - {y};
      GreatestExists(rest, lt);
      var m :| IsGreatest(m, rest, lt);
      if lt(y, m) {
        assert IsGreatest(m, s, lt);
      } else {
        assert IsGreatest(y, s, lt);
      }
    }
  }

  class Member {
    const guild: Guild
    const user: User
    var roles: set<Role>
    var nickname: Option<string>

    /** A new member holds no role and has no nickname. */
    constructor (guild: Guild, user: User)
      ensures this.guild == guild && this.user == user
      ensures roles == {} && nickname == None
    {
      this.guild := guild;
      this.user := user;
      roles := {};
      nickname := None;
    }

    /** The pair that equals compares. */
    function Key(): (k: MemberKey)
    {
      MemberKey(user, guild)
    }

    /** getEffectiveName: the nickname when there is one, else the user's name. */
    function EffectiveName(): (name: string)
      reads this
      ensures nickname.Some? ==> name == nickname.value
      ensures nickname.None? ==> name == user.name
    {
      if nickname.Some? then nickname.value else user.name
    }

    /** setNickname: only the nickname changes. */
    method SetNickname(nickname: Option<string>)
      modifies this`nickname
      ensures this.nickname == nickname
      ensures nickname.Some? ==> EffectiveName() == nickname.value
      ensures nickname.None? ==> EffectiveName() == user.name
    {
      this.nickname := nickname;
    }

    /**
     * getRoles: every held role exactly once, greatest first (the reverse of
     * the roles' natural order). The role set itself is left as it is.
     */
    method GetRoles(lt: (Role, Role) -> bool) returns (rs: seq<Role>)
      requires IsStrictTotalOrderOn(roles, lt)
      ensures forall r :: r in rs <==> r in roles
      ensures forall i, j :: 0 <= i < j < |rs| ==> lt(rs[j], rs[i])
      ensures forall i, j :: 0 <= i < j < |rs| ==> rs[i] != rs[j]
    {
      rs := [];
      var rest := roles;
      while rest != {}
        invariant rest <= roles
        invariant forall r :: r in rs <==> r in roles && r !in rest
        invariant forall i, j :: 0 <= i < j < |rs| ==> lt(rs[j], rs[i])
        invariant forall i, r :: 0 <= i < |rs| && r in rest ==> lt(r, rs[i])
        decreases rest
      {
        GreatestExists(rest, lt);
        var m :| IsGreatest(m, rest, lt);
        rs := rs + [m];
        rest := rest - {m};
      }
    }

    /**
     * getColor: the colour of the first role of getRoles that has one, that
     * is of the greatest coloured role; null when no held role has a colour.
     */
    method GetColor(lt: (Role, Role) -> bool) returns (c: Option<Color>)
      requires IsStrictTotalOrderOn(roles, lt)
      ensures c.None? <==> forall r :: r in roles ==> r.color.None?
      ensures c.Some? ==>
        exists r :: r in roles && r.color == c && (forall r' :: r' in roles && lt(r, r') ==> r'.color.None?)
    {
      var rs := GetRoles(lt);
      var i := 0;
      while i < |rs|
        invariant 0 <= i <= |rs|
        invariant forall k :: 0 <= k < i ==> rs[k].color.None?
      {
        if rs[i].color.Some? {
          forall r' | r' in roles && lt(rs[i], r') ensures r'.color.None? {
            var k :| 0 <= k < |rs| && rs[k] == r';
          }
          return rs[i].color;
        }
        i := i + 1;
      }
      forall r | r in roles ensures r.color.None? {
        var k :| 0 <= k < |rs| && rs[k] == r;
      }
      return None;
    }

    /**
     * getPermissions(Channel): rejects a channel of another guild; otherwise
     * the permissions resolved for this member in the channel, which are
     * computed elsewhere and given here as resolved.
     */
    function GetPermissionsIn(channel: Channel, resolved: Mask): (r: Result<Mask>)
      ensures r.Failure? <==> channel.guild != guild
      ensures r.Failure? ==> r.error == ForeignChannel
      ensures r.Success? ==> r.value == resolved
    {
      if guild != channel.guild then Failure(ForeignChannel) else Success(resolved)
    }

    /**
     * hasPermission(Collection): rejects a null collection, otherwise asks
     * the guild-level permission check, given here as checkPermission,
     * about exactly the collection's elements.
     */
    function HasPermission(
      permissions: Option<seq<Option<Permission>>>,
      checkPermission: seq<Option<Permission>> -> bool): (r: Result<bool>)
      ensures r.Failure? <==> permissions.None?
      ensures r.Failure? ==> r.error == NullCollection
      ensures r.Success? ==> r.value == checkPermission(permissions.value)
    {
      if permissions.None? then Failure(NullCollection) else Success(checkPermission(permissions.value))
    }

    /**
     * hasPermission(Channel, Collection): the same null check, then the
     * channel-level permission check, given here as checkPermission.
     */
    function HasPermissionIn(
      channel: Channel,
      permissions: Option<seq<Option<Permission>>>,
      checkPermission: (Channel, seq<Option<Permission>>) -> bool): (r: Result<bool>)
      ensures r.Failure? <==> permissions.None?
      ensures r.Failure? ==> r.error == NullCollection
      ensures r.Success? ==> r.value == checkPermission(channel, permissions.value)
    {
      if permissions.None? then Failure(NullCollection) else Success(checkPermission(channel, permissions.value))
    }

    /** equals: o is this member, or a member of the same user in the same guild. */
    predicate Equals(o: object?)
      ensures Equals(o) <==> o is Member && (o as Member).Key() == Key()
    {
      o is Member && (this == o || ((o as Member).user == user && (o as Member).guild == guild))
    }

    /** isOwner: this member equals the guild's owner (null when the owner is unknown). */
    predicate IsOwner(owner: Member?)
      ensures IsOwner(owner) <==> owner != null && owner.Key() == Key()
    {
      Equals(owner)
    }

    lemma EqualsIsReflexive()
      ensures Equals(this)
    {
    }

    lemma EqualsIsSymmetric(other: Member)
      ensures Equals(other) <==> other.Equals(this)
    {
    }

    lemma EqualsIsTransitive(b: Member, c: Member)
      requires Equals(b) && b.Equals(c)
      ensures Equals(c)
    {
    }
  }
}
